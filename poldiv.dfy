/**
 * The pollen-diversity (poldiv) adapter: one packed 16-bit image per archive entry,
 * labelled by species or, when the genus configuration is selected, by the genus
 * that the species-to-genus table gives for the species.
 */
module Poldiv {
  import opened Wrappers
  import opened Text
  import opened Stream
  import opened Slicing

  /** The selections a poldiv configuration accepts (`_DATA_OPTIONS`). */
  const DataOptions: seq<string> := ["all-species", "all-genus"]

  datatype ConfigData = ConfigData(selection: string)

  /** A configuration that construction accepted. */
  type Config = c: ConfigData | c.selection in DataOptions witness ConfigData("all-species")

  datatype ValueError = ValueError(message: string)

  /** `PoldivConfig(selection=...)`: raises ValueError unless the selection is one of the options. */
  function NewConfig(selection: string): (r: Result<Config, ValueError>)
    ensures r.Success? <==> selection == "all-species" || selection == "all-genus"
    ensures r.Success? ==> r.value.selection == selection
    ensures r.Failure? ==> r.error.message == "Selection must be one of ['all-species', 'all-genus']"
  {
    if selection in DataOptions then Success(ConfigData(selection))
    else
      SelectionMessageSpelled();
      Failure(ValueError("Selection must be one of " + ListRepr(DataOptions)))
  }

  /** The message of the ValueError, with `%s` of the option list written out. */
  lemma SelectionMessageSpelled()
    ensures "Selection must be one of " + ListRepr(DataOptions) == "Selection must be one of ['all-species', 'all-genus']"
  {
    ListReprPair(DataOptions[0], DataOptions[1]);
  }

  /** The generator's `selection.startswith('all')` branch is taken by every configuration. */
  lemma EveryConfigStartsWithAll(c: Config)
    ensures IsPrefix("all", c.selection)
  {
  }

  /** Genus-level labels: `'genus' in selection`. */
  predicate GenusMode(c: Config) {
    Contains(c.selection, "genus")
  }

  /** Of the two configurations, exactly `all-genus` labels by genus. */
  lemma GenusModeIsAllGenus(c: Config)
    ensures GenusMode(c) <==> c.selection == "all-genus"
  {
    if c.selection == "all-genus" {
      assert OccursAt(c.selection, "genus", 4);
    } else {
      var s := c.selection;
      assert forall i :: 0 <= i < |s| ==> s[i] != 'g';
      forall i: nat | i <= |s| - 5 ensures !OccursAt(s, "genus", i) {
        assert s[i..i + 5][0] == s[i];
      }
    }
  }

  /** One row of the species-to-genus table. */
  datatype Mapping = Mapping(species: string, genus: string)

  /** Row `i` is the first row of `mappings` for `species`. */
  ghost predicate IsFirstRow(mappings: seq<Mapping>, species: string, i: int) {
    && 0 <= i < |mappings|
    && mappings[i].species == species
    && forall j :: 0 <= j < i ==> mappings[j].species != species
  }

  /**
   * `next((item for item in mappings if item['species'] == clazz), None)`: the genus of
   * the first row whose species is `clazz`, or nothing when no row has it.
   */
  function FindGenus(mappings: seq<Mapping>, clazz: string): (r: Option<string>)
    ensures r.None? <==> forall i :: 0 <= i < |mappings| ==> mappings[i].species != clazz
    ensures r.Some? ==> exists i :: IsFirstRow(mappings, clazz, i) && mappings[i].genus == r.value
  {
    if mappings == [] then None
    else if mappings[0].species == clazz then
      assert IsFirstRow(mappings, clazz, 0);
      Some(mappings[0].genus)
    else
      var r := FindGenus(mappings[1..], clazz);
      assert forall i :: 0 < i < |mappings| ==> mappings[i] == mappings[1..][i - 1];
      assert r.Some? ==> exists i :: IsFirstRow(mappings, clazz, i) && mappings[i].genus == r.value by {
        if r.Some? {
          var i :| IsFirstRow(mappings[1..], clazz, i) && mappings[1..][i].genus == r.value;
          assert IsFirstRow(mappings, clazz, i + 1);
        }
      }
      r
  }

  /**
   * An archive entry: its file name, group 1 of the match of the class-name pattern
   * `^([a-zA-Z]+\.?[a-zA-Z]+).+$` against it (None when it does not match), and
   * the planes of its decoded image.
   */
  datatype Entry<P> = Entry(filename: string, classGroup: Option<string>, image: seq<P>)

  /** The errors that end a poldiv pass. */
  datatype Error =
    | NoClassName(filename: string)                         // AssertionError(filename)
    | GenusNotFound(clazz: string)                          // Exception('Genus not found for ...')
    | UnknownChannelCount(numChannels: real, filename: string)  // AssertionError('Unknown number of channels ...')

  /** The label of a class in this configuration: the class itself, or the genus found for it. */
  function ClassLabel(c: Config, mappings: seq<Mapping>, clazz: string): (r: Result<string, Error>)
    ensures r.Success? <==> !GenusMode(c) || FindGenus(mappings, clazz).Some?
    ensures r.Failure? ==> r.error == GenusNotFound(clazz)
    ensures !GenusMode(c) ==> r == Success(clazz)
    ensures GenusMode(c) && r.Success? ==> exists i :: IsFirstRow(mappings, clazz, i) && mappings[i].genus == r.value
  {
    if GenusMode(c) then
      match FindGenus(mappings, clazz)
      case Some(genus) => Success(genus)
      case None => Failure(GenusNotFound(clazz))
    else Success(clazz)
  }

  /**
   * One iteration of `_generate_examples`: a name that does not match is fatal; the
   * class is the lower-cased group and `others` is skipped; in genus mode the class
   * must be in the table; the image must have 14, 18 or 24 planes.
   */
  function ProcessEntry<P>(c: Config, mappings: seq<Mapping>, e: Entry<P>): (o: Outcome<PackedExample<P>, Error>)
    ensures e.classGroup.None? ==> o == Fail(NoClassName(e.filename))
    ensures e.classGroup.Some? ==>
      var clazz := Lower(e.classGroup.value);
      && (clazz == "others" <==> o.Skip?)
      && (clazz != "others" && GenusMode(c) && FindGenus(mappings, clazz).None? ==> o == Fail(GenusNotFound(clazz)))
      && (clazz != "others" && ClassLabel(c, mappings, clazz).Success? ==>
            if |e.image| == 14 || |e.image| == 18 || |e.image| == 24 then o.Emit?
            else o == Fail(UnknownChannelCount(HalfPlanes(|e.image|), e.filename)))
    ensures o.Emit? ==>
      && e.classGroup.Some?
      && o.record.channels.Keys == PackedIds && o.record.masks.Keys == PackedIds
      && o.record.channels == SlicePacked(e.image).value.channels
      && o.record.masks == SlicePacked(e.image).value.masks
      && o.record.filename == e.filename
      && (!GenusMode(c) ==> o.record.classLabel == Lower(e.classGroup.value))
      && (GenusMode(c) ==> exists i :: IsFirstRow(mappings, Lower(e.classGroup.value), i) && mappings[i].genus == o.record.classLabel)
  {
    if e.classGroup.None? then Fail(NoClassName(e.filename))
    else
      var clazz := Lower(e.classGroup.value);
      var resolved := ClassLabel(c, mappings, clazz);
      if clazz == "others" then Skip
      else if resolved.Failure? then Fail(resolved.error)
      else
        match SlicePacked(e.image)
        case None => Fail(UnknownChannelCount(HalfPlanes(|e.image|), e.filename))
        case Some(planes) => Emit(PackedExample(planes.channels, planes.masks, e.filename, resolved.value))
  }

  /** The loop body as the step of a generation pass. */
  function Stepper<P>(c: Config, mappings: seq<Mapping>): Entry<P> -> Outcome<PackedExample<P>, Error> {
    e => ProcessEntry(c, mappings, e)
  }

  /**
   * Every record of a pass has the schema's channel and mask ids and the file name
   * of an entry of the archive.
   */
  lemma {:induction false} RecordsFollowSchema<P>(c: Config, mappings: seq<Mapping>, entries: seq<Entry<P>>)
    ensures forall r :: r in Run(Stepper(c, mappings), entries).records ==>
      && r.channels.Keys == PackedIds && r.masks.Keys == PackedIds
      && exists i :: 0 <= i < |entries| && r.filename == entries[i].filename
  {
    RunRecordsAreYielded(Stepper(c, mappings), entries);
    forall r | r in Run(Stepper(c, mappings), entries).records
      ensures r.channels.Keys == PackedIds && r.masks.Keys == PackedIds
      ensures exists i :: 0 <= i < |entries| && r.filename == entries[i].filename
    {
      var i :| 0 <= i < |entries| && Stepper(c, mappings)(entries[i]) == Emit(r);
      assert ProcessEntry(c, mappings, entries[i]) == Emit(r);
    }
  }

  /** `_generate_examples`: the loop over the archive entries, yielding until an entry raises. */
  method GenerateExamples<P>(c: Config, mappings: seq<Mapping>, entries: seq<Entry<P>>)
    returns (g: Generated<PackedExample<P>, Error>)
    ensures g == Run(Stepper(c, mappings), entries)
    ensures forall r :: r in g.records ==>
      && r.channels.Keys == PackedIds && r.masks.Keys == PackedIds
      && exists i :: 0 <= i < |entries| && r.filename == entries[i].filename
  {
    g := Generate(Stepper(c, mappings), entries);
    RecordsFollowSchema(c, mappings, entries);
  }

  /** The message of `raise Exception('Genus not found for {clazz}')` as written: no f-prefix, so no class. */
  function GenusNotFoundMessageAsWritten(clazz: string): string {
    "Genus not found for {clazz}"
  }

  /** As written, the message for class `betula` is the one for `alnus`, and it does not contain `betula`. */
  lemma AsWrittenMessageOmitsClass()
    ensures GenusNotFoundMessageAsWritten("betula") == GenusNotFoundMessageAsWritten("alnus")
    ensures !Contains(GenusNotFoundMessageAsWritten("betula"), "betula")
  {
    var m := GenusNotFoundMessageAsWritten("betula");
    assert forall i :: 0 <= i < |m| ==> m[i] != 'b';
    forall i: nat | i <= |m| - 6 ensures !OccursAt(m, "betula", i) {
      assert m[i..i + 6][0] == m[i];
    }
  }

  /** The evidently intended message, which names the class. */
  function GenusNotFoundMessage(clazz: string): (m: string)
    ensures |m| == 20 + |clazz| && m[20..] == clazz
    ensures Contains(m, clazz)
  {
    var m := "Genus not found for " + clazz;
    assert OccursAt(m, clazz, 20);
    m
  }

  /** Distinct missing classes have distinct intended messages. */
  lemma GenusNotFoundMessageNamesClass(a: string, b: string)
    requires GenusNotFoundMessage(a) == GenusNotFoundMessage(b)
    ensures a == b
  {
    assert a == GenusNotFoundMessage(a)[20..];
  }
}
