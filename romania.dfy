/**
 * The romania adapter: one packed 16-bit image per archive entry, labelled by the
 * species directory of its path; the metabarcoding configuration keeps only the
 * entries whose sample path starts with an entry of the metabarcoding list.
 */
module Romania {
  import opened Wrappers
  import opened Text
  import opened Stream
  import opened Slicing

  /** The selections a romania configuration accepts (`_DATA_OPTIONS`). */
  const DataOptions: seq<string> := ["all", "metabarcoding"]

  /** The archive file that both builder configurations read. */
  const TrainArchive: string := "romania-train-2.0.0.tar.gz"

  datatype ConfigData = ConfigData(selection: string, dataset: string)

  /** A configuration that construction accepted. */
  type Config = c: ConfigData | c.selection in DataOptions witness ConfigData("all", TrainArchive)

  datatype ValueError = ValueError(message: string)

  /** `RomaniaConfig(dataset=..., selection=...)`: raises ValueError unless the selection is one of the options. */
  function NewConfig(selection: string, dataset: string): (r: Result<Config, ValueError>)
    ensures r.Success? <==> selection == "all" || selection == "metabarcoding"
    ensures r.Success? ==> r.value.selection == selection && r.value.dataset == dataset
    ensures r.Failure? ==> r.error.message == "Selection must be one of ['all', 'metabarcoding']"
  {
    if selection in DataOptions then Success(ConfigData(selection, dataset))
    else
      SelectionMessageSpelled();
      Failure(ValueError("Selection must be one of " + ListRepr(DataOptions)))
  }

  /** The message of the ValueError, with `%s` of the option list written out. */
  lemma SelectionMessageSpelled()
    ensures "Selection must be one of " + ListRepr(DataOptions) == "Selection must be one of ['all', 'metabarcoding']"
  {
    ListReprPair(DataOptions[0], DataOptions[1]);
  }

  /** The metabarcoding configuration filters by the metabarcoding list. */
  predicate Metabarcoding(c: Config) {
    c.selection == "metabarcoding"
  }

  /** `[line.rstrip() for line in f]`: the lines of the metabarcoding list, right-stripped. */
  function AllowList(lines: seq<string>): (allow: seq<string>)
    ensures |allow| == |lines|
    ensures forall i :: 0 <= i < |lines| ==> allow[i] == RStrip(lines[i])
  {
    seq(|lines|, i requires 0 <= i < |lines| => RStrip(lines[i]))
  }

  /**
   * The groups of a match of `^(?:([^/\n.A-Z]+)/)?([a-zA-Z]+\.?[a-zA-Z]+)/(.*)/.*$`
   * against an entry's file name: an optional leading region directory, the species
   * directory and the sample path below it.
   */
  datatype PathGroups = PathGroups(region: Option<string>, species: string, path: string)

  /** An archive entry: its file name, the match against it (None when it does not match), its image's planes. */
  datatype Entry<P> = Entry(filename: string, groups: Option<PathGroups>, image: seq<P>)

  /** The errors that end a romania pass. */
  datatype Error =
    | NoMatch(filename: string)                              // AttributeError: m is None
    | UnknownChannelCount(numChannels: real, filename: string)  // AssertionError('Unknown number of channels ...')

  /**
   * One iteration of `_generate_examples`: a name that does not match is fatal; in
   * the metabarcoding configuration a sample path that starts with no entry of the
   * list is skipped; the image must have 14, 18 or 24 planes; the species directory
   * is the label.
   */
  function ProcessEntry<P>(c: Config, allow: seq<string>, e: Entry<P>): (o: Outcome<PackedExample<P>, Error>)
    ensures e.groups.None? ==> o == Fail(NoMatch(e.filename))
    ensures o.Skip? <==> e.groups.Some? && Metabarcoding(c) && !StartsWithAny(e.groups.value.path, allow)
    ensures e.groups.Some? && !o.Skip? ==>
      if |e.image| == 14 || |e.image| == 18 || |e.image| == 24 then o.Emit?
      else o == Fail(UnknownChannelCount(HalfPlanes(|e.image|), e.filename))
    ensures o.Emit? ==>
      && e.groups.Some?
      && o.record.channels.Keys == PackedIds && o.record.masks.Keys == PackedIds
      && o.record.channels == SlicePacked(e.image).value.channels
      && o.record.masks == SlicePacked(e.image).value.masks
      && o.record.filename == e.filename
      && o.record.classLabel == e.groups.value.species
  {
    if e.groups.None? then Fail(NoMatch(e.filename))
    else if Metabarcoding(c) && !StartsWithAny(e.groups.value.path, allow) then Skip
    else
      match SlicePacked(e.image)
      case None => Fail(UnknownChannelCount(HalfPlanes(|e.image|), e.filename))
      case Some(planes) => Emit(PackedExample(planes.channels, planes.masks, e.filename, e.groups.value.species))
  }

  /** The loop body as the step of a generation pass, given the lines of the metabarcoding list. */
  function Stepper<P>(c: Config, lines: seq<string>): Entry<P> -> Outcome<PackedExample<P>, Error> {
    e => ProcessEntry(c, AllowList(lines), e)
  }

  /** The `all` configuration skips nothing: every entry is yielded or raises. */
  lemma AllKeepsEveryEntry<P>(c: Config, allow: seq<string>, e: Entry<P>)
    requires c.selection == "all"
    ensures !ProcessEntry(c, allow, e).Skip?
  {
  }

  /**
   * A line of the metabarcoding list that is only white space strips to the empty
   * prefix, which every sample path starts with: then the filter keeps every entry.
   */
  lemma {:induction false} BlankLineKeepsEveryEntry<P>(c: Config, lines: seq<string>, k: int, e: Entry<P>)
    requires 0 <= k < |lines|
    requires forall j :: 0 <= j < |lines[k]| ==> IsSpace(lines[k][j])
    ensures !Stepper(c, lines)(e).Skip?
  {
    var allow := AllowList(lines);
    assert allow[k] == RStrip(lines[k]);
    RStripUnique(lines[k], []);
    if e.groups.Some? {
      assert IsPrefix(allow[k], e.groups.value.path);
    }
  }

  /** An empty metabarcoding list keeps nothing: a metabarcoding pass over it yields no record. */
  lemma {:induction false} EmptyListYieldsNothing<P>(c: Config, entries: seq<Entry<P>>)
    requires Metabarcoding(c)
    ensures Run(Stepper(c, []), entries).records == []
    decreases |entries|
  {
    if entries != [] {
      EmptyListYieldsNothing(c, entries[1..]);
    }
  }

  /**
   * Every record of a pass comes from an entry of the archive that matched: it has
   * that entry's file name and species directory, the schema's ids, and, in the
   * metabarcoding configuration, a sample path that starts with an entry of the list.
   */
  lemma {:induction false} RecordsComeFromMatchedEntries<P>(c: Config, lines: seq<string>, entries: seq<Entry<P>>)
    ensures forall r :: r in Run(Stepper(c, lines), entries).records ==>
      && r.channels.Keys == PackedIds && r.masks.Keys == PackedIds
      && exists i :: 0 <= i < |entries| && entries[i].groups.Some?
           && r.filename == entries[i].filename
           && r.classLabel == entries[i].groups.value.species
           && (Metabarcoding(c) ==> StartsWithAny(entries[i].groups.value.path, AllowList(lines)))
  {
    RunRecordsAreYielded(Stepper(c, lines), entries);
    forall r | r in Run(Stepper(c, lines), entries).records
      ensures r.channels.Keys == PackedIds && r.masks.Keys == PackedIds
      ensures exists i :: 0 <= i < |entries| && entries[i].groups.Some?
                && r.filename == entries[i].filename
                && r.classLabel == entries[i].groups.value.species
                && (Metabarcoding(c) ==> StartsWithAny(entries[i].groups.value.path, AllowList(lines)))
    {
      var i :| 0 <= i < |entries| && Stepper(c, lines)(entries[i]) == Emit(r);
      assert ProcessEntry(c, AllowList(lines), entries[i]) == Emit(r);
    }
  }

  /** `_generate_examples`: the loop over the archive entries, yielding until an entry raises. */
  method GenerateExamples<P>(c: Config, lines: seq<string>, entries: seq<Entry<P>>)
    returns (g: Generated<PackedExample<P>, Error>)
    ensures g == Run(Stepper(c, lines), entries)
    ensures forall r :: r in g.records ==>
      && r.channels.Keys == PackedIds && r.masks.Keys == PackedIds
      && exists i :: 0 <= i < |entries| && entries[i].groups.Some?
           && r.filename == entries[i].filename
           && r.classLabel == entries[i].groups.value.species
           && (Metabarcoding(c) ==> StartsWithAny(entries[i].groups.value.path, AllowList(lines)))
  {
    g := Generate(Stepper(c, lines), entries);
    RecordsComeFromMatchedEntries(c, lines, entries);
  }
}
