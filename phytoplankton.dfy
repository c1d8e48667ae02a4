/**
 * The phytoplankton adapter: twelve-plane images, three output splits that each
 * read the whole archive and keep the entries of the configured replicate whose
 * split directory is the split's own.
 */
module Phytoplankton {
  import opened Wrappers
  import opened Text
  import opened Stream
  import opened Slicing

  /** The selections a phytoplankton configuration accepts (`_DATA_OPTIONS`): the replicates. */
  const DataOptions: seq<string> := ["rep-0", "rep-1"]

  datatype ConfigData = ConfigData(selection: string, dataset: string)

  /** A configuration that construction accepted. */
  type Config = c: ConfigData | c.selection in DataOptions witness ConfigData("rep-0", "phytoplankton-1.0.0.tar.gz")

  datatype ValueError = ValueError(message: string)

  /** The message of the ValueError, with `%s` of the option list written out. */
  lemma SelectionMessageSpelled()
    ensures "Selection must be one of " + ListRepr(DataOptions) == "Selection must be one of ['rep-0', 'rep-1']"
  {
    ListReprPair(DataOptions[0], DataOptions[1]);
  }

  /** `PhytoplanktonConfig(dataset=..., selection=...)`: raises ValueError unless the selection is one of the options. */
  function NewConfig(selection: string, dataset: string): (r: Result<Config, ValueError>)
    ensures r.Success? <==> selection == "rep-0" || selection == "rep-1"
    ensures r.Success? ==> r.value.selection == selection && r.value.dataset == dataset
    ensures r.Failure? ==> r.error.message == "Selection must be one of ['rep-0', 'rep-1']"
  {
    if selection in DataOptions then Success(ConfigData(selection, dataset))
    else
      SelectionMessageSpelled();
      Failure(ValueError("Selection must be one of " + ListRepr(DataOptions)))
  }

  /** The three splits `_split_generators` returns. */
  datatype Split = Train | Valid | Test

  /** The name of the split in the returned dictionary. */
  function SplitName(s: Split): string {
    match s
    case Train => "train"
    case Valid => "valid"
    case Test => "test"
  }

  /** The `split_name` the split's generator is given: the directory it keeps. */
  function Directory(s: Split): string {
    match s
    case Train => "train"
    case Valid => "validation"
    case Test => "test"
  }

  /** The split directories the path pattern admits: `(train|validation|test)`. */
  const Directories: set<string> := {"train", "validation", "test"}

  /**
   * The splits are named apart, and the generators' directories are exactly the
   * ones the path pattern admits, one per split; only the validation split is
   * named differently from its directory.
   */
  lemma SplitsMatchDirectories()
    ensures forall s, t :: SplitName(s) == SplitName(t) ==> s == t
    ensures forall s, t :: Directory(s) == Directory(t) ==> s == t
    ensures forall d :: d in Directories <==> exists s :: Directory(s) == d
    ensures forall s :: SplitName(s) == Directory(s) <==> s != Valid
  {
    assert Directory(Train) == "train" && Directory(Valid) == "validation" && Directory(Test) == "test";
  }

  /** Channel ids of the schema: `str(i) for i in range(1, 13)`. */
  const PhytoIds: set<string> := IdRange(1, 13)

  /** Spelled out, the phytoplankton schema's channel ids are "1" to "12". */
  lemma PhytoIdsSpelled()
    ensures PhytoIds == {"1", "2", "3", "4", "5", "6", "7", "8", "9", "10", "11", "12"}
  {
    assert Str(1) == "1" && Str(2) == "2" && Str(3) == "3" && Str(4) == "4" && Str(5) == "5" && Str(6) == "6";
    assert Str(7) == "7" && Str(8) == "8" && Str(9) == "9";
    assert Str(10) == Str(1) + [Digit(0)] == "10";
    assert Str(11) == Str(1) + [Digit(1)] == "11";
    assert Str(12) == Str(1) + [Digit(2)] == "12";
    forall k | k in PhytoIds ensures k in {"1", "2", "3", "4", "5", "6", "7", "8", "9", "10", "11", "12"} {
      var n: nat :| 1 <= n < 13 && k == Str(n);
    }
  }

  /**
   * `{str(i): img[:, :, i - 1] for i in range(1, 13)}` when the image has twelve
   * planes, and nothing for any other count.
   */
  function SliceTwelve<P>(img: seq<P>): (r: Option<map<string, P>>)
    ensures r.Some? <==> |img| == 12
    ensures r.Some? ==> r.value.Keys == PhytoIds
    ensures r.Some? ==> forall n: nat :: 1 <= n <= 12 ==> r.value[Str(n)] == img[n - 1]
  {
    if |img| == 12 then
      var ids := RangeIds(0, 12, 1);
      Some(Slice(img, ids))
    else None
  }

  /**
   * The groups of a match of `^(rep-\d)/(train|validation|test)/\d{8}_\d{2}_(\w)_\d+.*$`
   * against an entry's file name: the replicate, the split directory and the
   * one-character species code.
   */
  datatype PathGroups = PathGroups(rep: string, directory: string, species: string)

  /** An archive entry: its file name, the match against it (None when it does not match), its image's planes. */
  datatype Entry<P> = Entry(filename: string, groups: Option<PathGroups>, image: seq<P>)

  /** A phytoplankton example: the twelve channels, the file name and the species code. */
  datatype Example<P> = Example(channels: map<string, P>, filename: string, species: string)

  /** The errors that end a phytoplankton pass. */
  datatype Error =
    | NoMatch(filename: string)                             // AttributeError: m is None
    | UnknownChannelCount(numChannels: nat, filename: string)  // AssertionError('Unknown number of channels ...')

  /**
   * One iteration of `_generate_examples(path_iter, rep, split_name)`: a name that
   * does not match is fatal; an entry of another replicate or another split
   * directory is skipped; the image must have twelve planes.
   */
  function ProcessEntry<P>(c: Config, s: Split, e: Entry<P>): (o: Outcome<Example<P>, Error>)
    ensures e.groups.None? ==> o == Fail(NoMatch(e.filename))
    ensures o.Skip? <==> e.groups.Some? && (e.groups.value.rep != c.selection || e.groups.value.directory != Directory(s))
    ensures e.groups.Some? && !o.Skip? ==>
      if |e.image| == 12 then o.Emit? else o == Fail(UnknownChannelCount(|e.image|, e.filename))
    ensures o.Emit? ==>
      && e.groups.Some?
      && o.record.channels.Keys == PhytoIds
      && (forall n: nat :: 1 <= n <= 12 ==> o.record.channels[Str(n)] == e.image[n - 1])
      && o.record.filename == e.filename
      && o.record.species == e.groups.value.species
  {
    if e.groups.None? then Fail(NoMatch(e.filename))
    else if e.groups.value.rep != c.selection || e.groups.value.directory != Directory(s) then Skip
    else
      match SliceTwelve(e.image)
      case None => Fail(UnknownChannelCount(|e.image|, e.filename))
      case Some(channels) => Emit(Example(channels, e.filename, e.groups.value.species))
  }

  /** The loop body of the generator of split `s`, as the step of a generation pass. */
  function Stepper<P>(c: Config, s: Split): Entry<P> -> Outcome<Example<P>, Error> {
    e => ProcessEntry(c, s, e)
  }

  /**
   * An entry of the configured replicate whose directory the pattern admits is
   * kept by exactly one split, the one whose generator is given that directory; an
   * entry of the other replicate is kept by none.
   */
  lemma EntryKeptByOneSplit<P>(c: Config, e: Entry<P>)
    requires e.groups.Some? && e.groups.value.directory in Directories
    ensures e.groups.value.rep == c.selection ==>
      exists s :: !ProcessEntry(c, s, e).Skip? && forall t :: t != s ==> ProcessEntry(c, t, e).Skip?
    ensures e.groups.value.rep != c.selection ==> forall s :: ProcessEntry(c, s, e).Skip?
  {
    SplitsMatchDirectories();
    if e.groups.value.rep == c.selection {
      var s :| Directory(s) == e.groups.value.directory;
      assert !ProcessEntry(c, s, e).Skip?;
    }
  }

  /**
   * A name that does not match the pattern ends every split's pass, at that entry
   * at the latest; when no earlier entry raises, with that name's error.
   */
  lemma {:induction false} UnmatchedNameEndsEverySplit<P>(c: Config, entries: seq<Entry<P>>, k: int)
    requires 0 <= k < |entries| && entries[k].groups.None?
    ensures forall s :: FirstFailure(Stepper(c, s), entries) <= k && Run(Stepper(c, s), entries).failure.Some?
    ensures forall s :: (forall j :: 0 <= j < k ==> !ProcessEntry(c, s, entries[j]).Fail?) ==>
      Run(Stepper(c, s), entries).failure == Some(NoMatch(entries[k].filename))
  {
    forall s
      ensures FirstFailure(Stepper(c, s), entries) <= k && Run(Stepper(c, s), entries).failure.Some?
      ensures (forall j :: 0 <= j < k ==> !ProcessEntry(c, s, entries[j]).Fail?) ==>
        Run(Stepper(c, s), entries).failure == Some(NoMatch(entries[k].filename))
    {
      var step := Stepper(c, s);
      RunIsEmittedBeforeFirstFailure(step, entries);
      var f := FirstFailure(step, entries);
      assert step(entries[k]) == Fail(NoMatch(entries[k].filename));
      assert f <= k;
    }
  }

  /**
   * Every record of split `s` comes from an entry of the configured replicate in
   * the split's directory, with that entry's file name and species code.
   */
  lemma {:induction false} RecordsOfSplit<P>(c: Config, s: Split, entries: seq<Entry<P>>)
    ensures forall r :: r in Run(Stepper(c, s), entries).records ==>
      && r.channels.Keys == PhytoIds
      && exists i :: 0 <= i < |entries| && entries[i].groups.Some?
           && entries[i].groups.value.rep == c.selection
           && entries[i].groups.value.directory == Directory(s)
           && r.filename == entries[i].filename
           && r.species == entries[i].groups.value.species
  {
    RunRecordsAreYielded(Stepper(c, s), entries);
    forall r | r in Run(Stepper(c, s), entries).records
      ensures r.channels.Keys == PhytoIds
      ensures exists i :: 0 <= i < |entries| && entries[i].groups.Some?
                && entries[i].groups.value.rep == c.selection
                && entries[i].groups.value.directory == Directory(s)
                && r.filename == entries[i].filename
                && r.species == entries[i].groups.value.species
    {
      var i :| 0 <= i < |entries| && Stepper(c, s)(entries[i]) == Emit(r);
      assert ProcessEntry(c, s, entries[i]) == Emit(r);
    }
  }

  /** `_generate_examples` for split `s`: a pass over the whole archive, yielding until an entry raises. */
  method GenerateExamples<P>(c: Config, s: Split, entries: seq<Entry<P>>)
    returns (g: Generated<Example<P>, Error>)
    ensures g == Run(Stepper(c, s), entries)
    ensures forall r :: r in g.records ==>
      && r.channels.Keys == PhytoIds
      && exists i :: 0 <= i < |entries| && entries[i].groups.Some?
           && entries[i].groups.value.rep == c.selection
           && entries[i].groups.value.directory == Directory(s)
           && r.filename == entries[i].filename
           && r.species == entries[i].groups.value.species
  {
    g := Generate(Stepper(c, s), entries);
    RecordsOfSplit(c, s, entries);
  }

  /**
   * `_split_generators`: one pass over the archive per split, under the split's
   * name; the three passes differ only in the directory they keep.
   */
  function SplitGenerators<P>(c: Config, entries: seq<Entry<P>>): (splits: map<string, Generated<Example<P>, Error>>)
    ensures splits.Keys == {"train", "valid", "test"}
    ensures forall s :: splits[SplitName(s)] == Run(Stepper(c, s), entries)
  {
    map["train" := Run(Stepper(c, Train), entries),
        "valid" := Run(Stepper(c, Valid), entries),
        "test" := Run(Stepper(c, Test), entries)]
  }
}
