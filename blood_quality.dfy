/**
 * The blood-quality adapter: every channel of a cell is a separate archive entry,
 * and the generator keeps a pending map from a cell's base name to the channel
 * images seen so far; the entry that brings a cell to three channels yields the
 * cell and removes it from the map.
 */
module BloodQuality {
  import opened Wrappers
  import opened Text

  /** The selections a blood-quality configuration accepts (`_DATA_OPTIONS`): the countries. */
  const DataOptions: seq<string> := ["canadian", "swiss"]

  datatype ConfigData = ConfigData(selection: string, dataset: string)

  /** A configuration that construction accepted. */
  type Config = c: ConfigData | c.selection in DataOptions witness ConfigData("canadian", "Training_Test2_Canada_Swiss.zip")

  datatype ValueError = ValueError(message: string)

  /** The message of the ValueError, with `%s` of the option list written out. */
  lemma SelectionMessageSpelled()
    ensures "Selection must be one of " + ListRepr(DataOptions) == "Selection must be one of ['canadian', 'swiss']"
  {
    ListReprPair(DataOptions[0], DataOptions[1]);
  }

  /** `BloodQualityConfig(dataset=..., selection=...)`: raises ValueError unless the selection is one of the options. */
  function NewConfig(selection: string, dataset: string): (r: Result<Config, ValueError>)
    ensures r.Success? <==> selection == "canadian" || selection == "swiss"
    ensures r.Success? ==> r.value.selection == selection && r.value.dataset == dataset
    ensures r.Failure? ==> r.error.message == "Selection must be one of ['canadian', 'swiss']"
  {
    if selection in DataOptions then Success(ConfigData(selection, dataset))
    else
      SelectionMessageSpelled();
      Failure(ValueError("Selection must be one of " + ListRepr(DataOptions)))
  }

  /** The title-cased `canadian` selection. */
  lemma CanadianTitle()
    ensures Title("canadian") == "Canadian"
  {
    var t := Title("canadian");
    assert forall i :: 1 <= i < |t| ==> t[i] == "canadian"[i];
  }

  /** The title-cased `swiss` selection. */
  lemma SwissTitle()
    ensures Title("swiss") == "Swiss"
  {
    var t := Title("swiss");
    assert forall i :: 1 <= i < |t| ==> t[i] == "swiss"[i];
  }

  // The directory-name prefix the path pattern
  // `^.*/{selection.title()}.*/.*/.*/(.*)/(.*)_Ch(\d+)\.ome\.tif$` requires of a
  // matching file name, right after a `/`.
  function CountryDirectory(c: Config): (d: string)
    ensures c.selection == "canadian" ==> d == "Canadian"
    ensures c.selection == "swiss" ==> d == "Swiss"
  {
    CanadianTitle();
    SwissTitle();
    var t := Title(c.selection);
    t
  }

  /**
   * The groups of a match of the path pattern against an entry's file name: the
   * morphology directory, the cell's base name and the channel number.
   */
  datatype Groups = Groups(morphology: string, basename: string, channel: string)

  /** An archive entry: its file name, the match against it (None when it does not match), its decoded image. */
  datatype Entry<P> = Entry(filename: string, groups: Option<Groups>, image: P)

  /** A blood-quality example: the cell's channel images, and the file name and morphology of its last entry. */
  datatype Record<P> = Record(channels: map<string, P>, filename: string, morphology: string)

  /** The morphologies the generator skips. */
  predicate Excluded(morphology: string) {
    morphology == "Side" || morphology == "Undecidable"
  }

  /** The pending map `d`: base name to the channel images of that cell seen so far. */
  type Pending<P> = map<string, map<string, P>>

  /** Every pending cell has one or two channels: a third would have completed it. */
  ghost predicate PendingValid<P>(d: Pending<P>) {
    forall b :: b in d ==> 1 <= |d[b]| <= 2
  }

  /** The channels seen for base name `b`: its pending group, or none (`defaultdict(dict)`). */
  function GroupOf<P>(d: Pending<P>, b: string): map<string, P> {
    if b in d then d[b] else map[]
  }

  /** The pending map after one entry, and the record that entry yields, if any. */
  datatype StepResult<P> = StepResult(pending: Pending<P>, emitted: Option<Record<P>>)

  /**
   * One iteration of the loop: an entry that does not match, or has an excluded
   * morphology, changes nothing; otherwise `d[basename][channel] = image`, and if
   * the cell now has three channels it is yielded and popped.
   */
  function Step<P>(d: Pending<P>, e: Entry<P>): StepResult<P> {
    if e.groups.None? || Excluded(e.groups.value.morphology) then StepResult(d, None)
    else
      var g := e.groups.value;
      var group := GroupOf(d, g.basename)[g.channel := e.image];
      if |group| == 3 then StepResult(d - {g.basename}, Some(Record(group, e.filename, g.morphology)))
      else StepResult(d[g.basename := group], None)
  }

  /** An entry that does not match, or has an excluded morphology, leaves the pending map as it is and yields nothing. */
  lemma StepSkips<P>(d: Pending<P>, e: Entry<P>)
    requires e.groups.None? || Excluded(e.groups.value.morphology)
    ensures Step(d, e) == StepResult(d, None)
  {
  }

  /** An entry changes only the pending group of its own base name. */
  lemma StepFrame<P>(d: Pending<P>, e: Entry<P>, b: string)
    requires e.groups.None? || b != e.groups.value.basename
    ensures b in Step(d, e).pending <==> b in d
    ensures b in d ==> Step(d, e).pending[b] == d[b]
  {
  }

  /**
   * An entry of a cell that completes no cell is stored under its channel, over any
   * image of that channel seen before; a channel seen before does not grow its cell.
   */
  lemma StepStores<P>(d: Pending<P>, e: Entry<P>)
    requires PendingValid(d)
    requires e.groups.Some? && !Excluded(e.groups.value.morphology)
    requires Step(d, e).emitted.None?
    ensures var g := e.groups.value;
      && g.basename in Step(d, e).pending
      && Step(d, e).pending[g.basename] == GroupOf(d, g.basename)[g.channel := e.image]
      && (g.channel in GroupOf(d, g.basename) ==> Step(d, e).pending[g.basename].Keys == d[g.basename].Keys)
  {
  }

  /** A channel seen before for a pending cell overwrites that channel's image and completes nothing. */
  lemma {:induction false} StepOverwrites<P>(d: Pending<P>, e: Entry<P>)
    requires PendingValid(d)
    requires e.groups.Some? && !Excluded(e.groups.value.morphology)
    requires e.groups.value.basename in d && e.groups.value.channel in d[e.groups.value.basename]
    ensures Step(d, e).emitted.None?
    ensures |Step(d, e).pending[e.groups.value.basename]| == |d[e.groups.value.basename]|
  {
    var g := e.groups.value;
    assert d[g.basename][g.channel := e.image].Keys == d[g.basename].Keys;
  }

  /**
   * With a valid pending map, an entry yields a record exactly when it brings a
   * third distinct channel to a cell with two; the record holds those three
   * channels and the entry's file name and morphology, and the cell is no longer pending.
   */
  lemma {:induction false} StepEmits<P>(d: Pending<P>, e: Entry<P>)
    requires PendingValid(d)
    ensures Step(d, e).emitted.Some? <==>
      && e.groups.Some? && !Excluded(e.groups.value.morphology)
      && e.groups.value.basename in d
      && |d[e.groups.value.basename]| == 2
      && e.groups.value.channel !in d[e.groups.value.basename]
    ensures Step(d, e).emitted.Some? ==>
      var g := e.groups.value;
      var r := Step(d, e).emitted.value;
      && |r.channels| == 3
      && r.channels == d[g.basename][g.channel := e.image]
      && r.filename == e.filename && r.morphology == g.morphology
      && g.basename !in Step(d, e).pending
  {
    if e.groups.Some? && !Excluded(e.groups.value.morphology) {
      var g := e.groups.value;
      var prior := GroupOf(d, g.basename);
      var group := prior[g.channel := e.image];
      if g.channel in prior {
        assert group.Keys == prior.Keys;
      } else {
        assert group.Keys == prior.Keys + {g.channel};
      }
    }
  }

  /** One step keeps every pending cell at one or two channels. */
  lemma {:induction false} StepKeepsValid<P>(d: Pending<P>, e: Entry<P>)
    requires PendingValid(d)
    ensures PendingValid(Step(d, e).pending)
  {
    if e.groups.Some? && !Excluded(e.groups.value.morphology) {
      var g := e.groups.value;
      var prior := GroupOf(d, g.basename);
      var group := prior[g.channel := e.image];
      if g.channel in prior {
        assert group.Keys == prior.Keys;
      } else {
        assert group.Keys == prior.Keys + {g.channel};
      }
    }
  }

  /** The record an entry yields, as the (empty or one-element) sequence of them. */
  function Yielded<P>(emitted: Option<Record<P>>): (rs: seq<Record<P>>)
    ensures |rs| == if emitted.Some? then 1 else 0
    ensures emitted.Some? ==> rs[0] == emitted.value
  {
    if emitted.Some? then [emitted.value] else []
  }

  /** The records a pass yields and the pending map it ends with. */
  datatype RunResult<P> = RunResult(records: seq<Record<P>>, pending: Pending<P>)

  /** The loop of `_generate_examples` from pending map `d` over `entries`; nothing is flushed after it. */
  function Run<P>(d: Pending<P>, entries: seq<Entry<P>>): RunResult<P>
    decreases |entries|
  {
    if entries == [] then RunResult([], d)
    else
      var s := Step(d, entries[0]);
      var rest := Run(s.pending, entries[1..]);
      RunResult(Yielded(s.emitted) + rest.records, rest.pending)
  }

  /** A pass keeps the pending map valid, and every record it yields has three channels. */
  lemma {:induction false} RunKeepsValid<P>(d: Pending<P>, entries: seq<Entry<P>>)
    requires PendingValid(d)
    ensures PendingValid(Run(d, entries).pending)
    ensures forall r :: r in Run(d, entries).records ==> |r.channels| == 3
    decreases |entries|
  {
    if entries != [] {
      StepKeepsValid(d, entries[0]);
      StepEmits(d, entries[0]);
      RunKeepsValid(Step(d, entries[0]).pending, entries[1..]);
    }
  }

  /** Entry `e` is a kept entry of the cell with base name `b`. */
  predicate KeptFor<P>(e: Entry<P>, b: string) {
    e.groups.Some? && !Excluded(e.groups.value.morphology) && e.groups.value.basename == b
  }

  /** The channels that the kept entries of `entries` bring to base name `b`, and nothing else. */
  function ChannelsFor<P>(entries: seq<Entry<P>>, b: string): (cs: set<string>)
    ensures forall i :: 0 <= i < |entries| && KeptFor(entries[i], b) ==> entries[i].groups.value.channel in cs
    ensures forall c :: c in cs ==>
      exists i :: 0 <= i < |entries| && KeptFor(entries[i], b) && entries[i].groups.value.channel == c
    decreases |entries|
  {
    if entries == [] then {}
    else
      var e := entries[0];
      var here := if KeptFor(e, b) then {e.groups.value.channel} else {};
      var rest := ChannelsFor(entries[1..], b);
      assert forall i :: 0 < i < |entries| ==> entries[i] == entries[1..][i - 1];
      assert forall c :: c in rest ==>
        exists i :: 0 <= i < |entries| && KeptFor(entries[i], b) && entries[i].groups.value.channel == c by {
        forall c | c in rest
          ensures exists i :: 0 <= i < |entries| && KeptFor(entries[i], b) && entries[i].groups.value.channel == c
        {
          var j :| 0 <= j < |entries[1..]| && KeptFor(entries[1..][j], b) && entries[1..][j].groups.value.channel == c;
          assert entries[j + 1] == entries[1..][j];
        }
      }
      here + rest
  }

  /** The first entry's channel, if it is kept for `b`, and the rest's channels are all channels of the stream. */
  lemma ChannelsForFirst<P>(entries: seq<Entry<P>>, b: string)
    requires entries != []
    ensures KeptFor(entries[0], b) ==> ChannelsFor(entries, b) == {entries[0].groups.value.channel} + ChannelsFor(entries[1..], b)
    ensures !KeptFor(entries[0], b) ==> ChannelsFor(entries, b) == ChannelsFor(entries[1..], b)
  {
  }

  /** The channels an entry can bring to the pending group of `b`: its own, and only when it is kept for `b`. */
  lemma StepGroupWithin<P>(d: Pending<P>, e: Entry<P>, b: string)
    ensures GroupOf(Step(d, e).pending, b).Keys <=
      GroupOf(d, b).Keys + (if KeptFor(e, b) then {e.groups.value.channel} else {})
  {
    if !KeptFor(e, b) {
      if e.groups.None? || b != e.groups.value.basename {
        StepFrame(d, e, b);
      } else {
        StepSkips(d, e);
      }
    }
  }

  /** An entry that yields a record brings its cell's channels, with its own, to three. */
  lemma StepEmitsThree<P>(d: Pending<P>, e: Entry<P>)
    requires Step(d, e).emitted.Some?
    ensures KeptFor(e, e.groups.value.basename)
    ensures |GroupOf(d, e.groups.value.basename).Keys + {e.groups.value.channel}| == 3
  {
    var g := e.groups.value;
    assert GroupOf(d, g.basename)[g.channel := e.image].Keys == GroupOf(d, g.basename).Keys + {g.channel};
  }

  /**
   * No flush: when no cell can reach three distinct channels from its pending
   * channels and those of the stream, the pass yields nothing, and whatever is
   * pending at the end is dropped.
   */
  lemma {:induction false} IncompleteCellsAreNeverYielded<P>(d: Pending<P>, entries: seq<Entry<P>>)
    requires forall b :: |GroupOf(d, b).Keys + ChannelsFor(entries, b)| < 3
    ensures Run(d, entries).records == []
    decreases |entries|
  {
    if entries != [] {
      var e := entries[0];
      var s := Step(d, e);
      forall b ensures |GroupOf(s.pending, b).Keys + ChannelsFor(entries[1..], b)| < 3 {
        StepGroupWithin(d, e, b);
        ChannelsForFirst(entries, b);
        SubsetCard(GroupOf(s.pending, b).Keys + ChannelsFor(entries[1..], b), GroupOf(d, b).Keys + ChannelsFor(entries, b));
      }
      if s.emitted.Some? {
        StepEmitsThree(d, e);
        var b := e.groups.value.basename;
        ChannelsForFirst(entries, b);
        SubsetCard(GroupOf(d, b).Keys + {e.groups.value.channel}, GroupOf(d, b).Keys + ChannelsFor(entries, b));
        assert false;
      }
      IncompleteCellsAreNeverYielded(s.pending, entries[1..]);
    }
  }

  /** A pass over a non-empty stream is the first entry's step, then the pass over the rest. */
  lemma RunCons<P>(d: Pending<P>, entries: seq<Entry<P>>)
    requires entries != []
    ensures var s := Step(d, entries[0]);
      && Run(d, entries).records == Yielded(s.emitted) + Run(s.pending, entries[1..]).records
      && Run(d, entries).pending == Run(s.pending, entries[1..]).pending
  {
  }

  /** The same, for a stream `a + b` whose first part is non-empty. */
  lemma RunConsAppend<P>(d: Pending<P>, a: seq<Entry<P>>, b: seq<Entry<P>>)
    requires a != []
    ensures var s := Step(d, a[0]);
      && Run(d, a + b).records == Yielded(s.emitted) + Run(s.pending, a[1..] + b).records
      && Run(d, a + b).pending == Run(s.pending, a[1..] + b).pending
  {
    var ab := a + b;
    assert ab[0] == a[0];
    assert ab[1..] == a[1..] + b;
    RunCons(d, ab);
  }

  /** A kept entry of cell `b` that leaves it below three channels adds its channel to `b`'s pending group. */
  lemma StepAddsChannel<P>(d: Pending<P>, e: Entry<P>, b: string)
    requires KeptFor(e, b)
    requires |GroupOf(d, b).Keys + {e.groups.value.channel}| < 3
    ensures GroupOf(Step(d, e).pending, b).Keys == GroupOf(d, b).Keys + {e.groups.value.channel}
  {
    var group := GroupOf(d, b)[e.groups.value.channel := e.image];
    assert group.Keys == GroupOf(d, b).Keys + {e.groups.value.channel};
    assert Step(d, e).pending == d[b := group];
  }

  /** An entry that is not a kept entry of cell `b` leaves `b`'s pending group as it is. */
  lemma StepKeepsGroup<P>(d: Pending<P>, e: Entry<P>, b: string)
    requires !KeptFor(e, b)
    ensures GroupOf(Step(d, e).pending, b) == GroupOf(d, b)
  {
    if e.groups.None? || b != e.groups.value.basename {
      StepFrame(d, e, b);
    } else {
      StepSkips(d, e);
    }
  }

  /** A set of fewer than three channels stays below three without the rest of the stream's channels. */
  lemma UnionBelowThree(prior: set<string>, c: string, rest: set<string>)
    requires |prior + ({c} + rest)| < 3
    ensures |prior + {c}| < 3
  {
    SubsetCard(prior + {c}, prior + ({c} + rest));
  }

  /**
   * One step of a cell that cannot reach three channels, over any sets `rest` and
   * `all` of channels that the entry extends as `ChannelsFor` does.
   */
  lemma StepCollectsInto<P>(d: Pending<P>, e: Entry<P>, b: string, rest: set<string>, all: set<string>)
    requires KeptFor(e, b) ==> all == {e.groups.value.channel} + rest
    requires !KeptFor(e, b) ==> all == rest
    requires |GroupOf(d, b).Keys + all| < 3
    ensures GroupOf(Step(d, e).pending, b).Keys + rest == GroupOf(d, b).Keys + all
  {
    if KeptFor(e, b) {
      UnionBelowThree(GroupOf(d, b).Keys, e.groups.value.channel, rest);
      StepAddsChannel(d, e, b);
    } else {
      StepKeepsGroup(d, e, b);
    }
  }

  /** One step of a cell that cannot reach three channels: its group and the rest's channels are all its channels. */
  lemma StepCollects<P>(d: Pending<P>, entries: seq<Entry<P>>, b: string)
    requires entries != []
    requires |GroupOf(d, b).Keys + ChannelsFor(entries, b)| < 3
    ensures GroupOf(Step(d, entries[0]).pending, b).Keys + ChannelsFor(entries[1..], b) ==
      GroupOf(d, b).Keys + ChannelsFor(entries, b)
  {
    ChannelsForFirst(entries, b);
    StepCollectsInto(d, entries[0], b, ChannelsFor(entries[1..], b), ChannelsFor(entries, b));
  }

  /**
   * While a cell cannot reach three distinct channels, its pending group collects
   * exactly the channels it had and those of its kept entries in the stream.
   */
  lemma {:induction false} RunCollects<P>(d: Pending<P>, entries: seq<Entry<P>>, b: string)
    requires |GroupOf(d, b).Keys + ChannelsFor(entries, b)| < 3
    ensures GroupOf(Run(d, entries).pending, b).Keys == GroupOf(d, b).Keys + ChannelsFor(entries, b)
    decreases |entries|
  {
    if entries != [] {
      StepCollects(d, entries, b);
      RunCons(d, entries);
      RunCollects(Step(d, entries[0]).pending, entries[1..], b);
    }
  }

  /** A pass over two streams in a row is the pass over the second from where the first left the pending map. */
  lemma {:induction false} RunConcat<P>(d: Pending<P>, a: seq<Entry<P>>, b: seq<Entry<P>>)
    ensures Run(d, a + b).records == Run(d, a).records + Run(Run(d, a).pending, b).records
    ensures Run(d, a + b).pending == Run(Run(d, a).pending, b).pending
    decreases |a|
  {
    if a == [] {
      assert a + b == b;
    } else {
      var s := Step(d, a[0]);
      var p, y := s.pending, Yielded(s.emitted);
      RunConcat(p, a[1..], b);
      RunConsAppend(d, a, b);
      RunCons(d, a);
      var q1 := Run(p, a[1..]).pending;
      assert Run(d, a).pending == q1;
      SeqAssoc(y, Run(p, a[1..]).records, Run(q1, b).records);
    }
  }

  /** A pass over one entry is one step. */
  lemma RunSingle<P>(d: Pending<P>, e: Entry<P>)
    ensures Run(d, [e]) == RunResult(Yielded(Step(d, e).emitted), Step(d, e).pending)
  {
    assert [e][1..] == [];
  }

  /** A stream with no kept entry of cell `b` leaves that cell's pending group as it was. */
  lemma {:induction false} RunKeepsOtherCell<P>(d: Pending<P>, xs: seq<Entry<P>>, b: string)
    requires forall i :: 0 <= i < |xs| ==> !KeptFor(xs[i], b)
    ensures b in Run(d, xs).pending <==> b in d
    ensures GroupOf(Run(d, xs).pending, b) == GroupOf(d, b)
    decreases |xs|
  {
    if xs != [] {
      assert !KeptFor(xs[0], b);
      assert forall i :: 0 <= i < |xs[1..]| ==> xs[1..][i] == xs[i + 1];
      RunKeepsOtherCell(Step(d, xs[0]).pending, xs[1..], b);
    }
  }

  /**
   * A kept entry of cell `b` that does not complete it, followed by entries of other
   * cells, leaves `b` pending with that entry's channel added.
   */
  lemma CellGrowsBy<P>(d: Pending<P>, b: string, e: Entry<P>, xs: seq<Entry<P>>)
    requires KeptFor(e, b)
    requires |GroupOf(d, b)[e.groups.value.channel := e.image]| < 3
    requires forall i :: 0 <= i < |xs| ==> !KeptFor(xs[i], b)
    ensures b in Run(d, [e] + xs).pending
    ensures GroupOf(Run(d, [e] + xs).pending, b) == GroupOf(d, b)[e.groups.value.channel := e.image]
  {
    RunConcat(d, [e], xs);
    RunSingle(d, e);
    var q := Step(d, e).pending;
    assert GroupOf(q, b) == GroupOf(d, b)[e.groups.value.channel := e.image];
    RunKeepsOtherCell(q, xs, b);
  }

  /**
   * Each cell is yielded once, when its third distinct channel arrives, however the
   * entries of other cells are interleaved with its own: after its first two
   * channels (and any entries of other cells) it is pending with exactly those two,
   * the third yields exactly one record with the three channels and the third
   * entry's file name and morphology, and the cell is no longer pending.
   */
  lemma {:induction false} CellYieldedWhenThirdChannelArrives<P>(
    d: Pending<P>, b: string, e1: Entry<P>, xs: seq<Entry<P>>, e2: Entry<P>, ys: seq<Entry<P>>, e3: Entry<P>)
    requires b !in d
    requires KeptFor(e1, b) && KeptFor(e2, b) && KeptFor(e3, b)
    requires e1.groups.value.channel != e2.groups.value.channel
    requires e3.groups.value.channel != e1.groups.value.channel && e3.groups.value.channel != e2.groups.value.channel
    requires forall i :: 0 <= i < |xs| ==> !KeptFor(xs[i], b)
    requires forall i :: 0 <= i < |ys| ==> !KeptFor(ys[i], b)
    ensures var c1, c2, c3 := e1.groups.value.channel, e2.groups.value.channel, e3.groups.value.channel;
      var prefix := [e1] + xs + [e2] + ys;
      var r := Record(map[c1 := e1.image, c2 := e2.image, c3 := e3.image], e3.filename, e3.groups.value.morphology);
      && GroupOf(Run(d, prefix).pending, b) == map[c1 := e1.image, c2 := e2.image]
      && Run(d, prefix + [e3]).records == Run(d, prefix).records + [r]
      && b !in Run(d, prefix + [e3]).pending
  {
    var c1, c2, c3 := e1.groups.value.channel, e2.groups.value.channel, e3.groups.value.channel;
    var first := [e1] + xs;
    var prefix := [e1] + xs + [e2] + ys;
    assert prefix == first + ([e2] + ys);
    assert GroupOf(d, b)[c1 := e1.image] == map[c1 := e1.image];
    CellGrowsBy(d, b, e1, xs);
    var q2 := Run(d, first).pending;
    assert map[c1 := e1.image][c2 := e2.image].Keys == {c1, c2};
    CellGrowsBy(q2, b, e2, ys);
    RunConcat(d, first, [e2] + ys);
    var q4 := Run(d, prefix).pending;
    assert GroupOf(q4, b) == map[c1 := e1.image, c2 := e2.image];
    RunConcat(d, prefix, [e3]);
    RunSingle(q4, e3);
    var group := map[c1 := e1.image, c2 := e2.image, c3 := e3.image];
    assert GroupOf(q4, b)[c3 := e3.image] == group;
    assert group.Keys == {c1, c2, c3};
    assert Step(q4, e3) == StepResult(q4 - {b}, Some(Record(group, e3.filename, e3.groups.value.morphology)));
  }

  /** Concatenation is associative (stated on its own, it keeps `RunConcat` cheap). */
  lemma SeqAssoc<T>(x: seq<T>, y: seq<T>, z: seq<T>)
    ensures x + (y + z) == (x + y) + z
  {
  }

  /** A subset is no larger than its superset. */
  lemma {:induction false} SubsetCard<T>(a: set<T>, b: set<T>)
    requires a <= b
    ensures |a| <= |b|
    decreases |b|
  {
    if a != {} {
      var x :| x in a;
      SubsetCard(a - {x}, b - {x});
    }
  }

  /**
   * One iteration of the generator loop: if the records so far followed by the pass
   * from pending map `d` over `entries[i..]` make up `total`, then so do the records
   * with the step's yield added, followed by the pass from the step's pending map.
   */
  lemma RunAdvance<P>(total: seq<Record<P>>, records: seq<Record<P>>, d: Pending<P>, entries: seq<Entry<P>>, i: int)
    requires 0 <= i < |entries|
    requires records + Run(d, entries[i..]).records == total
    ensures var s := Step(d, entries[i]);
      (records + Yielded(s.emitted)) + Run(s.pending, entries[i + 1..]).records == total
  {
    assert entries[i..][1..] == entries[i + 1..];
  }

  /**
   * The pending map of `_generate_examples` (`d = collections.defaultdict(dict)`),
   * updated in place entry by entry.
   */
  class Grouper<P> {
    var pending: Pending<P>

    ghost predicate Valid()
      reads this
    {
      PendingValid(pending)
    }

    /** An empty pending map. */
    constructor()
      ensures pending == map[]
      ensures Valid()
    {
      pending := map[];
    }

    /** Processes one entry: `d[basename][channel] = image`, and yields and pops a cell that has three channels. */
    method Add(e: Entry<P>) returns (emitted: Option<Record<P>>)
      requires Valid()
      modifies this
      ensures Valid()
      ensures pending == Step(old(pending), e).pending
      ensures emitted == Step(old(pending), e).emitted
    {
      StepKeepsValid(pending, e);
      ghost var d := pending;
      emitted := None;
      if e.groups.Some? && !Excluded(e.groups.value.morphology) {
        var g := e.groups.value;
        var group := if g.basename in pending then pending[g.basename] else map[];
        group := group[g.channel := e.image];
        assert group == GroupOf(d, g.basename)[g.channel := e.image];
        pending := pending[g.basename := group];
        if |group| == 3 {
          pending := pending - {g.basename};
          assert pending == d - {g.basename};
          emitted := Some(Record(group, e.filename, g.morphology));
          assert Step(d, e) == StepResult(pending, emitted);
        } else {
          assert Step(d, e) == StepResult(pending, emitted);
        }
      } else {
        assert Step(d, e) == StepResult(d, None);
      }
    }
  }

  /** `_generate_examples`: one grouper over the whole archive; a cell is yielded when its third channel arrives. */
  method GenerateExamples<P>(entries: seq<Entry<P>>) returns (records: seq<Record<P>>)
    ensures records == Run(map[], entries).records
    ensures forall r :: r in records ==> |r.channels| == 3
  {
    var grouper := new Grouper<P>();
    records := [];
    ghost var total := Run(map[], entries).records;
    var i := 0;
    while i < |entries|
      invariant 0 <= i <= |entries|
      invariant grouper.Valid()
      invariant records + Run(grouper.pending, entries[i..]).records == total
    {
      RunAdvance(total, records, grouper.pending, entries, i);
      var emitted := grouper.Add(entries[i]);
      records := records + Yielded(emitted);
      i := i + 1;
    }
    RunKeepsValid(map[], entries);
  }
}
