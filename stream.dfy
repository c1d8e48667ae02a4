/**
 * Example generation as a fold over the archive's entries, in stream order.
 * Each entry has one of three outcomes: it is skipped (`continue`), it yields one
 * record (`yield`), or it raises, which ends the pass. What a pass produces is the
 * records yielded before the first raise, together with that error if there was one.
 */
module Stream {
  import opened Wrappers

  /** What one entry does to the pass. */
  datatype Outcome<+R, +E> = Skip | Emit(record: R) | Fail(error: E)

  /** The records a pass yields, in order, and the error that ended it, if any. */
  datatype Generated<+R, +E> = Generated(records: seq<R>, failure: Option<E>)

  /** The records `acc`, yielded before the pass `g` goes on. */
  function Prefixed<R, E>(acc: seq<R>, g: Generated<R, E>): (r: Generated<R, E>)
    ensures r.failure == g.failure && |r.records| == |acc| + |g.records|
  {
    Generated(acc + g.records, g.failure)
  }

  /** A generation pass over `entries`: the loop of `_generate_examples`. */
  function Run<T, R, E>(step: T -> Outcome<R, E>, entries: seq<T>): (g: Generated<R, E>)
    ensures |g.records| <= |entries|
    ensures g.failure.None? ==> forall i :: 0 <= i < |entries| ==> !step(entries[i]).Fail?
    decreases |entries|
  {
    if entries == [] then Generated([], None)
    else
      match step(entries[0])
      case Skip => Run(step, entries[1..])
      case Emit(r) => Prefixed([r], Run(step, entries[1..]))
      case Fail(e) => Generated([], Some(e))
  }

  /** The position of the first entry that raises, or the number of entries when none does. */
  function FirstFailure<T, R, E>(step: T -> Outcome<R, E>, entries: seq<T>): (k: nat)
    ensures k <= |entries|
    ensures forall j :: 0 <= j < k ==> !step(entries[j]).Fail?
    ensures k < |entries| ==> step(entries[k]).Fail?
    decreases |entries|
  {
    if entries == [] || step(entries[0]).Fail? then 0
    else
      var k := FirstFailure(step, entries[1..]);
      assert forall j :: 1 <= j < k + 1 ==> entries[j] == entries[1..][j - 1];
      k + 1
  }

  /** The records of the entries that yield one, in order: a filter over the stream. */
  function Emitted<T, R, E>(step: T -> Outcome<R, E>, entries: seq<T>): seq<R>
    decreases |entries|
  {
    if entries == [] then []
    else (if step(entries[0]).Emit? then [step(entries[0]).record] else []) + Emitted(step, entries[1..])
  }

  /**
   * A pass yields exactly the records of the yielding entries before the first
   * entry that raises, and it ends with that entry's error.
   */
  lemma {:induction false} RunIsEmittedBeforeFirstFailure<T, R, E>(step: T -> Outcome<R, E>, entries: seq<T>)
    ensures var k := FirstFailure(step, entries);
      && Run(step, entries).records == Emitted(step, entries[..k])
      && Run(step, entries).failure == (if k < |entries| then Some(step(entries[k]).error) else None)
    decreases |entries|
  {
    if entries != [] && !step(entries[0]).Fail? {
      var k := FirstFailure(step, entries[1..]);
      RunIsEmittedBeforeFirstFailure(step, entries[1..]);
      assert entries[..k + 1][1..] == entries[1..][..k];
      assert k < |entries| - 1 ==> entries[k + 1] == entries[1..][k];
    }
  }

  /**
   * A pass over two streams in a row is the pass over the first, continued by the
   * pass over the second unless the first one raised.
   */
  lemma {:induction false} RunAppend<T, R, E>(step: T -> Outcome<R, E>, a: seq<T>, b: seq<T>)
    ensures Run(step, a + b) ==
      if Run(step, a).failure.Some? then Run(step, a) else Prefixed(Run(step, a).records, Run(step, b))
    decreases |a|
  {
    if a == [] {
      assert a + b == b;
    } else {
      assert (a + b)[1..] == a[1..] + b;
      RunAppend(step, a[1..], b);
    }
  }

  /** Every record of a pass is the record that some entry of the stream yields. */
  lemma {:induction false} RunRecordsAreYielded<T, R, E>(step: T -> Outcome<R, E>, entries: seq<T>)
    ensures forall r :: r in Run(step, entries).records ==>
      exists i :: 0 <= i < |entries| && step(entries[i]) == Emit(r)
    decreases |entries|
  {
    if entries != [] {
      RunRecordsAreYielded(step, entries[1..]);
      forall r | r in Run(step, entries).records
        ensures exists i :: 0 <= i < |entries| && step(entries[i]) == Emit(r)
      {
        if step(entries[0]) != Emit(r) {
          var i :| 0 <= i < |entries[1..]| && step(entries[1..][i]) == Emit(r);
          assert entries[i + 1] == entries[1..][i];
        }
      }
    }
  }

  /**
   * The generator loop: each entry's outcome is computed in turn, skipped entries
   * yield nothing, and the first entry that raises ends the loop with its error.
   */
  method Generate<T, R, E>(step: T -> Outcome<R, E>, entries: seq<T>) returns (g: Generated<R, E>)
    ensures g == Run(step, entries)
  {
    var records: seq<R> := [];
    var i := 0;
    while i < |entries|
      invariant 0 <= i <= |entries|
      invariant Prefixed(records, Run(step, entries[i..])) == Run(step, entries)
    {
      assert entries[i..][1..] == entries[i + 1..];
      match step(entries[i]) {
        case Skip =>
        case Emit(r) =>
          records := records + [r];
        case Fail(err) =>
          return Generated(records, Some(err));
      }
      i := i + 1;
    }
    g := Generated(records, None);
  }
}
