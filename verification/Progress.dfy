/** progressTracker: cumulative progress callbacks that only ever move forward. */
module Progress {
  import opened Basics

  /** Strictly increasing, and positive: what a caller's callback sees of `done`. */
  ghost predicate Increasing(calls: seq<nat>) {
    && (forall i :: 0 <= i < |calls| ==> calls[i] > 0)
    && (forall i, j :: 0 <= i < j < |calls| ==> calls[i] < calls[j])
  }

  /** The position the callback saw last. */
  function Last(calls: seq<nat>): nat { if calls == [] then 0 else calls[|calls| - 1] }

  /** The calls after a transfer has stood at the positions `marks`, one after another:
      only those beyond every earlier one are reported. */
  function Reported(calls: seq<nat>, marks: seq<nat>): seq<nat> {
    if marks == [] then calls
    else
      var before := Reported(calls, marks[..|marks| - 1]);
      var mark := marks[|marks| - 1];
      if mark > Last(before) then before + [mark] else before
  }

  lemma {:induction false} ReportedJoin(calls: seq<nat>, first: seq<nat>, more: seq<nat>)
    ensures Reported(calls, first + more) == Reported(Reported(calls, first), more)
    decreases |more|
  {
    if more == [] {
      assert first + more == first;
    } else {
      var n := |more| - 1;
      assert (first + more)[..|first| + n] == first + more[..n];
      ReportedJoin(calls, first, more[..n]);
    }
  }

  class ProgressTracker {
    var total: int
    var done: nat
    /** The values of `done` the callback was called with, oldest first. */
    ghost var calls: seq<nat>

    constructor (total: int)
      ensures Valid() && done == 0 && calls == [] && this.total == total
    {
      this.total, done, calls := total, 0, [];
    }

    ghost predicate Valid()
      reads this
    {
      Increasing(calls) && done == Last(calls)
    }

    method SetTotal(total: int)
      requires Valid()
      modifies this`total
      ensures Valid() && this.total == total
    {
      this.total := total;
    }

    /** n more bytes have moved. */
    method Add(n: int)
      requires Valid()
      modifies this`done, this`calls
      ensures Valid() && done == old(done) + Max(n, 0)
      ensures calls == if n > 0 then old(calls) + [done] else old(calls)
    {
      if n <= 0 { return; }
      done := done + n;
      calls := calls + [done];
    }

    /** The transfer stands at `pos`; a restarted one stays silent until it passes its predecessor. */
    method Set(pos: int)
      requires Valid()
      modifies this`done, this`calls
      ensures Valid() && done == Max(old(done), pos)
      ensures calls == if pos > old(done) then old(calls) + [done] else old(calls)
      ensures pos >= 0 ==> calls == Reported(old(calls), [pos])
    {
      assert pos >= 0 ==> [pos as nat][..0] == [];
      if pos <= done { return; }
      done := pos;
      calls := calls + [done];
    }
  }

  /** wireProgressTracker: deltas until stop, none after. */
  class WireTracker {
    var stopped: bool
    ghost var sum: nat

    constructor ()
      ensures !stopped && sum == 0
    {
      stopped, sum := false, 0;
    }

    method Add(delta: int)
      modifies this`sum
      ensures sum == if old(stopped) then old(sum) else old(sum) + Max(delta, 0)
    {
      if delta <= 0 { return; }
      if stopped { return; }
      sum := sum + delta;
    }

    method Stop()
      modifies this`stopped
      ensures stopped
    {
      stopped := true;
    }
  }
}
