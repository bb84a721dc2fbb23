/** Nothing blocks for ever, nothing runs for ever, and Close leaves nothing
    behind. "A fetch eventually returns" is the assumption that an enabled
    Succeed or Fail is taken, and the bound `fuel` on the steps of a fetch. */
module ParallelProgress {
  import opened Basics
  import opened ParallelPull
  import opened ParallelLedger
  import opened ParallelEffects
  import opened ParallelDelivery

  // ---------------------------------------------------------------- no send and no release blocks

  /** Whoever holds an item keeps the slots channel nonempty. */
  lemma HolderHasSlot(c: Config, s: State, p: Place, i: nat, b: Option<Buf>)
    requires Owned(c, s) && Holds(s, p, i, b)
    ensures s.books.slots > 0
  {
    var l :| Owns(c, s, l);
    assert i in l.loc;
  }

  /** The task channel has room whenever the dispatcher holds a task. */
  lemma TaskSendNeverBlocks(c: Config, s: State)
    requires Inv(c, s) && s.disp.Handing?
    ensures |s.tasks| < c.workers
  {
    var l :| Owns(c, s, l);
    var i := s.disp.i;
    assert Holds(s, AtDispatcher, i, None);
    forall j | 0 <= j < |s.tasks|
      ensures s.tasks[j] in l.loc.Keys - {i}
    {
      assert Holds(s, InTasks, s.tasks[j], None);
    }
    DistinctFits(s.tasks, l.loc.Keys - {i});
  }

  /** The result channel has room whenever a worker holds a result. */
  lemma ResultSendNeverBlocks(c: Config, s: State, w: nat)
    requires Inv(c, s) && w < |s.workers| && s.workers[w].Sending?
    ensures |s.results| < c.workers
  {
    var l :| Owns(c, s, l);
    var r := s.workers[w].r;
    assert GoodWorker(c, s.workers[w]);
    assert Holds(s, AtWorker(w), r.index, r.buf);
    var indices := seq(|s.results|, j requires 0 <= j < |s.results| => s.results[j].index);
    forall j | 0 <= j < |indices|
      ensures indices[j] in l.loc.Keys - {r.index}
    {
      var x := s.results[j];
      assert x in s.results;
      assert GoodResult(c, x);
      assert ResultIs(x, x.index, x.buf);
      assert Holds(s, InResults, x.index, x.buf);
    }
    DistinctFits(indices, l.loc.Keys - {r.index});
  }

  /** No buffer has two owners, and no owned buffer is in the reserve or with another pull. */
  lemma BuffersAreNotAliased(c: Config, s: State, p: Place, i: nat, q: Place, j: nat, b: Buf)
    requires Inv(c, s) && Holds(s, p, i, Some(b)) && Holds(s, q, j, Some(b))
    ensures p == q && i == j
    ensures b !in s.books.pool && b !in s.books.foreign
  {
    var l :| Owns(c, s, l);
    assert BufOf(l, i) == Some(b) && BufOf(l, j) == Some(b);
  }

  // ---------------------------------------------------------------- no deadlock

  /** Somebody waits for the pull: a Read is in flight, or Close or its drain runs. */
  predicate Busy(s: State) {
    !s.reader.Outside? || s.closer.Cancelling? || s.closer.Releasing? || s.drainer.Draining?
  }

  /** A reader that is not at the select can move. */
  lemma ReaderMoves(c: Config, s: State) returns (a: ReadAction)
    requires Inv(c, s) && !s.reader.Outside? && !s.reader.Selecting?
    ensures ReadEnabled(s, a)
  {
    match s.reader
    case Top(_) =>
      if s.sh.currentSlot { HolderHasSlot(c, s, InCurrent, s.sh.next - 1, s.sh.current); }
      a := Serve;
    case Looking(_) => a := LookPending;
    case Took(_, _) => a := CheckTaken;
    case Got(_, _) => a := CheckGot;
    case Comparing(_, _) => a := Compare;
    case Storing(_, _) => a := Store;
    case Refused(_, r) =>
      HolderHasSlot(c, s, AtReader, r.index, r.buf);
      a := if r.buf.Some? then OfferRefused else ReturnRefused;
    case Inspecting(_, _) => a := Inspect;
    case Adopting(_, _) => a := AdoptResult;
    case Dropping(r, _) =>
      if r.slot { HolderHasSlot(c, s, AtReader, r.index, r.buf); }
      a := if r.buf.Some? then OfferDropped else ReturnDropped;
    case Ending(_) => a := End;
  }

  /** Close can move until it has returned. */
  lemma CloserMoves(c: Config, s: State) returns (a: CloseAction)
    requires Inv(c, s) && (s.closer.Cancelling? || s.closer.Releasing?)
    ensures CloseEnabled(s, a)
  {
    if s.closer.Cancelling? {
      a := Cancel;
    } else if s.closer.hand.Some? {
      var r := s.closer.hand.value;
      HolderHasSlot(c, s, InCloserHand, r.index, r.buf);
      a := if r.buf.Some? then OfferPending else ReturnPending;
    } else if s.closer.left == map[] {
      a := StartDrain;
    } else {
      var i :| i in s.closer.left;
      a := PickPending(i);
    }
  }

  /** A worker that has not exited can move, unless it waits for a task that may still come. */
  lemma WorkerMoves(c: Config, s: State, w: nat) returns (a: WorkAction)
    requires Inv(c, s) && w < |s.workers| && !s.workers[w].Exited?
    requires s.workers[w].Idle? ==> s.tasks != [] || TasksClosed(s)
    ensures WorkEnabled(c, s, w, a)
  {
    assert GoodWorker(c, s.workers[w]);
    match s.workers[w]
    case Idle => a := if s.tasks != [] then Receive else Exit;
    case Fetching(_, _, _) => a := Fail;
    case Sending(_) =>
      ResultSendNeverBlocks(c, s, w);
      a := Publish;
    case Discarding(r) =>
      HolderHasSlot(c, s, AtWorker(w), r.index, r.buf);
      a := if r.buf.Some? then OfferDiscarded else ReturnDiscarded;
  }

  /** Every place that holds something is the pending map, the reader or Close,
      when the dispatcher waits for a slot and all workers are idle. */
  lemma IdleHolds(c: Config, s: State, p: Place, i: nat, b: Option<Buf>)
    requires s.disp.Granting? && s.tasks == [] && s.results == []
    requires forall w :: 0 <= w < |s.workers| ==> s.workers[w].Idle?
    requires s.reader.Selecting? && s.closer.NotCalled? && s.drainer.NotStarted? && !s.sh.currentSlot
    requires Holds(s, p, i, b)
    ensures i in s.sh.pending
  {}

  /** A dispatcher waiting for a slot gets one when everybody else has settled. */
  lemma SlotIsFree(c: Config, s: State)
    requires AllInv(c, s) && Healthy(s) && s.reader.Selecting? && s.results == []
    requires s.disp.Granting? && s.tasks == []
    requires forall w :: 0 <= w < |s.workers| ==> s.workers[w].Idle?
    ensures s.books.slots < c.workers
  {
    forall p, b
      ensures !Holds(s, p, s.sh.next, b)
    {
      if Holds(s, p, s.sh.next, b) { IdleHolds(c, s, p, s.sh.next, b); }
    }
    assert !Held(s, s.sh.next);
    WindowSize(c, s);
  }

  /** While the results are open and empty, the dispatcher or a worker can move. */
  lemma PipelineMoves(c: Config, s: State) returns (a: Action)
    requires AllInv(c, s) && s.results == [] && !s.disp.Finished?
    requires s.done || (Healthy(s) && s.reader.Selecting?)
    ensures Enabled(c, s, a) && !a.Outer?
  {
    if w :| 0 <= w < |s.workers| && !s.workers[w].Exited? && (s.workers[w].Idle? ==> s.tasks != [] || TasksClosed(s)) {
      var k := WorkerMoves(c, s, w);
      a := Work(w, k);
    } else if s.disp.Waiting? {
      a := Dispatch(CloseResults);
    } else {
      assert !s.workers[0].Exited? && s.tasks == [];
      match s.disp
      case Handing(_) => a := Dispatch(Hand);
      case Abandoning(i) =>
        HolderHasSlot(c, s, AtDispatcher, i, None);
        a := Dispatch(ReturnGrant);
      case Closing => a := Dispatch(CloseTasks);
      case Granting(_) =>
        if s.done {
          a := Dispatch(StopGranting);
        } else {
          SlotIsFree(c, s);
          a := Dispatch(Grant);
        }
    }
  }

  /** No reachable state in which somebody waits is stuck. */
  lemma SomebodyMoves(c: Config, s: State) returns (a: Action)
    requires AllInv(c, s) && Busy(s)
    ensures Enabled(c, s, a) && !a.Outer?
  {
    if s.closer.Cancelling? || s.closer.Releasing? {
      var k := CloserMoves(c, s);
      a := Close(k);
    } else if !s.reader.Outside? && !s.reader.Selecting? {
      var r := ReaderMoves(c, s);
      a := Read(r);
    } else if s.drainer.Draining? && s.drainer.hand.Some? {
      var r := s.drainer.hand.value;
      HolderHasSlot(c, s, AtDrainer, r.index, r.buf);
      a := Close(if r.buf.Some? then DrainOffer else DrainReturn);
    } else if s.results != [] {
      a := if s.reader.Selecting? then Read(SelectResult) else Close(DrainReceive);
    } else if s.disp.Finished? {
      a := if s.reader.Selecting? then Read(SelectClosed) else Close(DrainEnd);
    } else {
      a := PipelineMoves(c, s);
    }
  }

  /** Deadlock freedom of every run. */
  lemma NoDeadlock(c: Config, states: seq<State>, actions: seq<Action>, k: nat)
    requires IsRun(c, states, actions) && k < |states| && Busy(states[k])
    ensures exists a :: Enabled(c, states[k], a) && !a.Outer?
  {
    EveryStateOfEveryRun(c, states, actions, k);
    var a := SomebodyMoves(c, states[k]);
  }

  // ---------------------------------------------------------------- Close leaves nothing behind

  /** Close has returned, its drain has ended, and no Read is in flight. */
  predicate Settled(s: State) {
    s.closer.Returned? && s.drainer.Drained? && s.reader.Outside?
  }

  lemma SettledHoldsNothing(c: Config, s: State, p: Place, i: nat, b: Option<Buf>)
    requires Inv(c, s) && Settled(s)
    ensures !Holds(s, p, i, b)
  {
    assert s.workers[0].Exited?;
    assert p.AtWorker? && p.w < |s.workers| ==> s.workers[p.w].Exited?;
  }

  /** After Close: no slot is held, the channels and the pending map are empty,
      every worker has ended, and every buffer this pull acquired was either
      outgrown or offered back, once per acquisition. */
  lemma CloseLeavesNothing(c: Config, states: seq<State>, actions: seq<Action>, k: nat)
    requires IsRun(c, states, actions) && k < |states| && Settled(states[k])
    ensures var s := states[k];
      && s.books.slots == 0
      && s.tasks == [] && s.results == [] && s.sh.pending == map[] && s.sh.current == None
      && s.disp.Finished? && (forall w :: 0 <= w < |s.workers| ==> s.workers[w].Exited?)
      && s.books.acquired == s.books.outgrown + s.books.offered
  {
    EveryStateOfEveryRun(c, states, actions, k);
    var s := states[k];
    var l :| Owns(c, s, l);
    forall p, i, b
      ensures !Holds(s, p, i, b)
    {
      SettledHoldsNothing(c, s, p, i, b);
    }
    assert l.loc == map[];
    assert l.bufs == map[];
    assert s.workers[0].Exited?;
  }
}
