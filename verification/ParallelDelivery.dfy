/** The sliding window and in-order delivery of a parallel pull. Until the first
    error, cancellation or Close, the chunks that own a slot are exactly those
    granted and not yet consumed; what the reader returned is a prefix of the
    blob; and end of file means the whole blob unless the context is cancelled. */
module ParallelDelivery {
  import opened Basics
  import opened ParallelPull
  import opened ParallelLedger
  import opened ParallelEffects

  ghost predicate Held(s: State, i: nat) {
    exists p, b :: Holds(s, p, i, b)
  }

  /** No error, cancellation or Close has been noticed. */
  predicate Healthy(s: State) {
    && !s.done && !s.sh.closed && s.sh.err == None
    && !s.reader.Dropping? && !s.reader.Refused? && !s.reader.Ending?
  }

  /** The oldest chunk the reader has not given up. */
  function Oldest(s: State): int {
    if s.sh.currentSlot then s.sh.next - 1 else s.sh.next
  }

  /** In a healthy state the held chunks are exactly [Oldest, Granted). */
  ghost predicate Window(c: Config, s: State) {
    Healthy(s) ==> forall i: nat :: Held(s, i) <==> Oldest(s) <= i < Granted(c, s.disp)
  }

  /** Only a cancelled pull gives slots back without delivering. */
  predicate GivesBackOnlyWhenDone(s: State) {
    && (s.disp.Abandoning? ==> s.done)
    && (forall w :: 0 <= w < |s.workers| && s.workers[w].Discarding? ==> s.done)
  }

  /** Only Read itself and Close record errors, so Read never waits past one. */
  predicate WaitsWithoutError(s: State) {
    s.sh.err.Some? && !s.sh.closed ==> s.reader.Outside? || s.reader.Top?
  }

  /** The bytes of the blob in front of chunk i. */
  ghost function Before(c: Config, i: nat): (b: seq<Octet>)
    requires ValidConfig(c)
    ensures b <= c.blob
  {
    StartIncreases(c, i, i);
    c.blob[..StartOf(c, i)]
  }

  ghost predicate Delivered(c: Config, s: State)
    requires ValidConfig(c)
  {
    && s.sh.next <= Granted(c, s.disp)
    && s.sh.pos <= |s.sh.data|
    && s.delivered <= c.blob
    && (s.sh.err == None ==> s.delivered + s.sh.data[s.sh.pos..] == Before(c, s.sh.next))
    && (s.reader == Ending(Eof) && !s.done && s.sh.err == None ==> s.delivered == c.blob)
    && (s.sh.err == Some(Eof) && !s.done ==> s.delivered == c.blob)
    && (s.last == Some(Eof) && !s.done ==> s.delivered == c.blob)
  }

  lemma HeldIsLedger(s: State, l: Ledger)
    requires Places(s, l)
    ensures forall i :: Held(s, i) <==> i in l.loc
  {
    forall i | i in l.loc
      ensures Held(s, i)
    {
      assert Holds(s, l.loc[i], i, BufOf(l, i));
    }
  }

  lemma ReadHealthyBefore(c: Config, s: State, a: ReadAction)
    requires ReadEnabled(s, a) && Healthy(ReadStep(c, s, a))
    requires s.reader.Refused? ==> s.sh.closed
    ensures Healthy(s)
  {}

  lemma HealthyBefore(c: Config, s: State, a: Action)
    requires ValidConfig(c) && Enabled(c, s, a) && Healthy(Step(c, s, a))
    requires s.reader.Refused? ==> s.sh.closed
    ensures Healthy(s) && a != Outer(CallClose)
  {
    hide ReadStep, ReadEnabled;
    if a.Read? { ReadHealthyBefore(c, s, a.r); }
  }

  /** How an action of a healthy pull moves the window. */
  ghost predicate Slides(c: Config, s: State, s': State, ch: Change) {
    && !ch.Returns? && !ch.Leaves?
    && Granted(c, s'.disp) == Granted(c, s.disp) + (if ch.Acquires? then 1 else 0)
    && Oldest(s') == Oldest(s) + (if ch.GivesUp? then 1 else 0)
    && (ch.Acquires? ==> ch.i == Granted(c, s.disp))
    && (ch.GivesUp? ==> ch.i == Oldest(s))
  }

  lemma DispatchMovesWindow(c: Config, s: State, a: DispatchAction)
    requires ValidConfig(c) && QueueShape(c, s.disp, s.tasks, s.results) && DispatchEnabled(c, s, a)
    requires (s.disp.Abandoning? ==> s.done) && !s.done
    ensures Slides(c, s, DispatchStep(c, s, a), DispatchEffect(c, s, a))
  {}

  lemma WorkMovesWindow(c: Config, s: State, w: nat, a: WorkAction)
    requires ValidConfig(c) && WorkEnabled(c, s, w, a) && !s.workers[w].Discarding?
    ensures Slides(c, s, WorkStep(c, s, w, a), WorkEffect(c, s, w, a))
  {
    hide ChunkBytes, Tiles;
  }

  lemma ReadMovesWindow(c: Config, s: State, a: ReadAction)
    requires ValidConfig(c) && ReadEnabled(s, a) && CurrentShape(c, s.sh) && ReaderShape(c, s.reader, s.sh)
    requires Healthy(s) && Healthy(ReadStep(c, s, a))
    ensures Slides(c, s, ReadStep(c, s, a), ReadEffect(s, a))
  {
    hide Tiles;
  }

  lemma WindowMoves(c: Config, s: State, a: Action)
    requires ValidConfig(c) && Shape(c, s) && GivesBackOnlyWhenDone(s)
    requires Enabled(c, s, a) && Healthy(s) && Healthy(Step(c, s, a))
    ensures Slides(c, s, Step(c, s, a), Effect(c, s, a))
  {
    hide DispatchStep, WorkStep, ReadStep, DispatchEffect, WorkEffect, ReadEffect, ReadEnabled, DispatchEnabled;
    match a
    case Dispatch(d) => DispatchMovesWindow(c, s, d);
    case Work(w, k) => WorkMovesWindow(c, s, w, k);
    case Read(r) => ReadMovesWindow(c, s, r);
    case _ =>
  }

  /** What an action does to the set of held chunks. */
  ghost predicate HeldFollows(s: State, s': State, ch: Change) {
    forall i :: Held(s', i) <==> (Held(s, i) && !(ch.GivesUp? && ch.i == i)) || (ch.Acquires? && ch.i == i)
  }

  lemma HeldAfter(c: Config, s: State, s': State, ch: Change)
    requires ValidConfig(c) && PoolShape(c, s.books) && GoodMap(c, s.sh.pending)
    requires Owned(c, s) && Explains(c, s, s', ch) && !ch.Leaves? && !ch.Returns?
    ensures HeldFollows(s, s', ch)
  {
    var l :| Owns(c, s, l);
    ChangeKeepsOwns(c, s, s', ch, l);
    HeldIsLedger(s, l);
    Locate(c, s, s', ch, l);
    HeldIsLedger(s', Apply(l, ch));
  }

  lemma SlideWindow(c: Config, s: State, s': State, ch: Change)
    requires Window(c, s) && Healthy(s) && Slides(c, s, s', ch) && HeldFollows(s, s', ch)
    requires Oldest(s) >= 0 && Oldest(s) <= Granted(c, s.disp)
    ensures Window(c, s')
  {}

  lemma StepKeepsWindow(c: Config, s: State, a: Action)
    requires Inv(c, s) && GivesBackOnlyWhenDone(s) && Window(c, s) && Enabled(c, s, a)
    requires Oldest(s) <= Granted(c, s.disp)
    ensures Window(c, Step(c, s, a))
  {
    hide Step, Enabled, Effect, Explains;
    if Healthy(Step(c, s, a)) {
      HealthyBefore(c, s, a);
      WindowMoves(c, s, a);
      Explained(c, s, a);
      HeldAfter(c, s, Step(c, s, a), Effect(c, s, a));
      SlideWindow(c, s, Step(c, s, a), Effect(c, s, a));
    }
  }

  // ---------------------------------------------------------------- delivery

  /** Everything the theorems below rest on. */
  ghost predicate AllInv(c: Config, s: State) {
    && Inv(c, s)
    && GivesBackOnlyWhenDone(s)
    && WaitsWithoutError(s)
    && Window(c, s)
    && Delivered(c, s)
  }

  lemma StepKeepsGivesBack(c: Config, s: State, a: Action)
    requires ValidConfig(c) && GivesBackOnlyWhenDone(s) && Enabled(c, s, a)
    ensures GivesBackOnlyWhenDone(Step(c, s, a))
  {}

  lemma ReadKeepsWaits(c: Config, s: State, a: ReadAction)
    requires WaitsWithoutError(s) && ReadEnabled(s, a)
    ensures WaitsWithoutError(ReadStep(c, s, a))
  {}

  lemma StepKeepsWaits(c: Config, s: State, a: Action)
    requires ValidConfig(c) && WaitsWithoutError(s) && Enabled(c, s, a)
    ensures WaitsWithoutError(Step(c, s, a))
  {
    hide ReadStep, ReadEnabled;
    if a.Read? { ReadKeepsWaits(c, s, a.r); }
  }

  /** A chunk in the reader's hand was granted. */
  lemma HandIsGranted(c: Config, s: State)
    requires Owned(c, s) && s.reader.Adopting? && s.reader.r.slot
    ensures s.reader.r.index < Granted(c, s.disp)
  {
    var l :| Owns(c, s, l);
    assert Holds(s, AtReader, s.reader.r.index, s.reader.r.buf);
  }

  /** Chunk i continues the prefix in front of it. */
  lemma Extend(c: Config, i: nat)
    requires ValidConfig(c) && i < |c.plan|
    ensures Before(c, i) + ChunkBytes(c, i) == Before(c, i + 1)
    ensures Before(c, i) <= c.blob && Before(c, |c.plan|) == c.blob
  {
    StartIncreases(c, i, i + 1);
    StartIncreases(c, i + 1, |c.plan|);
    assert i + 1 < |c.plan| ==> c.plan[i + 1].start == c.plan[i].start + c.plan[i].want;
  }

  /** Once the results are closed and drained, only the pending map holds chunks
      for a waiting reader that nobody closed. */
  lemma OnlyPending(c: Config, s: State, p: Place, i: nat, b: Option<Buf>)
    requires ValidConfig(c) && Shape(c, s) && Healthy(s)
    requires s.reader.Selecting? && s.results == [] && ResultsClosed(s)
    requires Holds(s, p, i, b)
    ensures i in s.sh.pending
  {
    assert s.workers[0].Exited?;
  }

  /** When a healthy reader sees the results closed, it has consumed every chunk. */
  lemma ClosedMeansConsumed(c: Config, s: State)
    requires AllInv(c, s) && Healthy(s)
    requires s.reader.Selecting? && s.results == [] && ResultsClosed(s)
    ensures s.sh.next == |c.plan|
  {
    forall p, b
      ensures !Holds(s, p, s.sh.next, b)
    {
      if Holds(s, p, s.sh.next, b) { OnlyPending(c, s, p, s.sh.next, b); }
    }
    assert !Held(s, s.sh.next);
  }

  /** Copying n bytes out moves them from the rest to the delivered part. */
  lemma CopyOut(done: seq<Octet>, data: seq<Octet>, pos: nat, n: nat)
    requires pos + n <= |data|
    ensures (done + data[pos..pos + n]) + data[pos + n..] == done + data[pos..]
    ensures done + data[pos..pos + n] <= done + data[pos..]
  {
    assert data[pos..] == data[pos..pos + n] + data[pos + n..];
  }

  lemma ServeKeepsDelivered(c: Config, s: State)
    requires ValidConfig(c) && Delivered(c, s) && CurrentShape(c, s.sh) && ReadEnabled(s, Serve)
    ensures Delivered(c, ReadStep(c, s, Serve))
  {
    var sh := s.sh;
    if sh.err == None && !s.done {
      var n := if sh.pos < |sh.data| && s.reader.len > 0 then Min(s.reader.len, |sh.data| - sh.pos) else 0;
      CopyOut(s.delivered, sh.data, sh.pos, n);
      if sh.pos >= |sh.data| { assert sh.data[sh.pos..] == []; }
      if n == 0 { assert s.delivered + [] == s.delivered; }
    }
  }

  lemma AdoptKeepsDelivered(c: Config, s: State)
    requires ValidConfig(c) && Delivered(c, s) && CurrentShape(c, s.sh) && ReaderShape(c, s.reader, s.sh)
    requires ReadEnabled(s, AdoptResult)
    requires s.reader.r.slot ==> s.reader.r.index < Granted(c, s.disp)
    ensures Delivered(c, ReadStep(c, s, AdoptResult))
  {
    hide Tiles, ChunkBytes, StartOf, GoodMap;
    if !s.sh.closed && !s.done {
      Extend(c, s.sh.next);
      assert s.reader.r.data == ChunkBytes(c, s.sh.next);
      assert s.sh.err == None ==> s.delivered == Before(c, s.sh.next);
    }
  }

  lemma ClosedKeepsDelivered(c: Config, s: State)
    requires AllInv(c, s) && ReadEnabled(s, SelectClosed)
    ensures Delivered(c, ReadStep(c, s, SelectClosed))
  {
    if Healthy(s) {
      ClosedMeansConsumed(c, s);
      Extend(c, 0);
      assert s.sh.data[s.sh.pos..] == [];
      assert s.delivered == Before(c, |c.plan|);
    }
  }

  /** The other sections of Read move no bytes. */
  lemma QuietReadKeepsDelivered(c: Config, s: State, a: ReadAction)
    requires ValidConfig(c) && Delivered(c, s) && ReadEnabled(s, a)
    requires !a.Serve? && !a.AdoptResult? && !a.SelectClosed?
    requires s.reader.Inspecting? ==> s.reader.r.err != Some(Eof)
    requires s.reader.Dropping? ==> s.reader.e != Eof
    ensures Delivered(c, ReadStep(c, s, a))
  {}

  lemma DispatchKeepsDelivered(c: Config, s: State, a: DispatchAction)
    requires ValidConfig(c) && Delivered(c, s) && DispatchEnabled(c, s, a)
    requires QueueShape(c, s.disp, s.tasks, s.results)
    ensures Delivered(c, DispatchStep(c, s, a))
  {}

  lemma WorkKeepsDelivered(c: Config, s: State, w: nat, a: WorkAction)
    requires ValidConfig(c) && Delivered(c, s) && WorkEnabled(c, s, w, a)
    ensures Delivered(c, WorkStep(c, s, w, a))
  {
    hide ChunkBytes, Before, Tiles;
  }

  lemma CloseKeepsDelivered(c: Config, s: State, a: CloseAction)
    requires ValidConfig(c) && Delivered(c, s) && CloseEnabled(s, a)
    ensures Delivered(c, CloseStep(c, s, a))
  {
    hide ChunkBytes, Before, Tiles;
  }

  lemma OutsideKeepsDelivered(c: Config, s: State, a: OutsideAction)
    requires ValidConfig(c) && Delivered(c, s) && CurrentShape(c, s.sh) && OuterEnabled(s, a)
    ensures Delivered(c, OuterStep(c, s, a))
  {
    hide ChunkBytes, Before, Tiles;
  }

  /** What the sections of Read rest on. */
  lemma ReaderParts(c: Config, s: State)
    requires AllInv(c, s)
    ensures ValidConfig(c) && Delivered(c, s) && CurrentShape(c, s.sh) && ReaderShape(c, s.reader, s.sh)
    ensures s.reader.Inspecting? ==> s.reader.r.err != Some(Eof)
    ensures s.reader.Dropping? ==> s.reader.e != Eof
  {
    hide Delivered, Owned, Window;
  }

  lemma ReadKeepsDelivered(c: Config, s: State, a: ReadAction)
    requires AllInv(c, s) && ReadEnabled(s, a)
    ensures Delivered(c, ReadStep(c, s, a))
  {
    ReaderParts(c, s);
    hide AllInv, Delivered, ReadStep, CurrentShape, ReaderShape, ReadEnabled;
    if a.Serve? {
      ServeKeepsDelivered(c, s);
    } else if a.AdoptResult? {
      if s.reader.r.slot { HandIsGranted(c, s); }
      AdoptKeepsDelivered(c, s);
    } else if a.SelectClosed? {
      ClosedKeepsDelivered(c, s);
    } else {
      QuietReadKeepsDelivered(c, s, a);
    }
  }

  lemma StepKeepsDelivered(c: Config, s: State, a: Action)
    requires AllInv(c, s) && Enabled(c, s, a)
    ensures Delivered(c, Step(c, s, a))
  {
    match a
    case Read(r) => ReadKeepsDelivered(c, s, r);
    case Dispatch(d) => DispatchKeepsDelivered(c, s, d);
    case Work(w, k) => WorkKeepsDelivered(c, s, w, k);
    case Close(k) => CloseKeepsDelivered(c, s, k);
    case Outer(o) => OutsideKeepsDelivered(c, s, o);
  }

  lemma StepKeepsAll(c: Config, s: State, a: Action)
    requires AllInv(c, s) && Enabled(c, s, a)
    ensures AllInv(c, Step(c, s, a))
  {
    StepKeepsInv(c, s, a);
    StepKeepsGivesBack(c, s, a);
    StepKeepsWaits(c, s, a);
    StepKeepsWindow(c, s, a);
    StepKeepsDelivered(c, s, a);
  }

  lemma InitHasAll(c: Config, s: State)
    requires Init(c, s)
    ensures AllInv(c, s)
  {
    InitHasInv(c, s);
    assert c.plan[0].start == 0;
    assert Holds(s, AtDispatcher, 0, None);
    assert Held(s, 0);
  }

  /** Every state of every run satisfies the invariants. */
  lemma {:induction false} EveryStateOfEveryRun(c: Config, states: seq<State>, actions: seq<Action>, k: nat)
    requires IsRun(c, states, actions) && k < |states|
    ensures AllInv(c, states[k])
  {
    if k == 0 {
      InitHasAll(c, states[0]);
    } else {
      EveryStateOfEveryRun(c, states, actions, k - 1);
      StepKeepsAll(c, states[k - 1], actions[k - 1]);
    }
  }

  // ---------------------------------------------------------------- theorems

  /** The bytes returned so far are a prefix of the blob; end of file from a pull
      that is not cancelled means all of them. */
  lemma InOrderDelivery(c: Config, states: seq<State>, actions: seq<Action>, k: nat)
    requires IsRun(c, states, actions) && k < |states|
    ensures states[k].delivered <= c.blob
    ensures states[k].last == Some(Eof) ==> states[k].delivered == c.blob || states[k].done
  {
    EveryStateOfEveryRun(c, states, actions, k);
  }

  /** The held chunks of a healthy pull are exactly [Oldest, Granted), one slot
      each, and never more than the workers. */
  lemma ExactWindow(c: Config, states: seq<State>, actions: seq<Action>, k: nat)
    requires IsRun(c, states, actions) && k < |states| && Healthy(states[k])
    ensures var s := states[k];
      && (forall i: nat :: Held(s, i) <==> Oldest(s) <= i < Granted(c, s.disp))
      && Granted(c, s.disp) - Oldest(s) == s.books.slots <= c.workers
  {
    EveryStateOfEveryRun(c, states, actions, k);
    WindowSize(c, states[k]);
  }

  lemma WindowSize(c: Config, s: State)
    requires AllInv(c, s) && Healthy(s)
    ensures Granted(c, s.disp) - Oldest(s) == s.books.slots <= c.workers
  {
    var l :| Owns(c, s, l);
    HeldIsLedger(s, l);
    IntervalSize(l.loc, Oldest(s), Granted(c, s.disp));
  }

  // ---------------------------------------------------------------- end of file and cancellation

  /** Some run of the pull, cancelled or not, ends with a Read that reported end of
      file although the blob was not delivered. */
  ghost predicate EofMayLie(c: Config, cancelled: bool) {
    exists states, actions :: EndsEarly(c, states, actions, cancelled)
  }

  ghost predicate EndsEarly(c: Config, states: seq<State>, actions: seq<Action>, cancelled: bool) {
    && IsRun(c, states, actions)
    && var end := states[|states| - 1];
       end.last == Some(Eof) && end.delivered != c.blob && end.done == cancelled
  }

  /** From s, action a leads to t. */
  ghost predicate Leads(c: Config, s: State, a: Action, t: State) {
    ValidConfig(c) && Enabled(c, s, a) && t == Step(c, s, a)
  }

  const FRESH := Shared(false, None, 0, None, [], false, 0, map[])

  lemma CallReadLeads(c: Config, s: State, len: nat)
    requires ValidConfig(c) && s.reader.Outside?
    ensures Leads(c, s, Outer(CallRead(len)), s.(reader := Top(len)))
  {}

  lemma ServeLeads(c: Config, s: State)
    requires ValidConfig(c) && s.reader == Top(1) && s.sh == FRESH && !s.done
    ensures Leads(c, s, Read(Serve), s.(reader := Looking(1)))
  {}

  lemma LookLeads(c: Config, s: State)
    requires ValidConfig(c) && s.reader == Looking(1) && s.sh == FRESH
    ensures Leads(c, s, Read(LookPending), s.(reader := Selecting(1)))
  {}

  lemma CancelLeads(c: Config, s: State)
    requires ValidConfig(c)
    ensures Leads(c, s, Outer(CancelParent), s.(done := true))
  {}

  lemma AbandonLeads(c: Config, s: State)
    requires ValidConfig(c) && s.disp == Handing(0) && s.done
    ensures Leads(c, s, Dispatch(Abandon), s.(disp := Abandoning(0)))
  {}

  lemma ReturnLeads(c: Config, s: State)
    requires ValidConfig(c) && s.disp == Abandoning(0) && s.books.slots == 1
    ensures Leads(c, s, Dispatch(ReturnGrant), s.(disp := Closing, books := s.books.(slots := 0)))
  {}

  lemma CloseTasksLeads(c: Config, s: State)
    requires ValidConfig(c) && s.disp == Closing
    ensures Leads(c, s, Dispatch(CloseTasks), s.(disp := Waiting))
  {}

  lemma ExitLeads(c: Config, s: State, w: nat)
    requires ValidConfig(c) && w < |s.workers| && s.workers[w] == Idle && s.tasks == [] && s.disp == Waiting
    ensures Leads(c, s, Work(w, Exit), s.(workers := s.workers[w := Exited]))
  {}

  lemma CloseResultsLeads(c: Config, s: State)
    requires ValidConfig(c) && s.disp == Waiting && forall w :: 0 <= w < |s.workers| ==> s.workers[w] == Exited
    ensures Leads(c, s, Dispatch(CloseResults), s.(disp := Finished))
  {}

  lemma SelectClosedLeads(c: Config, s: State)
    requires ValidConfig(c) && s.reader == Selecting(1) && s.results == [] && s.disp == Finished
    ensures Leads(c, s, Read(SelectClosed), s.(reader := Ending(Eof)))
  {}

  lemma EndLeads(c: Config, s: State)
    requires ValidConfig(c) && s.reader == Ending(Eof) && s.sh == FRESH
    ensures Leads(c, s, Read(End), s.(reader := Outside, sh := FRESH.(err := Some(Eof)), last := Some(Eof)))
  {}

  /** The first `gone` workers have exited, the others wait for a task. */
  function Crew(c: Config, gone: nat): seq<Worker> {
    seq(c.workers, w => if w < gone then Exited else Idle)
  }

  /** A run of any pull: a Read waits, the context ends, the dispatcher gives up, the
      workers and the results end, and the Read picks the closed channel. */
  function Early(c: Config, k: nat): State {
    var s := State(false, [], Crew(c, 0), [], Handing(0), FRESH, Outside, NotCalled, NotStarted,
                   Books(1, {}, {}, 0, 0, 0, 0), [], None);
    var waits := s.(reader := Selecting(1), done := true);
    var spent := waits.(books := s.books.(slots := 0), disp := Waiting);
    var ended := spent.(workers := Crew(c, c.workers), disp := Finished);
    if k == 0 then s
    else if k == 1 then s.(reader := Top(1))
    else if k == 2 then s.(reader := Looking(1))
    else if k == 3 then s.(reader := Selecting(1))
    else if k == 4 then waits
    else if k == 5 then waits.(disp := Abandoning(0))
    else if k == 6 then spent.(disp := Closing)
    else if k <= 7 + c.workers then spent.(workers := Crew(c, k - 7))
    else if k == 8 + c.workers then ended
    else if k == 9 + c.workers then ended.(reader := Ending(Eof))
    else ended.(reader := Outside, sh := FRESH.(err := Some(Eof)), last := Some(Eof))
  }

  function EarlyAction(c: Config, k: nat): Action {
    if k == 0 then Outer(CallRead(1))
    else if k == 1 then Read(Serve)
    else if k == 2 then Read(LookPending)
    else if k == 3 then Outer(CancelParent)
    else if k == 4 then Dispatch(Abandon)
    else if k == 5 then Dispatch(ReturnGrant)
    else if k == 6 then Dispatch(CloseTasks)
    else if k < 7 + c.workers then Work(k - 7, Exit)
    else if k == 7 + c.workers then Dispatch(CloseResults)
    else if k == 8 + c.workers then Read(SelectClosed)
    else Read(End)
  }

  lemma EarlyReads(c: Config, k: nat)
    requires ValidConfig(c) && k < 4
    ensures Leads(c, Early(c, k), EarlyAction(c, k), Early(c, k + 1))
  {
    hide Leads;
    var s := Early(c, k);
    if k == 0 { CallReadLeads(c, s, 1); }
    if k == 1 { ServeLeads(c, s); }
    if k == 2 { LookLeads(c, s); }
    if k == 3 { CancelLeads(c, s); }
  }

  lemma EarlyGivesUp(c: Config, k: nat)
    requires ValidConfig(c) && 4 <= k < 7
    ensures Leads(c, Early(c, k), EarlyAction(c, k), Early(c, k + 1))
  {
    hide Leads;
    var s := Early(c, k);
    if k == 4 { AbandonLeads(c, s); }
    if k == 5 { ReturnLeads(c, s); }
    if k == 6 { CloseTasksLeads(c, s); }
  }

  lemma EarlyExits(c: Config, k: nat)
    requires ValidConfig(c) && 7 <= k < 7 + c.workers
    ensures Leads(c, Early(c, k), EarlyAction(c, k), Early(c, k + 1))
  {
    hide Leads;
    ExitLeads(c, Early(c, k), k - 7);
    assert Crew(c, k - 7)[k - 7 := Exited] == Crew(c, k - 6);
  }

  lemma EarlyEnds(c: Config, k: nat)
    requires ValidConfig(c) && 7 + c.workers <= k < 10 + c.workers
    ensures Leads(c, Early(c, k), EarlyAction(c, k), Early(c, k + 1))
  {
    hide Leads;
    var s := Early(c, k);
    if k == 7 + c.workers { CloseResultsLeads(c, s); }
    if k == 8 + c.workers { SelectClosedLeads(c, s); }
    if k == 9 + c.workers { EndLeads(c, s); }
  }

  lemma EarlyLeads(c: Config, k: nat)
    requires ValidConfig(c) && k < 10 + c.workers
    ensures Enabled(c, Early(c, k), EarlyAction(c, k))
            && Early(c, k + 1) == Step(c, Early(c, k), EarlyAction(c, k))
  {
    assert Leads(c, Early(c, k), EarlyAction(c, k), Early(c, k + 1)) by {
      hide Leads, Early, EarlyAction;
      if k < 4 {
        EarlyReads(c, k);
      } else if k < 7 {
        EarlyGivesUp(c, k);
      } else if k < 7 + c.workers {
        EarlyExits(c, k);
      } else {
        EarlyEnds(c, k);
      }
    }
    hide Early, EarlyAction, Enabled, Step;
  }

  /** Cancellation can turn into end of file, in every pull. */
  lemma CancelledPullMayEndEarly(c: Config)
    requires ValidConfig(c)
    ensures EofMayLie(c, true)
  {
    var n := 10 + c.workers;
    var states := seq(n + 1, k requires 0 <= k => Early(c, k));
    var actions := seq(n, k requires 0 <= k => EarlyAction(c, k));
    StartIncreases(c, 0, |c.plan|);
    assert Init(c, Early(c, 0));
    assert Early(c, n).last == Some(Eof) && Early(c, n).delivered == [] && Early(c, n).done;
    hide Early, EarlyAction, Init, Enabled, Step;
    forall k | 0 <= k < n
      ensures Enabled(c, states[k], actions[k]) && states[k + 1] == Step(c, states[k], actions[k])
    {
      EarlyLeads(c, k);
    }
    assert EndsEarly(c, states, actions, true);
  }

  /** The exact condition: end of file can be reported before the blob is complete if and
      only if the context is cancelled. */
  lemma EofLiesExactlyWhenCancelled(c: Config, cancelled: bool)
    requires ValidConfig(c)
    ensures EofMayLie(c, cancelled) <==> cancelled
  {
    if cancelled {
      CancelledPullMayEndEarly(c);
    } else {
      forall states, actions
        ensures !EndsEarly(c, states, actions, false)
      {
        if IsRun(c, states, actions) { InOrderDelivery(c, states, actions, |states| - 1); }
      }
    }
  }
}
