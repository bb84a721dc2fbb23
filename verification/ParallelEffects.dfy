/** What each action of a parallel pull does to ownership, and that it keeps the
    invariant. */
module ParallelEffects {
  import opened Basics
  import opened ParallelPull
  import opened ParallelLedger

  // ---------------------------------------------------------------- the effect of each action

  function DispatchEffect(c: Config, s: State, a: DispatchAction): Change
    requires DispatchEnabled(c, s, a)
  {
    match a
    case Grant => Acquires(s.disp.i)
    case Hand => Moves(AtDispatcher, InTasks, s.disp.i, None)
    case ReturnGrant => Returns(AtDispatcher, s.disp.i)
    case _ => Nothing
  }

  function WorkEffect(c: Config, s: State, w: nat, a: WorkAction): Change
    requires WorkEnabled(c, s, w, a)
  {
    var k := s.workers[w];
    match a
    case Receive => Moves(InTasks, AtWorker(w), s.tasks[0], None)
    case TakeBuffer(b) => Swaps(AtWorker(w), k.i, None, Some(b))
    case GrowBuffer => Swaps(AtWorker(w), k.i, k.buf, Some(s.books.nextBuf))
    case PutBack => Swaps(AtWorker(w), k.i, k.buf, None)
    case Fail => Swaps(AtWorker(w), k.i, k.buf, None)
    case Publish => Moves(AtWorker(w), InResults, k.r.index, k.r.buf)
    case OfferDiscarded => Swaps(AtWorker(w), k.r.index, k.r.buf, None)
    case ReturnDiscarded => Returns(AtWorker(w), k.r.index)
    case _ => Within(AtWorker(w))
  }

  function ReadEffect(s: State, a: ReadAction): Change
    requires ReadEnabled(s, a)
  {
    match a
    case Serve =>
      if ReadCurrent(s.sh, s.done, s.reader.len).1 == Exhausted && s.sh.currentSlot && s.sh.next > 0
      then GivesUp(s.sh.next - 1, s.sh.current) else Nothing
    case LookPending =>
      if s.sh.next in s.sh.pending
      then Moves(InPending, AtReader, s.sh.next, s.sh.pending[s.sh.next].buf) else Nothing
    case SelectResult => Moves(InResults, AtReader, s.results[0].index, s.results[0].buf)
    case Store => if s.sh.closed then Nothing else Moves(AtReader, InPending, s.reader.r.index, s.reader.r.buf)
    case AdoptResult =>
      if s.sh.closed || s.done then Nothing else Moves(AtReader, InCurrent, s.reader.r.index, s.reader.r.buf)
    case OfferRefused => Swaps(AtReader, s.reader.r.index, s.reader.r.buf, None)
    case ReturnRefused => Returns(AtReader, s.reader.r.index)
    case OfferDropped => Swaps(AtReader, s.reader.r.index, s.reader.r.buf, None)
    case ReturnDropped => if s.reader.r.slot then Returns(AtReader, s.reader.r.index) else Within(AtReader)
    case _ => Nothing
  }

  function CloseEffect(s: State, a: CloseAction): Change
    requires CloseEnabled(s, a)
  {
    match a
    case PickPending(i) => Moves(WithCloser, InCloserHand, i, s.closer.left[i].buf)
    case OfferPending => Swaps(InCloserHand, s.closer.hand.value.index, s.closer.hand.value.buf, None)
    case ReturnPending => Returns(InCloserHand, s.closer.hand.value.index)
    case DrainReceive => Moves(InResults, AtDrainer, s.results[0].index, s.results[0].buf)
    case DrainOffer => Swaps(AtDrainer, s.drainer.hand.value.index, s.drainer.hand.value.buf, None)
    case DrainReturn => Returns(AtDrainer, s.drainer.hand.value.index)
    case _ => Nothing
  }

  // ---------------------------------------------------------------- the table is right

  /** At place x the state holds exactly r, or nothing when r has no slot. */
  ghost predicate HoldsOnly(s: State, x: Place, r: Result) {
    forall j, d :: Holds(s, x, j, d) <==> ResultIs(r, j, d)
  }

  ghost predicate HoldsNothing(s: State, x: Place) {
    forall j, d :: !Holds(s, x, j, d)
  }

  /** pool.put of the result in some hand. */
  lemma OfferChange(c: Config, s: State, s': State, x: Place, r: Result)
    requires ValidConfig(c) && PoolShape(c, s.books) && r.slot && r.buf.Some?
    requires HoldsOnly(s, x, r) && HoldsOnly(s', x, r.(buf := None))
    requires forall y :: y == x || SameAt(s, s', y)
    requires s'.books == Offer(c, s.books, r.buf) && s'.disp == s.disp
    ensures Explains(c, s, s', Swaps(x, r.index, r.buf, None))
  {}

  /** The slot of the result in some hand goes back. */
  lemma ReturnChange(c: Config, s: State, s': State, x: Place, r: Result)
    requires ValidConfig(c) && PoolShape(c, s.books) && r.slot && r.buf == None && s.books.slots > 0
    requires HoldsOnly(s, x, r) && HoldsNothing(s', x)
    requires forall y :: y == x || SameAt(s, s', y)
    requires s'.books == Return(s.books) && s'.disp == s.disp
    ensures Explains(c, s, s', Returns(x, r.index))
  {}

  /** A receive from `results` hands the head over. */
  lemma ReceiveChange(c: Config, s: State, s': State, x: Place)
    requires ValidConfig(c) && QueueShape(c, s.disp, s.tasks, s.results) && s.results != []
    requires s'.results == s.results[1..] && x != InResults
    requires HoldsNothing(s, x) && HoldsOnly(s', x, s.results[0])
    requires forall y :: y == InResults || y == x || SameAt(s, s', y)
    requires s'.books == s.books && s'.disp == s.disp
    ensures Explains(c, s, s', Moves(InResults, x, s.results[0].index, s.results[0].buf))
  {
    var r := s.results[0];
    TailMembers(s.results);
    assert forall y :: y in s'.results ==> y.index != r.index;
    forall j, d
      ensures Holds(s', InResults, j, d) <==> Holds(s, InResults, j, d) && j != r.index
    {
      if Holds(s, InResults, j, d) && j != r.index {
        var y :| y in s.results && ResultIs(y, j, d);
        assert y in s'.results;
      }
    }
    assert r in s.results && ResultIs(r, r.index, r.buf);
  }

  lemma GrantExplained(c: Config, s: State, a: DispatchAction)
    requires ValidConfig(c) && QueueShape(c, s.disp, s.tasks, s.results) && DispatchEnabled(c, s, a)
    requires a.Grant? || a.ReturnGrant?
    ensures Explains(c, s, DispatchStep(c, s, a), DispatchEffect(c, s, a))
  {
    hide Tiles;
  }

  lemma HandExplained(c: Config, s: State)
    requires ValidConfig(c) && QueueShape(c, s.disp, s.tasks, s.results) && DispatchEnabled(c, s, Hand)
    ensures Explains(c, s, DispatchStep(c, s, Hand), DispatchEffect(c, s, Hand))
  {
    hide Tiles;
  }

  lemma DispatchExplained(c: Config, s: State, a: DispatchAction)
    requires ValidConfig(c) && QueueShape(c, s.disp, s.tasks, s.results) && DispatchEnabled(c, s, a)
    ensures Explains(c, s, DispatchStep(c, s, a), DispatchEffect(c, s, a))
  {
    hide Tiles;
    if a.Grant? || a.ReturnGrant? {
      GrantExplained(c, s, a);
    } else if a.Hand? {
      HandExplained(c, s);
    }
  }

  lemma FetchExplained(c: Config, s: State, w: nat, a: WorkAction)
    requires ValidConfig(c) && PoolShape(c, s.books) && WorkEnabled(c, s, w, a)
    requires a.TakeBuffer? || a.GrowBuffer?
    ensures Explains(c, s, WorkStep(c, s, w, a), WorkEffect(c, s, w, a))
  {}

  lemma PutExplained(c: Config, s: State, w: nat, a: WorkAction)
    requires ValidConfig(c) && PoolShape(c, s.books) && WorkEnabled(c, s, w, a)
    requires a.PutBack? || a.Fail?
    ensures Explains(c, s, WorkStep(c, s, w, a), WorkEffect(c, s, w, a))
  {}

  lemma ProceedExplained(c: Config, s: State, w: nat, a: WorkAction)
    requires ValidConfig(c) && WorkEnabled(c, s, w, a)
    requires a.Request? || a.Succeed? || a.Exit? || a.Discard?
    ensures Explains(c, s, WorkStep(c, s, w, a), WorkEffect(c, s, w, a))
  {}

  lemma QueueExplained(c: Config, s: State, w: nat, a: WorkAction)
    requires ValidConfig(c) && WorkEnabled(c, s, w, a) && (a.Receive? || a.Publish?)
    requires QueueShape(c, s.disp, s.tasks, s.results) && GoodWorker(c, s.workers[w])
    ensures Explains(c, s, WorkStep(c, s, w, a), WorkEffect(c, s, w, a))
  {
    if a.Receive? {
      TailMembers(s.tasks);
    } else {
      assert s.workers[w].r in WorkStep(c, s, w, a).results;
    }
  }

  lemma DiscardExplained(c: Config, s: State, w: nat, a: WorkAction)
    requires ValidConfig(c) && PoolShape(c, s.books) && WorkEnabled(c, s, w, a)
    requires GoodWorker(c, s.workers[w]) && (a.OfferDiscarded? || a.ReturnDiscarded?)
    ensures Explains(c, s, WorkStep(c, s, w, a), WorkEffect(c, s, w, a))
  {
    var s' := WorkStep(c, s, w, a);
    if a.OfferDiscarded? {
      OfferChange(c, s, s', AtWorker(w), s.workers[w].r);
    } else {
      ReturnChange(c, s, s', AtWorker(w), s.workers[w].r);
    }
  }

  lemma ServeExplained(c: Config, s: State)
    requires ValidConfig(c) && PoolShape(c, s.books) && CurrentShape(c, s.sh) && ReadEnabled(s, Serve)
    ensures Explains(c, s, ReadStep(c, s, Serve), ReadEffect(s, Serve))
  {}

  lemma LookPendingExplained(c: Config, s: State)
    requires ValidConfig(c) && CurrentShape(c, s.sh) && ReadEnabled(s, LookPending)
    ensures Explains(c, s, ReadStep(c, s, LookPending), ReadEffect(s, LookPending))
  {}

  lemma StoreExplained(c: Config, s: State)
    requires ValidConfig(c) && ReaderShape(c, s.reader, s.sh) && ReadEnabled(s, Store)
    ensures Explains(c, s, ReadStep(c, s, Store), ReadEffect(s, Store))
  {}

  lemma AdoptExplained(c: Config, s: State)
    requires ValidConfig(c) && ReaderShape(c, s.reader, s.sh) && ReadEnabled(s, AdoptResult)
    ensures Explains(c, s, ReadStep(c, s, AdoptResult), ReadEffect(s, AdoptResult))
  {}

  lemma SelectExplained(c: Config, s: State)
    requires ValidConfig(c) && QueueShape(c, s.disp, s.tasks, s.results) && ReadEnabled(s, SelectResult)
    ensures Explains(c, s, ReadStep(c, s, SelectResult), ReadEffect(s, SelectResult))
  {
    ReceiveChange(c, s, ReadStep(c, s, SelectResult), AtReader);
  }

  lemma StayExplained(c: Config, s: State, a: ReadAction)
    requires ValidConfig(c) && ReadEnabled(s, a)
    requires a.CheckGot? || a.Compare? || a.Inspect? || a.End?
    ensures Explains(c, s, ReadStep(c, s, a), ReadEffect(s, a))
  {}

  lemma WaitExplained(c: Config, s: State, a: ReadAction)
    requires ValidConfig(c) && ReadEnabled(s, a)
    requires a.SelectClosed? || a.SelectCancelled? || a.CheckTaken?
    ensures Explains(c, s, ReadStep(c, s, a), ReadEffect(s, a))
  {}

  lemma HandOfferExplained(c: Config, s: State, a: ReadAction)
    requires ValidConfig(c) && PoolShape(c, s.books) && ReaderShape(c, s.reader, s.sh) && ReadEnabled(s, a)
    requires a.OfferRefused? || a.OfferDropped?
    ensures Explains(c, s, ReadStep(c, s, a), ReadEffect(s, a))
  {
    OfferChange(c, s, ReadStep(c, s, a), AtReader, s.reader.r);
  }

  lemma RefusedReturnExplained(c: Config, s: State)
    requires ValidConfig(c) && PoolShape(c, s.books) && ReaderShape(c, s.reader, s.sh)
    requires ReadEnabled(s, ReturnRefused)
    ensures Explains(c, s, ReadStep(c, s, ReturnRefused), ReadEffect(s, ReturnRefused))
  {
    hide Explains;
    ReturnChange(c, s, ReadStep(c, s, ReturnRefused), AtReader, s.reader.r);
  }

  lemma DroppedReturnExplained(c: Config, s: State)
    requires ValidConfig(c) && PoolShape(c, s.books) && ReaderShape(c, s.reader, s.sh)
    requires ReadEnabled(s, ReturnDropped) && s.reader.r.slot
    ensures Explains(c, s, ReadStep(c, s, ReturnDropped), ReadEffect(s, ReturnDropped))
  {
    hide Explains;
    ReturnChange(c, s, ReadStep(c, s, ReturnDropped), AtReader, s.reader.r);
  }

  lemma SlotlessDropExplained(c: Config, s: State)
    requires ValidConfig(c) && ReadEnabled(s, ReturnDropped) && !s.reader.r.slot
    ensures Explains(c, s, ReadStep(c, s, ReturnDropped), ReadEffect(s, ReturnDropped))
  {}

  lemma ReadExplained(c: Config, s: State, a: ReadAction)
    requires ValidConfig(c) && Shape(c, s) && ReadEnabled(s, a)
    ensures Explains(c, s, ReadStep(c, s, a), ReadEffect(s, a))
  {
    match a
    case Serve => ServeExplained(c, s);
    case LookPending => LookPendingExplained(c, s);
    case Store => StoreExplained(c, s);
    case AdoptResult => AdoptExplained(c, s);
    case SelectResult => SelectExplained(c, s);
    case OfferRefused => HandOfferExplained(c, s, a);
    case OfferDropped => HandOfferExplained(c, s, a);
    case ReturnRefused => RefusedReturnExplained(c, s);
    case ReturnDropped => if s.reader.r.slot { DroppedReturnExplained(c, s); } else { SlotlessDropExplained(c, s); }
    case SelectClosed => WaitExplained(c, s, a);
    case SelectCancelled => WaitExplained(c, s, a);
    case CheckTaken => WaitExplained(c, s, a);
    case _ => StayExplained(c, s, a);
  }

  lemma WorkExplained(c: Config, s: State, w: nat, a: WorkAction)
    requires ValidConfig(c) && Shape(c, s) && WorkEnabled(c, s, w, a)
    ensures Explains(c, s, WorkStep(c, s, w, a), WorkEffect(c, s, w, a))
  {
    if a.TakeBuffer? || a.GrowBuffer? {
      FetchExplained(c, s, w, a);
    } else if a.PutBack? || a.Fail? {
      PutExplained(c, s, w, a);
    } else if a.Receive? || a.Publish? {
      QueueExplained(c, s, w, a);
    } else if a.OfferDiscarded? || a.ReturnDiscarded? {
      DiscardExplained(c, s, w, a);
    } else {
      ProceedExplained(c, s, w, a);
    }
  }

  lemma PendingExplained(c: Config, s: State, a: CloseAction)
    requires ValidConfig(c) && PoolShape(c, s.books) && CloserShape(c, s.closer, s.sh.closed, s.done)
    requires CloseEnabled(s, a) && (a.PickPending? || a.OfferPending? || a.ReturnPending? || a.Cancel?)
    ensures Explains(c, s, CloseStep(c, s, a), CloseEffect(s, a))
  {
    if a.OfferPending? {
      OfferChange(c, s, CloseStep(c, s, a), InCloserHand, s.closer.hand.value);
    } else if a.ReturnPending? {
      ReturnChange(c, s, CloseStep(c, s, a), InCloserHand, s.closer.hand.value);
    }
  }

  lemma DrainExplained(c: Config, s: State, a: CloseAction)
    requires ValidConfig(c) && PoolShape(c, s.books) && QueueShape(c, s.disp, s.tasks, s.results)
    requires DrainerShape(c, s.drainer, s.closer, s.disp, s.results)
    requires CloseEnabled(s, a) && !(a.PickPending? || a.OfferPending? || a.ReturnPending? || a.Cancel?)
    ensures Explains(c, s, CloseStep(c, s, a), CloseEffect(s, a))
  {
    if a.DrainReceive? {
      ReceiveChange(c, s, CloseStep(c, s, a), AtDrainer);
    } else if a.DrainOffer? {
      OfferChange(c, s, CloseStep(c, s, a), AtDrainer, s.drainer.hand.value);
    } else if a.DrainReturn? {
      ReturnChange(c, s, CloseStep(c, s, a), AtDrainer, s.drainer.hand.value);
    }
  }

  lemma OuterExplained(c: Config, s: State, a: OutsideAction)
    requires ValidConfig(c) && PoolShape(c, s.books) && OuterEnabled(s, a) && !a.CallClose?
    ensures Explains(c, s, OuterStep(c, s, a), Nothing)
  {}

  /** The ownership change of an action; Close's call makes two, one after the other. */
  function Effect(c: Config, s: State, a: Action): Change
    requires Enabled(c, s, a)
  {
    match a
    case Dispatch(d) => DispatchEffect(c, s, d)
    case Work(w, k) => WorkEffect(c, s, w, k)
    case Read(r) => ReadEffect(s, r)
    case Close(k) => CloseEffect(s, k)
    case Outer(_) => Nothing
  }

  lemma Explained(c: Config, s: State, a: Action)
    requires ValidConfig(c) && Shape(c, s) && Enabled(c, s, a) && a != Outer(CallClose)
    ensures Explains(c, s, Step(c, s, a), Effect(c, s, a))
  {
    match a
    case Dispatch(d) => DispatchExplained(c, s, d);
    case Work(w, k) => WorkExplained(c, s, w, k);
    case Read(r) => ReadExplained(c, s, r);
    case Close(k) =>
      if k.PickPending? || k.OfferPending? || k.ReturnPending? || k.Cancel? {
        PendingExplained(c, s, k);
      } else {
        DrainExplained(c, s, k);
      }
    case Outer(o) => OuterExplained(c, s, o);
  }

  /** Close's section first gives up the current chunk ... */
  function Uncurrent(c: Config, s: State): State
    requires OuterEnabled(s, CallClose)
  {
    s.(sh := ReleaseCurrent(s.sh), books := ReleaseBooks(c, s.books, s.sh))
  }

  lemma UncurrentExplained(c: Config, s: State)
    requires ValidConfig(c) && PoolShape(c, s.books) && CurrentShape(c, s.sh) && OuterEnabled(s, CallClose)
    ensures Explains(c, s, Uncurrent(c, s),
              if s.sh.currentSlot then GivesUp(s.sh.next - 1, s.sh.current) else Nothing)
  {}

  /** ... then hands the pending results to the closer. */
  lemma LeaveExplained(c: Config, s: State)
    requires ValidConfig(c) && OuterEnabled(s, CallClose)
    ensures Explains(c, Uncurrent(c, s), OuterStep(c, s, CallClose), Leaves(s.sh.pending))
  {}

  lemma CallCloseKeepsOwned(c: Config, s: State)
    requires Inv(c, s) && OuterEnabled(s, CallClose)
    ensures Owned(c, OuterStep(c, s, CallClose))
  {
    var mid := Uncurrent(c, s);
    UncurrentShape(c, s);
    UncurrentExplained(c, s);
    ChangeKeepsOwned(c, s, mid, if s.sh.currentSlot then GivesUp(s.sh.next - 1, s.sh.current) else Nothing);
    LeaveExplained(c, s);
    ChangeKeepsOwned(c, mid, OuterStep(c, s, CallClose), Leaves(s.sh.pending));
  }

  lemma UncurrentShape(c: Config, s: State)
    requires Inv(c, s) && OuterEnabled(s, CallClose)
    ensures PoolShape(c, Uncurrent(c, s).books) && GoodMap(c, Uncurrent(c, s).sh.pending)
  {
    if s.sh.current.Some? {
      HeldBelow(c, s, InCurrent, s.sh.next - 1, s.sh.current);
    }
    PutKeepsPool(c, s.books, s.sh.current);
  }

  /** Every action keeps one owner per slot and per buffer. */
  lemma StepKeepsOwned(c: Config, s: State, a: Action)
    requires Inv(c, s) && Enabled(c, s, a)
    ensures Owned(c, Step(c, s, a))
  {
    if a == Outer(CallClose) {
      CallCloseKeepsOwned(c, s);
    } else {
      Explained(c, s, a);
      ChangeKeepsOwned(c, s, Step(c, s, a), Effect(c, s, a));
    }
  }

  // ---------------------------------------------------------------- shape

  /** A task about to be queued is not queued yet. */
  lemma HandIsFresh(c: Config, s: State)
    requires Owned(c, s) && s.disp.Handing?
    ensures s.disp.i !in s.tasks
  {
    var l :| Owns(c, s, l);
    assert Holds(s, AtDispatcher, s.disp.i, None);
    assert Holds(s, InTasks, s.disp.i, None) <==> s.disp.i in s.tasks;
  }

  /** A result about to be sent has no twin in the channel. */
  lemma PublishIsFresh(c: Config, s: State, w: nat)
    requires ValidConfig(c) && Owned(c, s) && w < |s.workers| && s.workers[w].Sending? && s.workers[w].r.slot
    requires forall r :: r in s.results ==> GoodResult(c, r)
    ensures forall r :: r in s.results ==> r.index != s.workers[w].r.index
  {
    var l :| Owns(c, s, l);
    var mine := s.workers[w].r;
    assert Holds(s, AtWorker(w), mine.index, mine.buf);
    forall r | r in s.results
      ensures r.index != mine.index
    {
      assert ResultIs(r, r.index, r.buf);
      assert Holds(s, InResults, r.index, r.buf);
    }
  }

  /** pool.put respects the reserve's capacity. */
  lemma PutKeepsPool(c: Config, k: Books, b: Option<Buf>)
    requires PoolShape(c, k) && (b.Some? ==> b.value < k.nextBuf)
    ensures PoolShape(c, Offer(c, k, b))
  {}

  /** A held buffer was allocated before. */
  lemma HeldBelow(c: Config, s: State, p: Place, i: nat, b: Option<Buf>)
    requires Owned(c, s) && Holds(s, p, i, b) && b.Some?
    ensures b.value < s.books.nextBuf
  {
    var l :| Owns(c, s, l);
  }

  lemma DispatchKeepsShape(c: Config, s: State, a: DispatchAction)
    requires ValidConfig(c) && Shape(c, s) && DispatchEnabled(c, s, a)
    requires a.Hand? ==> s.disp.i !in s.tasks
    ensures Shape(c, DispatchStep(c, s, a))
  {}

  lemma WorkKeepsQueues(c: Config, s: State, w: nat, a: WorkAction)
    requires ValidConfig(c) && WorkEnabled(c, s, w, a)
    requires QueueShape(c, s.disp, s.tasks, s.results) && GoodWorker(c, s.workers[w])
    requires a.Publish? ==> forall r :: r in s.results ==> r.index != s.workers[w].r.index
    ensures var s' := WorkStep(c, s, w, a); QueueShape(c, s'.disp, s'.tasks, s'.results)
  {
    if a.Receive? { TailMembers(s.tasks); }
  }

  lemma WorkKeepsWorkers(c: Config, s: State, w: nat, a: WorkAction)
    requires ValidConfig(c) && WorkEnabled(c, s, w, a) && WorkerShape(c, s.workers, s.tasks, s.disp)
    requires forall i :: i in s.tasks ==> i < |c.plan|
    ensures var s' := WorkStep(c, s, w, a); WorkerShape(c, s'.workers, s'.tasks, s'.disp)
  {
    assert GoodWorker(c, s.workers[w]);
    if a.Receive? { assert s.tasks[0] in s.tasks; }
  }

  lemma WorkKeepsPool(c: Config, s: State, w: nat, a: WorkAction)
    requires ValidConfig(c) && WorkEnabled(c, s, w, a) && PoolShape(c, s.books) && Owned(c, s)
    requires GoodWorker(c, s.workers[w])
    ensures PoolShape(c, WorkStep(c, s, w, a).books)
  {
    var k := s.workers[w];
    match a
    case PutBack =>
      HeldBelow(c, s, AtWorker(w), k.i, k.buf);
      PutKeepsPool(c, s.books, k.buf);
    case Fail =>
      if k.buf.Some? { HeldBelow(c, s, AtWorker(w), k.i, k.buf); }
      PutKeepsPool(c, s.books, k.buf);
    case OfferDiscarded =>
      HeldBelow(c, s, AtWorker(w), k.r.index, k.r.buf);
      PutKeepsPool(c, s.books, k.r.buf);
    case _ =>
  }

  lemma WorkKeepsShape(c: Config, s: State, w: nat, a: WorkAction)
    requires Inv(c, s) && WorkEnabled(c, s, w, a)
    ensures Shape(c, WorkStep(c, s, w, a))
  {
    if a.Publish? { PublishIsFresh(c, s, w); }
    WorkKeepsQueues(c, s, w, a);
    WorkKeepsWorkers(c, s, w, a);
    WorkKeepsPool(c, s, w, a);
  }

  /** Every buffer that Read may offer next was allocated before. */
  lemma OfferedBelow(c: Config, s: State)
    requires ValidConfig(c) && Owned(c, s) && CurrentShape(c, s.sh) && ReaderShape(c, s.reader, s.sh)
    ensures s.sh.current.Some? ==> s.sh.current.value < s.books.nextBuf
    ensures ReaderHand(s.reader).Some? && ReaderHand(s.reader).value.buf.Some? ==>
      ReaderHand(s.reader).value.buf.value < s.books.nextBuf
  {
    if s.sh.current.Some? { HeldBelow(c, s, InCurrent, s.sh.next - 1, s.sh.current); }
    if ReaderHand(s.reader).Some? {
      var r := ReaderHand(s.reader).value;
      if r.buf.Some? { HeldBelow(c, s, AtReader, r.index, r.buf); }
    }
  }

  lemma ReadKeepsPool(c: Config, s: State, a: ReadAction)
    requires PoolShape(c, s.books) && ReadEnabled(s, a)
    requires s.sh.current.Some? ==> s.sh.current.value < s.books.nextBuf
    requires ReaderHand(s.reader).Some? && ReaderHand(s.reader).value.buf.Some? ==>
      ReaderHand(s.reader).value.buf.value < s.books.nextBuf
    ensures PoolShape(c, ReadStep(c, s, a).books)
  {
    match a
    case Serve => PutKeepsPool(c, s.books, s.sh.current);
    case OfferRefused => PutKeepsPool(c, s.books, s.reader.r.buf);
    case OfferDropped => PutKeepsPool(c, s.books, s.reader.r.buf);
    case _ =>
  }

  lemma SectionKeepsReader(c: Config, s: State, a: ReadAction)
    requires ValidConfig(c) && ReadEnabled(s, a)
    requires CurrentShape(c, s.sh) && ReaderShape(c, s.reader, s.sh)
    requires a.Serve? || a.LookPending? || a.Store? || a.AdoptResult? || a.End?
    ensures var s' := ReadStep(c, s, a); CurrentShape(c, s'.sh) && ReaderShape(c, s'.reader, s'.sh)
    ensures ReadStep(c, s, a).sh.closed == s.sh.closed
  {
    hide Tiles;
  }

  lemma PassKeepsReader(c: Config, s: State, a: ReadAction)
    requires ValidConfig(c) && ReadEnabled(s, a)
    requires CurrentShape(c, s.sh) && ReaderShape(c, s.reader, s.sh)
    requires QueueShape(c, s.disp, s.tasks, s.results)
    requires !(a.Serve? || a.LookPending? || a.Store? || a.AdoptResult? || a.End?)
    ensures var s' := ReadStep(c, s, a); s'.sh == s.sh && ReaderShape(c, s'.reader, s'.sh)
  {
    hide Tiles;
    if a.SelectResult? { assert s.results[0] in s.results; }
  }

  lemma ReadKeepsReader(c: Config, s: State, a: ReadAction)
    requires ValidConfig(c) && ReadEnabled(s, a)
    requires CurrentShape(c, s.sh) && ReaderShape(c, s.reader, s.sh)
    requires QueueShape(c, s.disp, s.tasks, s.results)
    ensures var s' := ReadStep(c, s, a); CurrentShape(c, s'.sh) && ReaderShape(c, s'.reader, s'.sh)
    ensures ReadStep(c, s, a).sh.closed == s.sh.closed
  {
    hide ReadStep, ReadEnabled, CurrentShape, ReaderShape, QueueShape;
    if a.Serve? || a.LookPending? || a.Store? || a.AdoptResult? || a.End? {
      SectionKeepsReader(c, s, a);
    } else {
      PassKeepsReader(c, s, a);
    }
  }

  lemma TailKeepsQueues(c: Config, s: State)
    requires ValidConfig(c) && QueueShape(c, s.disp, s.tasks, s.results) && s.results != []
    ensures QueueShape(c, s.disp, s.tasks, s.results[1..])
  {
    TailMembers(s.results);
  }

  /** Read touches only the reader's side. */
  lemma ReadFrame(c: Config, s: State, a: ReadAction)
    requires ReadEnabled(s, a)
    ensures var s' := ReadStep(c, s, a);
      && s'.workers == s.workers && s'.tasks == s.tasks && s'.disp == s.disp && s'.done == s.done
      && s'.closer == s.closer && s'.drainer == s.drainer && s'.sh.closed == s.sh.closed
      && s'.results == (if a.SelectResult? then s.results[1..] else s.results)
  {}

  lemma ReadKeepsShape(c: Config, s: State, a: ReadAction)
    requires ValidConfig(c) && Shape(c, s) && ReadEnabled(s, a)
    requires PoolShape(c, ReadStep(c, s, a).books)
    ensures Shape(c, ReadStep(c, s, a))
  {
    ReadFrame(c, s, a);
    ReadKeepsReader(c, s, a);
    if a.SelectResult? { TailKeepsQueues(c, s); }
  }

  lemma CloseKeepsPool(c: Config, s: State, a: CloseAction)
    requires ValidConfig(c) && Shape(c, s) && Owned(c, s) && CloseEnabled(s, a)
    ensures PoolShape(c, CloseStep(c, s, a).books)
  {
    match a
    case OfferPending =>
      HeldBelow(c, s, InCloserHand, s.closer.hand.value.index, s.closer.hand.value.buf);
      PutKeepsPool(c, s.books, s.closer.hand.value.buf);
    case DrainOffer =>
      HeldBelow(c, s, AtDrainer, s.drainer.hand.value.index, s.drainer.hand.value.buf);
      PutKeepsPool(c, s.books, s.drainer.hand.value.buf);
    case _ =>
  }

  lemma CloseKeepsShape(c: Config, s: State, a: CloseAction)
    requires Inv(c, s) && CloseEnabled(s, a)
    ensures Shape(c, CloseStep(c, s, a))
  {
    CloseKeepsPool(c, s, a);
    if a.DrainReceive? { TailMembers(s.results); }
  }

  lemma CallCloseKeepsShape(c: Config, s: State)
    requires Inv(c, s) && OuterEnabled(s, CallClose)
    ensures Shape(c, OuterStep(c, s, CallClose))
  {
    UncurrentShape(c, s);
  }

  lemma OuterKeepsShape(c: Config, s: State, a: OutsideAction)
    requires ValidConfig(c) && Shape(c, s) && OuterEnabled(s, a) && !a.CallClose?
    ensures Shape(c, OuterStep(c, s, a))
  {
    if a.OtherPut? { PutKeepsPool(c, s.books, Some(a.b)); }
    if a.OtherTake? { assert |s.books.pool - {a.b}| <= |s.books.pool|; }
  }

  /** The invariant is kept by every action. */
  lemma StepKeepsInv(c: Config, s: State, a: Action)
    requires Inv(c, s) && Enabled(c, s, a)
    ensures Inv(c, Step(c, s, a))
  {
    StepKeepsOwned(c, s, a);
    match a
    case Dispatch(d) =>
      if d.Hand? { HandIsFresh(c, s); }
      DispatchKeepsShape(c, s, d);
    case Work(w, k) => WorkKeepsShape(c, s, w, k);
    case Read(r) =>
      OfferedBelow(c, s);
      ReadKeepsPool(c, s, r);
      ReadKeepsShape(c, s, r);
    case Close(k) => CloseKeepsShape(c, s, k);
    case Outer(o) =>
      if o.CallClose? { CallCloseKeepsShape(c, s); } else { OuterKeepsShape(c, s, o); }
  }

  lemma InitHasInv(c: Config, s: State)
    requires Init(c, s)
    ensures Inv(c, s)
  {
    assert Owns(c, s, Ledger(map[0 := AtDispatcher], map[]));
  }
}
