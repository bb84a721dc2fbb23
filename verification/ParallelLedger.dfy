/** Who owns what in a parallel pull. In every reachable state each slot token
    and each buffer has exactly one owner, so no receive from `slots` and no
    send on `tasks` or `results` can block for ever, no buffer is aliased, and
    a finished Close leaves nothing behind. */
module ParallelLedger {
  import opened Basics
  import opened ParallelPull

  datatype Place =
    | AtDispatcher | InTasks | AtWorker(w: nat) | InResults | AtReader | InPending | InCurrent
    | WithCloser | InCloserHand | AtDrainer

  /** Witness of the ownership invariant: where each held chunk index is, and
      the buffer that travels with it. It is no part of the protocol's state. */
  datatype Ledger = Ledger(loc: map<nat, Place>, bufs: map<nat, Buf>)

  function BufOf(l: Ledger, i: nat): Option<Buf> {
    if i in l.bufs then Some(l.bufs[i]) else None
  }

  function DispatcherHand(d: Dispatcher): Option<nat> {
    if d.Handing? || d.Abandoning? then Some(d.i) else None
  }

  /** The result the reader holds between a receive and its release or adoption. */
  function ReaderHand(k: Reader): Option<Result> {
    match k
    case Took(_, r) => Some(r)
    case Got(_, r) => Some(r)
    case Comparing(_, r) => Some(r)
    case Storing(_, r) => Some(r)
    case Refused(_, r) => Some(r)
    case Inspecting(_, r) => Some(r)
    case Adopting(_, r) => Some(r)
    case Dropping(r, _) => Some(r)
    case _ => None
  }

  function CloserLeft(k: Closer): map<nat, Result> {
    match k
    case Cancelling(left) => left
    case Releasing(left, _) => left
    case _ => map[]
  }

  function CloserHand(k: Closer): Option<Result> {
    if k.Releasing? then k.hand else None
  }

  function DrainerHand(k: Drainer): Option<Result> {
    if k.Draining? then k.hand else None
  }

  predicate ResultIs(r: Result, i: nat, b: Option<Buf>) {
    r.slot && r.index == i && r.buf == b
  }

  predicate WorkerHolds(k: Worker, i: nat, b: Option<Buf>) {
    match k
    case Fetching(j, buf, _) => j == i && buf == b
    case Sending(r) => ResultIs(r, i, b)
    case Discarding(r) => ResultIs(r, i, b)
    case _ => false
  }

  /** Component p of the state owns the slot of chunk i, with buffer b. */
  ghost predicate Holds(s: State, p: Place, i: nat, b: Option<Buf>) {
    match p
    case AtDispatcher => DispatcherHand(s.disp) == Some(i) && b == None
    case InTasks => i in s.tasks && b == None
    case AtWorker(w) => w < |s.workers| && WorkerHolds(s.workers[w], i, b)
    case InResults => exists r :: r in s.results && ResultIs(r, i, b)
    case AtReader => ReaderHand(s.reader).Some? && ResultIs(ReaderHand(s.reader).value, i, b)
    case InPending => i in s.sh.pending && ResultIs(s.sh.pending[i], i, b)
    case InCurrent => s.sh.currentSlot && i + 1 == s.sh.next && s.sh.current == b
    case WithCloser => i in CloserLeft(s.closer) && ResultIs(CloserLeft(s.closer)[i], i, b)
    case InCloserHand => CloserHand(s.closer).Some? && ResultIs(CloserHand(s.closer).value, i, b)
    case AtDrainer => DrainerHand(s.drainer).Some? && ResultIs(DrainerHand(s.drainer).value, i, b)
  }

  /** Every held chunk index has exactly one owner. */
  ghost predicate Places(s: State, l: Ledger) {
    && (forall p, i, b :: Holds(s, p, i, b) ==> i in l.loc && l.loc[i] == p && BufOf(l, i) == b)
    && (forall i :: i in l.loc ==> Holds(s, l.loc[i], i, BufOf(l, i)))
  }

  /** Buffers are not shared, and the counters balance. */
  ghost predicate Accounts(c: Config, s: State, l: Ledger) {
    && (forall i :: i in l.loc ==> i < Granted(c, s.disp))
    && s.books.pool !! s.books.foreign
    && l.bufs.Keys <= l.loc.Keys
    && (forall i, j :: i in l.bufs && j in l.bufs && i != j ==> l.bufs[i] != l.bufs[j])
    && (forall i :: i in l.bufs ==>
          l.bufs[i] !in s.books.pool && l.bufs[i] !in s.books.foreign && l.bufs[i] < s.books.nextBuf)
    && s.books.slots == |l.loc|
    && s.books.acquired == s.books.outgrown + s.books.offered + |l.bufs|
  }

  ghost predicate Owns(c: Config, s: State, l: Ledger) {
    Places(s, l) && Accounts(c, s, l)
  }

  /** One owner per slot and per buffer. */
  ghost predicate Owned(c: Config, s: State) {
    exists l :: Owns(c, s, l)
  }

  /** A fetched chunk carries its own bytes. */
  ghost predicate GoodResult(c: Config, r: Result)
    requires ValidConfig(c)
  {
    && r.slot && r.index < |c.plan|
    && (r.err == None || r.err == Some(FetchFailed))
    && (r.err == None ==> r.data == ChunkBytes(c, r.index))
  }

  predicate Distinct(results: seq<Result>) {
    forall j, k :: 0 <= j < k < |results| ==> results[j].index != results[k].index
  }

  ghost predicate GoodWorker(c: Config, k: Worker)
    requires ValidConfig(c)
  {
    match k
    case Fetching(i, _, _) => i < |c.plan|
    case Sending(r) => GoodResult(c, r)
    case Discarding(r) => GoodResult(c, r)
    case _ => true
  }

  /** Chunks 0..Granted-1 have been given a slot. */
  function Granted(c: Config, d: Dispatcher): nat {
    match d
    case Granting(i) => i
    case Handing(i) => i + 1
    case Abandoning(i) => i + 1
    case _ => |c.plan|
  }

  ghost predicate GoodMap(c: Config, m: map<nat, Result>)
    requires ValidConfig(c)
  {
    forall i :: i in m ==> GoodResult(c, m[i]) && m[i].index == i
  }

  ghost predicate PoolShape(c: Config, k: Books) {
    && k.slots <= c.workers
    && |k.pool| <= c.poolCap
    && (forall b :: b in k.pool ==> b < k.nextBuf)
    && (forall b :: b in k.foreign ==> b < k.nextBuf)
  }

  ghost predicate QueueShape(c: Config, disp: Dispatcher, tasks: seq<nat>, results: seq<Result>)
    requires ValidConfig(c)
  {
    && Granted(c, disp) <= |c.plan|
    && (disp.Granting? ==> disp.i < |c.plan|)
    && (forall i :: i in tasks ==> i < |c.plan|)
    && (forall j, k :: 0 <= j < k < |tasks| ==> tasks[j] != tasks[k])
    && (forall r :: r in results ==> GoodResult(c, r))
    && Distinct(results)
  }

  ghost predicate WorkerShape(c: Config, workers: seq<Worker>, tasks: seq<nat>, disp: Dispatcher)
    requires ValidConfig(c)
  {
    && |workers| == c.workers
    && (forall w :: 0 <= w < |workers| ==> GoodWorker(c, workers[w]))
    && (forall w :: 0 <= w < |workers| && workers[w].Exited? ==>
          tasks == [] && (disp.Waiting? || disp.Finished?))
    && (disp.Finished? ==> forall w :: 0 <= w < |workers| ==> workers[w].Exited?)
  }

  ghost predicate CurrentShape(c: Config, sh: Shared)
    requires ValidConfig(c)
  {
    && GoodMap(c, sh.pending)
    && (!sh.currentSlot ==> sh.current == None && sh.data == [])
    && (sh.currentSlot ==> 1 <= sh.next <= |c.plan|)
    && (sh.closed ==> sh.pending == map[] && !sh.currentSlot && sh.err.Some?)
  }

  ghost predicate CloserShape(c: Config, closer: Closer, closed: bool, done: bool)
    requires ValidConfig(c)
  {
    && (closer.NotCalled? <==> !closed)
    && (closer.Releasing? || closer.Returned? ==> done)
    && GoodMap(c, CloserLeft(closer))
    && (CloserHand(closer).Some? ==> GoodResult(c, CloserHand(closer).value))
  }

  ghost predicate DrainerShape(c: Config, drainer: Drainer, closer: Closer, disp: Dispatcher, results: seq<Result>)
    requires ValidConfig(c)
  {
    && (drainer.NotStarted? <==> !closer.Returned?)
    && (drainer.Drained? ==> disp.Finished? && results == [])
    && (DrainerHand(drainer).Some? ==> GoodResult(c, DrainerHand(drainer).value))
  }

  /** What the reader knows at each point. An empty result in its hand comes
      only from the race in which Close refuses a pending result. */
  ghost predicate ReaderShape(c: Config, k: Reader, sh: Shared)
    requires ValidConfig(c)
  {
    match k
    case Outside => true
    case Top(_) => true
    case Ending(_) => true
    case Looking(_) => !sh.currentSlot
    case Selecting(_) => !sh.currentSlot && sh.next !in sh.pending
    case Took(_, r) => !sh.currentSlot && GoodResult(c, r) && r.index == sh.next
    case Got(_, r) => !sh.currentSlot && GoodResult(c, r) && sh.next !in sh.pending
    case Comparing(_, r) => !sh.currentSlot && GoodResult(c, r) && sh.next !in sh.pending
    case Storing(_, r) =>
      !sh.currentSlot && GoodResult(c, r) && sh.next !in sh.pending && r.index != sh.next
    case Refused(_, r) => sh.closed && GoodResult(c, r)
    case Inspecting(_, r) => !sh.currentSlot && ((r == NO_RESULT && sh.closed) || (GoodResult(c, r) && r.index == sh.next))
    case Adopting(_, r) =>
      && !sh.currentSlot
      && ((r == NO_RESULT && sh.closed) || (GoodResult(c, r) && r.index == sh.next && r.err == None))
    case Dropping(r, e) => !sh.currentSlot && e != Eof && (r == NO_RESULT || GoodResult(c, r))
  }

  /** Facts about single components that every action keeps. */
  ghost predicate Shape(c: Config, s: State)
    requires ValidConfig(c)
  {
    && PoolShape(c, s.books)
    && QueueShape(c, s.disp, s.tasks, s.results)
    && WorkerShape(c, s.workers, s.tasks, s.disp)
    && CurrentShape(c, s.sh)
    && CloserShape(c, s.closer, s.sh.closed, s.done)
    && DrainerShape(c, s.drainer, s.closer, s.disp, s.results)
    && ReaderShape(c, s.reader, s.sh)
  }

  ghost predicate Inv(c: Config, s: State) {
    && ValidConfig(c)
    && Shape(c, s)
    && Owned(c, s)
  }

  // ---------------------------------------------------------------- kinds of change

  /** What one action does to ownership. */
  datatype Change =
    | Nothing
    | Within(p: Place)                                    // p changes, its items do not
    | Acquires(i: nat)                                    // the dispatcher reserves a slot
    | Moves(p: Place, q: Place, i: nat, b: Option<Buf>)
    | Swaps(p: Place, i: nat, b: Option<Buf>, b2: Option<Buf>)
    | Returns(p: Place, i: nat)                           // the slot of i goes back
    | GivesUp(i: nat, b: Option<Buf>)                     // current: buffer and slot go back at once
    | Leaves(taken: map<nat, Result>)                     // all pending results go to the closer

  /** The component of the state behind place x is the same in both states. */
  predicate SameAt(s: State, s': State, x: Place) {
    match x
    case AtDispatcher => DispatcherHand(s'.disp) == DispatcherHand(s.disp)
    case InTasks => s'.tasks == s.tasks
    case AtWorker(w) => |s'.workers| == |s.workers| && (w < |s.workers| ==> s'.workers[w] == s.workers[w])
    case InResults => s'.results == s.results
    case AtReader => ReaderHand(s'.reader) == ReaderHand(s.reader)
    case InPending => s'.sh.pending == s.sh.pending
    case InCurrent =>
      s'.sh.currentSlot == s.sh.currentSlot
      && (s.sh.currentSlot ==> s'.sh.next == s.sh.next && s'.sh.current == s.sh.current)
    case WithCloser => CloserLeft(s'.closer) == CloserLeft(s.closer)
    case InCloserHand => CloserHand(s'.closer) == CloserHand(s.closer)
    case AtDrainer => DrainerHand(s'.drainer) == DrainerHand(s.drainer)
  }

  predicate Touches(ch: Change, x: Place) {
    match ch
    case Nothing => false
    case Within(p) => x == p
    case Acquires(_) => x == AtDispatcher
    case Moves(p, q, _, _) => x == p || x == q
    case Swaps(p, _, _, _) => x == p
    case Returns(p, _) => x == p
    case GivesUp(_, _) => x == InCurrent
    case Leaves(_) => x == InPending || x == WithCloser
  }

  /** The places the change touches hold the right items before and after. */
  ghost predicate ItemsFollow(s: State, s': State, ch: Change) {
    match ch
    case Nothing => true
    case Within(p) => forall j, d :: Holds(s, p, j, d) <==> Holds(s', p, j, d)
    case Acquires(i) =>
      && DispatcherHand(s.disp) == None && DispatcherHand(s'.disp) == Some(i)
    case Moves(p, q, i, b) =>
      && p != q
      && Holds(s, p, i, b)
      && (forall j, d :: Holds(s', p, j, d) <==> Holds(s, p, j, d) && j != i)
      && Holds(s', q, i, b)
      && (forall j, d :: Holds(s', q, j, d) ==> Holds(s, q, j, d) || (j == i && d == b))
      && (forall j, d :: Holds(s, q, j, d) ==> Holds(s', q, j, d) || j == i)
    case Swaps(p, i, b, b2) =>
      && Holds(s, p, i, b) && Holds(s', p, i, b2)
      && (forall j, d :: Holds(s, p, j, d) ==> j == i)
      && (forall j, d :: Holds(s', p, j, d) ==> j == i && d == b2)
    case Returns(p, i) =>
      && Holds(s, p, i, None)
      && (forall j, d :: Holds(s, p, j, d) ==> j == i)
      && (forall j, d :: !Holds(s', p, j, d))
    case GivesUp(i, b) =>
      && Holds(s, InCurrent, i, b)
      && (forall j, d :: !Holds(s', InCurrent, j, d))
    case Leaves(m) =>
      && s.sh.pending == CloserLeft(s'.closer) == m && s'.sh.pending == map[] && CloserLeft(s.closer) == map[]
  }

  function SlotDelta(ch: Change): int {
    if ch.Acquires? then 1 else if ch.Returns? || ch.GivesUp? then -1 else 0
  }

  /** How the books follow the change. */
  ghost predicate BooksFollow(c: Config, k: Books, k': Books, ch: Change) {
    && k'.slots == k.slots + SlotDelta(ch)
    && k'.nextBuf >= k.nextBuf
    && (!ch.Swaps? && !ch.GivesUp? ==>
          && k'.acquired == k.acquired && k'.outgrown == k.outgrown && k'.offered == k.offered
          && (k.pool !! k.foreign ==> k'.pool !! k'.foreign)
          && (forall x :: x in k'.pool ==> x in k.pool || x in k.foreign)
          && (forall x :: x in k'.foreign ==> x in k.foreign || x in k.pool || x >= k.nextBuf))
    && (ch.GivesUp? ==>
          && k'.acquired == k.acquired && k'.outgrown == k.outgrown && k'.offered == k.offered + Count(ch.b)
          && k'.foreign == k.foreign
          && forall x :: x in k'.pool ==> x in k.pool || ch.b == Some(x))
    && (ch.Swaps? ==>
          && k'.acquired + Count(ch.b) + k.outgrown + k.offered == k'.outgrown + k'.offered + Count(ch.b2) + k.acquired
          && k'.foreign == k.foreign
          && (forall x :: x in k'.pool ==> x in k.pool || (ch.b == Some(x) && ch.b2 == None))
          && (ch.b2.Some? && ch.b2 != ch.b ==>
                && ch.b2.value !in k'.pool && ch.b2.value < k'.nextBuf
                && (ch.b2.value in k.pool || ch.b2.value >= k.nextBuf)))
  }

  ghost predicate Explains(c: Config, s: State, s': State, ch: Change) {
    && (forall x :: Touches(ch, x) || SameAt(s, s', x))
    && ItemsFollow(s, s', ch)
    && Granted(c, s'.disp) >= Granted(c, s.disp)
    && (ch.Acquires? ==> Granted(c, s.disp) <= ch.i < Granted(c, s'.disp))
    && BooksFollow(c, s.books, s'.books, ch)
  }

  /** The ledger after the change. */
  function Apply(l: Ledger, ch: Change): Ledger {
    match ch
    case Acquires(i) => l.(loc := l.loc[i := AtDispatcher])
    case Moves(_, q, i, _) => l.(loc := l.loc[i := q])
    case Swaps(_, i, _, b2) => l.(bufs := if b2.Some? then l.bufs[i := b2.value] else l.bufs - {i})
    case Returns(_, i) => l.(loc := l.loc - {i})
    case GivesUp(i, _) => Ledger(l.loc - {i}, l.bufs - {i})
    case Leaves(m) => l.(loc := map i | i in l.loc :: if i in m then WithCloser else l.loc[i])
    case _ => l
  }

  // ---------------------------------------------------------------- every kind keeps one owner per item

  lemma Frame(s: State, s': State, x: Place)
    requires SameAt(s, s', x)
    ensures forall i, b :: Holds(s', x, i, b) <==> Holds(s, x, i, b)
  {}

  /** Where the ledger has the item that the change is about. */
  ghost predicate Located(c: Config, s: State, ch: Change, l: Ledger) {
    match ch
    case Acquires(i) => i !in l.loc && i !in l.bufs
    case Moves(p, _, i, b) => i in l.loc && l.loc[i] == p && BufOf(l, i) == b
    case Swaps(p, i, b, _) => i in l.loc && l.loc[i] == p && BufOf(l, i) == b
    case Returns(p, i) => i in l.loc && l.loc[i] == p && i !in l.bufs
    case GivesUp(i, b) => i in l.loc && l.loc[i] == InCurrent && BufOf(l, i) == b
    case Leaves(m) => forall i :: i in m ==> i in l.loc && l.loc[i] == InPending
    case _ => true
  }

  lemma Locate(c: Config, s: State, s': State, ch: Change, l: Ledger)
    requires ValidConfig(c) && Owns(c, s, l) && GoodMap(c, s.sh.pending)
    requires Explains(c, s, s', ch)
    ensures Located(c, s, ch, l)
  {
    if ch.Leaves? {
      forall i | i in ch.taken
        ensures i in l.loc && l.loc[i] == InPending
      {
        assert Holds(s, InPending, i, s.sh.pending[i].buf);
      }
    }
  }

  lemma StillRecorded(c: Config, s: State, s': State, ch: Change, l: Ledger, x: Place, j: nat, d: Option<Buf>)
    requires ValidConfig(c) && Places(s, l) && GoodMap(c, s.sh.pending) && Located(c, s, ch, l)
    requires Touches(ch, x) || SameAt(s, s', x)
    requires ItemsFollow(s, s', ch)
    requires Holds(s', x, j, d)
    ensures j in Apply(l, ch).loc && Apply(l, ch).loc[j] == x && BufOf(Apply(l, ch), j) == d
  {
    if !Touches(ch, x) {
      Frame(s, s', x);
      assert Holds(s, x, j, d);
    } else if ch.Leaves? {
      assert Holds(s, InPending, j, d);
    } else {
      assert Holds(s, x, j, d) || ch.Acquires? || ch.Moves? || ch.Swaps?;
    }
  }

  lemma StillHeld(c: Config, s: State, s': State, ch: Change, l: Ledger, j: nat)
    requires ValidConfig(c) && Places(s, l) && GoodMap(c, s.sh.pending) && Located(c, s, ch, l)
    requires j in l.loc ==> Touches(ch, l.loc[j]) || SameAt(s, s', l.loc[j])
    requires ItemsFollow(s, s', ch)
    requires j in Apply(l, ch).loc
    ensures Holds(s', Apply(l, ch).loc[j], j, BufOf(Apply(l, ch), j))
  {
    if j in l.loc {
      var x := l.loc[j];
      assert Holds(s, x, j, BufOf(l, j));
      if !Touches(ch, x) {
        Frame(s, s', x);
      }
    }
  }

  lemma SlotsAgree(l: Ledger, ch: Change)
    requires ch.Acquires? ==> ch.i !in l.loc
    requires ch.Returns? || ch.GivesUp? || ch.Moves? ==> ch.i in l.loc
    ensures |Apply(l, ch).loc| == |l.loc| + SlotDelta(ch)
  {
    var l' := Apply(l, ch);
    if ch.Acquires? {
      assert l'.loc.Keys == l.loc.Keys + {ch.i};
    } else if ch.Returns? || ch.GivesUp? {
      assert l'.loc.Keys == l.loc.Keys - {ch.i};
    } else {
      assert l'.loc.Keys == l.loc.Keys;
    }
  }

  lemma DomainsAgree(c: Config, s: State, s': State, ch: Change, l: Ledger)
    requires Accounts(c, s, l) && Explains(c, s, s', ch) && Located(c, s, ch, l)
    ensures forall i :: i in Apply(l, ch).loc ==> i < Granted(c, s'.disp)
    ensures Apply(l, ch).bufs.Keys <= Apply(l, ch).loc.Keys
  {}

  lemma CountersAgree(c: Config, s: State, s': State, ch: Change, l: Ledger)
    requires s.books.acquired == s.books.outgrown + s.books.offered + |l.bufs|
    requires BooksFollow(c, s.books, s'.books, ch) && Located(c, s, ch, l)
    ensures s'.books.acquired == s'.books.outgrown + s'.books.offered + |Apply(l, ch).bufs|
  {
    var l' := Apply(l, ch);
    match ch
    case Swaps(_, i, b, b2) =>
      assert l'.bufs.Keys == if b2.Some? then l.bufs.Keys + {i} else l.bufs.Keys - {i};
    case GivesUp(i, b) => assert l'.bufs.Keys == l.bufs.Keys - {i};
    case _ =>
  }

  lemma BuffersAgree(c: Config, s: State, s': State, ch: Change, l: Ledger)
    requires Accounts(c, s, l) && PoolShape(c, s.books)
    requires BooksFollow(c, s.books, s'.books, ch) && Located(c, s, ch, l)
    ensures s'.books.pool !! s'.books.foreign
    ensures var l' := Apply(l, ch);
      && (forall i, j :: i in l'.bufs && j in l'.bufs && i != j ==> l'.bufs[i] != l'.bufs[j])
      && (forall i :: i in l'.bufs ==>
            l'.bufs[i] !in s'.books.pool && l'.bufs[i] !in s'.books.foreign && l'.bufs[i] < s'.books.nextBuf)
  {}

  /** Whatever a change explains keeps one owner per slot and per buffer. */
  lemma ChangeKeepsOwns(c: Config, s: State, s': State, ch: Change, l: Ledger)
    requires ValidConfig(c) && PoolShape(c, s.books) && GoodMap(c, s.sh.pending)
    requires Owns(c, s, l) && Explains(c, s, s', ch)
    ensures Owns(c, s', Apply(l, ch))
  {
    var l' := Apply(l, ch);
    Locate(c, s, s', ch, l);
    SlotsAgree(l, ch);
    DomainsAgree(c, s, s', ch, l);
    CountersAgree(c, s, s', ch, l);
    BuffersAgree(c, s, s', ch, l);
    forall x, j, d | Holds(s', x, j, d)
      ensures j in l'.loc && l'.loc[j] == x && BufOf(l', j) == d
    {
      StillRecorded(c, s, s', ch, l, x, j, d);
    }
    forall j | j in l'.loc
      ensures Holds(s', l'.loc[j], j, BufOf(l', j))
    {
      StillHeld(c, s, s', ch, l, j);
    }
  }

  lemma ChangeKeepsOwned(c: Config, s: State, s': State, ch: Change)
    requires ValidConfig(c) && PoolShape(c, s.books) && GoodMap(c, s.sh.pending)
    requires Owned(c, s) && Explains(c, s, s', ch)
    ensures Owned(c, s')
  {
    var l :| Owns(c, s, l);
    ChangeKeepsOwns(c, s, s', ch, l);
  }
}
