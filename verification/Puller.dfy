/** parallelPuller as an object: Read, Close and the drain as the source has them, over
    its fields, with all the other goroutines at work between any two of their mutex
    sections and channel operations. The object remembers its history, which is a run of
    the transition system, so what holds of every run holds of the object. */
module Puller {
  import opened Basics
  import opened ParallelPull
  import opened ParallelLedger
  import opened ParallelEffects
  import opened ParallelDelivery
  import opened ParallelProgress
  import opened ParallelMeasure
  import opened ParallelErrors

  /** Where the goroutines are, the task channel, and the error the last failed Read returned. */
  datatype Places = Places(
    tasks: seq<nat>, workers: seq<Worker>, disp: Dispatcher, reader: Reader, closer: Closer, drainer: Drainer,
    last: Option<Error>)

  /** Who is running: a Read, Close, the drain, or one of the other goroutines. */
  datatype Actor = TheReader | TheCloser | TheDrainer | TheRest

  function ActorOf(a: Action): Actor {
    match a
    case Read(_) => TheReader
    case Outer(CallRead(_)) => TheReader
    case Outer(CallClose) => TheCloser
    case Close(k) => if k.DrainReceive? || k.DrainOffer? || k.DrainReturn? || k.DrainEnd? then TheDrainer else TheCloser
    case _ => TheRest
  }

  /** Steps that are left to everybody but a Read that is yet to be called. */
  function Remaining(c: Config, s: State): nat { Measure(c, s) + if s.closer.NotCalled? then 8 else 0 }

  /** Steps that are left to those who fill and drain the result channel. */
  function Upstream(c: Config, s: State): nat {
    DispatchRank(c, s.disp) + Product(|s.tasks|, c.fuel + 50) + WorkersRank(s.workers) + 30 * |s.results|
    + DrainerRank(s.drainer)
  }

  /** A step from s to t leaves what belongs to `me` as it is. */
  predicate Keeps(me: Actor, s: State, t: State) {
    && (s.done ==> t.done) && (s.sh.closed ==> t.sh.closed) && (s.sh.err.Some? ==> t.sh.err == s.sh.err)
    && match me
       case TheReader =>
         && t.reader == s.reader && t.delivered == s.delivered && t.last == s.last
         && (s.sh.err.None? && t.sh.err.Some? ==> t.sh.err == Some(PullClosed) && t.sh.closed)
       case TheCloser => t.closer == s.closer
       case TheDrainer => s.drainer.Draining? ==> t.drainer == s.drainer
       case TheRest => true
  }

  /** A step from s to t spares what belongs to `me`, and brings `me` no more to do. */
  predicate Spares(c: Config, me: Actor, s: State, t: State) {
    && Keeps(me, s, t)
    && (me.TheReader? ==> Remaining(c, t) <= Remaining(c, s))
    && (me.TheDrainer? && s.drainer.Draining? ==> Upstream(c, t) <= Upstream(c, s))
  }

  /** Close's first section is the only step that calls Close. */
  lemma OnlyCallCloseCalls(c: Config, s: State, a: Action)
    requires ValidConfig(c) && Enabled(c, s, a)
    ensures Step(c, s, a).closer.NotCalled? <==> s.closer.NotCalled? && a != Outer(CallClose)
    ensures a == Outer(CallClose) ==> s.closer.NotCalled?
  {
    hide ReadStep, ReadEnabled, Tiles, ReleaseBooks, Put;
    if a.Read? { ReadFrame(c, s, a.r); }
  }

  lemma RemainingFalls(c: Config, s: State, a: Action)
    requires AllInv(c, s) && Enabled(c, s, a) && !(a.Outer? && a.o.CallRead?)
    ensures Remaining(c, Step(c, s, a)) + Own(a) <= Remaining(c, s)
  {
    ShapeKnown(c, s);
    hide AllInv, Shape, Measure, Step, Enabled, Tiles;
    StepIsBounded(c, s, a);
    OnlyCallCloseCalls(c, s, a);
  }

  lemma DispatchUpstream(c: Config, s: State, a: DispatchAction)
    requires ValidConfig(c) && QueueShape(c, s.disp, s.tasks, s.results) && DispatchEnabled(c, s, a)
    ensures Upstream(c, DispatchStep(c, s, a)) <= Upstream(c, s)
  {
    hide WorkersRank, ReaderRank, CloserRank, DrainerRank, DispatchRank, Product;
    DispatchDecreases(c, s, a);
  }

  lemma WorkUpstream(c: Config, s: State, w: nat, a: WorkAction)
    requires ValidConfig(c) && WorkEnabled(c, s, w, a)
    ensures Upstream(c, WorkStep(c, s, w, a)) <= Upstream(c, s)
  {
    hide WorkersRank, ReaderRank, CloserRank, DrainerRank, DispatchRank, Product, ChunkBytes;
    WorkDecreases(c, s, w, a);
  }

  lemma ReadUpstream(c: Config, s: State, a: ReadAction)
    requires ReadEnabled(s, a)
    ensures Upstream(c, ReadStep(c, s, a)) <= Upstream(c, s)
  {
    ReadFrame(c, s, a);
    hide WorkersRank, DrainerRank, DispatchRank, Product, ReadStep;
    assert a.SelectResult? ==> s.results != [];
  }

  lemma CloseUpstream(c: Config, s: State, a: CloseAction)
    requires CloseEnabled(s, a) && s.drainer.Draining?
    ensures ActorOf(Close(a)) == TheDrainer ==> Upstream(c, CloseStep(c, s, a)) < Upstream(c, s)
    ensures ActorOf(Close(a)) != TheDrainer && !a.StartDrain? ==> Upstream(c, CloseStep(c, s, a)) == Upstream(c, s)
  {
    hide WorkersRank, DispatchRank, Product;
  }

  lemma OuterUpstream(c: Config, s: State, a: OutsideAction)
    requires OuterEnabled(s, a)
    ensures Upstream(c, OuterStep(c, s, a)) == Upstream(c, s)
  {
    hide WorkersRank, DispatchRank, Product, DrainerRank;
  }

  lemma UpstreamFalls(c: Config, s: State, a: Action)
    requires ValidConfig(c) && Shape(c, s) && Enabled(c, s, a) && s.drainer.Draining? && !s.closer.Releasing?
    ensures Upstream(c, Step(c, s, a)) <= Upstream(c, s)
    ensures ActorOf(a) == TheDrainer ==> Upstream(c, Step(c, s, a)) < Upstream(c, s)
  {
    assert QueueShape(c, s.disp, s.tasks, s.results);
    hide Upstream, Shape, QueueShape, DispatchStep, WorkStep, ReadStep, CloseStep, OuterStep;
    match a
    case Dispatch(d) => DispatchUpstream(c, s, d);
    case Work(w, k) => WorkUpstream(c, s, w, k);
    case Read(r) => ReadUpstream(c, s, r);
    case Close(k) => CloseUpstream(c, s, k);
    case Outer(o) => OuterUpstream(c, s, o);
  }

  lemma WorkKeepsMine(c: Config, s: State, w: nat, a: WorkAction, me: Actor)
    requires ValidConfig(c) && WorkEnabled(c, s, w, a)
    ensures Keeps(me, s, WorkStep(c, s, w, a))
  {
    hide Tiles, Put, ChunkBytes;
  }

  lemma CloseKeepsMine(c: Config, s: State, a: CloseAction, me: Actor)
    requires CloseEnabled(s, a) && ActorOf(Close(a)) != me && (a.StartDrain? ==> !s.drainer.Draining?)
    ensures Keeps(me, s, CloseStep(c, s, a))
  {
    hide Put;
  }

  lemma ReadKeepsMine(c: Config, s: State, a: ReadAction, me: Actor)
    requires ReadEnabled(s, a) && !me.TheReader?
    ensures Keeps(me, s, ReadStep(c, s, a))
  {
    ReadFrame(c, s, a);
    ReadKeepsError(c, s, a);
    hide ReadStep;
  }

  /** The first terminal error stays. */
  lemma ReadKeepsError(c: Config, s: State, a: ReadAction)
    requires ReadEnabled(s, a)
    ensures s.sh.err.Some? ==> ReadStep(c, s, a).sh.err == s.sh.err
  {
    hide ReleaseBooks, Offer;
  }

  lemma OuterKeepsMine(c: Config, s: State, a: OutsideAction, me: Actor)
    requires OuterEnabled(s, a) && ActorOf(Outer(a)) != me
    ensures Keeps(me, s, OuterStep(c, s, a))
  {
    hide Put;
  }

  lemma DispatchKeepsMine(c: Config, s: State, a: DispatchAction, me: Actor)
    requires DispatchEnabled(c, s, a)
    ensures Keeps(me, s, DispatchStep(c, s, a))
  {
  }

  lemma DrainFollowsClose(c: Config, s: State)
    requires ValidConfig(c) && Shape(c, s)
    ensures s.drainer.Draining? ==> s.closer.Returned?
  {
    assert DrainerShape(c, s.drainer, s.closer, s.disp, s.results);
    hide Shape;
  }

  lemma OthersKeepMine(c: Config, s: State, a: Action, me: Actor)
    requires ValidConfig(c) && Shape(c, s) && Enabled(c, s, a) && ActorOf(a) != me
    ensures Keeps(me, s, Step(c, s, a))
  {
    DrainFollowsClose(c, s);
    hide Keeps, Shape, Tiles, DispatchStep, WorkStep, ReadStep, CloseStep, OuterStep;
    match a
    case Dispatch(d) => DispatchKeepsMine(c, s, d, me);
    case Work(w, k) => WorkKeepsMine(c, s, w, k, me);
    case Read(r) => ReadKeepsMine(c, s, r, me);
    case Close(k) => CloseKeepsMine(c, s, k, me);
    case Outer(o) => OuterKeepsMine(c, s, o, me);
  }

  lemma OthersSpareMine(c: Config, s: State, a: Action, me: Actor)
    requires AllInv(c, s) && Enabled(c, s, a) && ActorOf(a) != me
    ensures Spares(c, me, s, Step(c, s, a))
  {
    ShapeKnown(c, s);
    DrainFollowsClose(c, s);
    hide AllInv, Shape, Keeps, Remaining, Upstream, Tiles, Step, Enabled;
    OthersKeepMine(c, s, a, me);
    if me.TheReader? { RemainingFalls(c, s, a); }
    if me.TheDrainer? && s.drainer.Draining? { UpstreamFalls(c, s, a); }
  }

  /** One more step makes a longer run. */
  lemma RunExtends(c: Config, run: seq<State>, acts: seq<Action>, a: Action, s: State)
    requires IsRun(c, run, acts) && ValidConfig(c) && Enabled(c, run[|acts|], a) && s == Step(c, run[|acts|], a)
    ensures IsRun(c, run + [s], acts + [a])
  {
    hide Init, Enabled, Step, Tiles;
    var n := |acts|;
    var longer, more := run + [s], acts + [a];
    forall i | 0 <= i < |more|
      ensures Enabled(c, longer[i], more[i]) && longer[i + 1] == Step(c, longer[i], more[i])
    {
      if i < n {
        assert Enabled(c, run[i], acts[i]) && run[i + 1] == Step(c, run[i], acts[i]);
        assert longer[i] == run[i] && longer[i + 1] == run[i + 1] && more[i] == acts[i];
      } else {
        assert longer[i] == run[n] && longer[i + 1] == s && more[i] == a;
      }
    }
  }

  class ParallelPuller {
    const c: Config
    /** The pull context is cancelled. */
    var done: bool
    /** The result channel. */
    var results: seq<Result>
    /** The slot channel and the buffers. */
    var books: Books
    /** The fields that the mutex guards. */
    var closed: bool
    var err: Option<Error>
    var next: nat
    var current: Option<Buf>
    var data: seq<Octet>
    var currentSlot: bool
    var pos: nat
    var pending: map<nat, Result>
    var g: Places
    var delivered: seq<Octet>
    ghost var run: seq<State>
    ghost var acts: seq<Action>

    constructor (c: Config, books: Books)
      requires ValidConfig(c) && books.slots == 1 && books.acquired == books.outgrown == books.offered == 0
      requires |books.pool| <= c.poolCap && books.pool !! books.foreign
      requires forall b :: b in books.pool || b in books.foreign ==> b < books.nextBuf
      ensures this.c == c && Valid() && acts == [] && this.books == books
    {
      this.c, this.books := c, books;
      done, results, delivered := false, [], [];
      closed, err, next, current, data, currentSlot, pos, pending := false, None, 0, None, [], false, 0, map[];
      g := Places([], seq(c.workers, i => Idle), Handing(0), Outside, NotCalled, NotStarted, None);
      new;
      run, acts := [View()], [];
    }

    function Sh(): Shared
      reads this
    {
      Shared(closed, err, next, current, data, currentSlot, pos, pending)
    }

    function View(): State
      reads this
    {
      State(done, g.tasks, g.workers, results, g.disp, Sh(), g.reader, g.closer, g.drainer, books, delivered, g.last)
    }

    /** The history is a run, and the object is where it ends. */
    ghost predicate Valid()
      reads this
    {
      IsRun(c, run, acts) && View() == run[|acts|]
    }

    lemma Known()
      requires Valid()
      ensures AllInv(c, View()) && ValidConfig(c)
    {
      hide AllInv, View, Init, Tiles;
      EveryStateOfEveryRun(c, run, acts, |acts|);
      ShapeKnown(c, View());
    }

    lemma ConfigIsValid()
      requires Valid()
      ensures ValidConfig(c)
    {
      hide AllInv;
      Known();
    }

    /** A step has been taken: the object, changed in place, is where the step leads. */
    ghost method Note(a: Action)
      requires IsRun(c, run, acts) && ValidConfig(c)
      requires Enabled(c, run[|acts|], a) && View() == Step(c, run[|acts|], a)
      modifies this`run, this`acts
      ensures Valid() && acts == old(acts) + [a] && View() == old(View())
    {
      hide Enabled, Step, Init, Tiles;
      RunExtends(c, run, acts, a, View());
      ghost var v := View();
      run, acts := run + [v], acts + [a];
    }

    // -------------------------------------------------------------- the other goroutines

    /** The object takes the fields of a state. */
    method Become(s: State)
      modifies this`done, this`results, this`books, this`closed, this`err, this`next, this`current, this`data,
        this`currentSlot, this`pos, this`pending, this`g, this`delivered
      ensures View() == s
    {
      done, results, books, delivered := s.done, s.results, s.books, s.delivered;
      g := Places(s.tasks, s.workers, s.disp, s.reader, s.closer, s.drainer, s.last);
      hide Sh;
      BecomeShared(s.sh);
    }

    method BecomeShared(sh: Shared)
      modifies this`closed, this`err, this`next, this`current, this`data, this`currentSlot, this`pos, this`pending
      ensures Sh() == sh
    {
      closed, err, next, pending := sh.closed, sh.err, sh.next, sh.pending;
      current, data, currentSlot, pos := sh.current, sh.data, sh.currentSlot, sh.pos;
    }

    /** Any number of steps of the other goroutines. */
    method Others(me: Actor)
      requires Valid()
      modifies this
      ensures Valid() && Spares(c, me, old(View()), View()) && old(acts) <= acts
    {
      hide Valid, View;
      var turns: int := *;
      ghost var before := View();
      while turns > 0
        invariant Valid() && Spares(c, me, before, View()) && old(acts) <= acts
        decreases turns
      {
        OneOther(me, before);
        turns := turns - 1;
      }
    }

    method OneOther(me: Actor, ghost before: State)
      requires Valid() && Spares(c, me, before, View())
      modifies this
      ensures Valid() && Spares(c, me, before, View()) && old(acts) <= acts
    {
      hide View, Step, Enabled, AllInv, Spares, IsRun, Tiles;
      var a: Action := *;
      if ActorOf(a) != me && Enabled(c, View(), a) {
        Known();
        OthersSpareMine(c, View(), a, me);
        var next := Step(c, View(), a);
        SparesChains(c, me, before, View(), next);
        Become(next);
        Note(a);
      }
    }

    // -------------------------------------------------------------- sections of Read

    /** The others, as Read sees them. */
    method Meanwhile()
      requires Valid()
      modifies this
      ensures Valid() && old(acts) <= acts
      ensures g.reader == old(g.reader) && g.last == old(g.last) && delivered == old(delivered)
      ensures (old(closed) ==> closed) && (old(done) ==> done) && (old(err).Some? ==> err == old(err))
      ensures old(err).None? && err.Some? ==> err == Some(PullClosed) && closed
      ensures Remaining(c, View()) <= Remaining(c, old(View()))
    {
      hide Remaining, IsRun;
      Others(TheReader);
    }

    /** Read is called. */
    method Enter(len: nat)
      requires Valid() && g.reader.Outside?
      modifies this`g, this`run, this`acts
      ensures Valid() && old(acts) <= acts && g == old(g).(reader := Top(len))
    {
      hide Init, IsRun, ValidConfig;
      ConfigIsValid();
      g := g.(reader := Top(len));
      Note(Outer(CallRead(len)));
    }

    /** A step of Read leaves fewer steps. */
    lemma Progress(a: ReadAction)
      requires Valid() && ReadEnabled(View(), a)
      ensures Remaining(c, ReadStep(c, View(), a)) < Remaining(c, View())
      ensures ValidConfig(c)
    {
      Known();
      hide AllInv, Init, IsRun, Tiles, Remaining, ReadStep, ReadEnabled;
      RemainingFalls(c, View(), Action.Read(a));
    }

    /** Whoever is to return a slot finds one. */
    lemma SlotIsThere()
      requires Valid()
      ensures currentSlot ==> books.slots > 0
      ensures (g.reader.Refused? || g.reader.Dropping?) && g.reader.r.slot ==> books.slots > 0
      ensures g.closer.Releasing? && g.closer.hand.Some? ==> books.slots > 0
      ensures g.drainer.Draining? && g.drainer.hand.Some? ==> books.slots > 0
    {
      Known();
      SlotsReturnable(c, View());
    }

    /** releaseCurrentLocked */
    method ReleaseCurrentLocked()
      requires currentSlot ==> books.slots > 0
      modifies this`books, this`current, this`data, this`currentSlot, this`pos
      ensures Sh() == ReleaseCurrent(old(Sh())) && books == ReleaseBooks(c, old(books), old(Sh()))
    {
      books := Offer(c, books, current);
      if currentSlot { books := Return(books); }
      current, data, pos, currentSlot := None, [], 0, false;
    }

    /** readCurrent finds a terminal state. */
    method ServeError() returns (e: Error)
      requires g.reader.Top? && (err.Some? || done) && (currentSlot ==> books.slots > 0)
      modifies this`err, this`g
      ensures View() == ReadStep(c, old(View()), Serve)
      ensures err == Some(e) && err == (if old(err).Some? then old(err) else Some(Cancelled)) && g == old(g).(reader := Outside, last := err)
    {
      if err.None? { err := Some(Cancelled); }
      e := err.value;
      g := g.(reader := Outside, last := err);
    }

    /** readCurrent copies what the current chunk has. */
    method ServeBytes(b: array<Octet>) returns (n: nat)
      requires g.reader == Top(b.Length) && err.None? && !done && (b.Length > 0 ==> pos < |data|)
      requires currentSlot ==> books.slots > 0
      modifies this`pos, this`g, this`delivered, b
      ensures View() == ReadStep(c, old(View()), Serve)
      ensures n <= b.Length && delivered == old(delivered) + b[..n] && (b.Length > 0 ==> n > 0)
      ensures n < b.Length ==> pos == |data|
      ensures g == old(g).(reader := Outside)
    {
      n := 0;
      if b.Length > 0 {
        n := Min(b.Length, |data| - pos);
        forall i | 0 <= i < n { b[i] := data[pos + i]; }
        assert b[..n] == data[pos..pos + n];
        pos := pos + n;
        delivered := delivered + b[..n];
      }
      g := g.(reader := Outside);
    }

    /** readCurrent gives the used-up chunk back. */
    method ServeNothing()
      requires g.reader.Top? && g.reader.len > 0 && err.None? && !done && pos >= |data|
      requires currentSlot ==> books.slots > 0
      modifies this`books, this`current, this`data, this`currentSlot, this`pos, this`g
      ensures View() == ReadStep(c, old(View()), Serve)
      ensures g == old(g).(reader := Looking(old(g.reader.len)))
    {
      hide ReleaseBooks;
      ReleaseCurrentLocked();
      g := g.(reader := Looking(g.reader.len));
    }

    /** readCurrent's section, which fills b. `ready` is false when Read has to wait for
        the next chunk. */
    method ReadCurrentInto(b: array<Octet>) returns (n: nat, ready: bool, e: Option<Error>)
      requires (currentSlot ==> books.slots > 0) && g.reader == Top(b.Length)
      modifies this`err, this`books, this`current, this`data, this`currentSlot, this`pos, this`g, this`delivered, b
      ensures View() == ReadStep(c, old(View()), Serve) && n <= b.Length && (e.Some? ==> n == 0)
      ensures delivered == old(delivered) + b[..n]
      ensures if ready then g.reader.Outside? && (e.Some? ==> err == e) && g.last == (if e.Some? then e else old(g.last))
              else n == 0 && e == None && g == old(g).(reader := Looking(b.Length)) && old(err) == None
      ensures ready && e == None && b.Length > 0 ==> n > 0 && (n < b.Length ==> pos == |data|)
      ensures old(err).Some? ==> ready && e == old(err)
      ensures old(done) && old(err).None? ==> ready && e == Some(Cancelled)
    {
      hide ReadStep;
      n, ready, e := 0, true, None;
      if err.Some? || done {
        var error := ServeError();
        e := Some(error);
      } else if b.Length == 0 || pos < |data| {
        n := ServeBytes(b);
      } else {
        ServeNothing();
        ready := false;
      }
    }

    /** readCurrent */
    method ServeCurrent(b: array<Octet>) returns (n: nat, ready: bool, e: Option<Error>)
      requires Valid() && g.reader == Top(b.Length)
      modifies this, b
      ensures Valid() && old(acts) <= acts && n <= b.Length && (e.Some? ==> n == 0)
      ensures delivered == old(delivered) + b[..n]
      ensures if ready then g.reader.Outside? && (e.Some? ==> err == e) && g.last == (if e.Some? then e else old(g.last))
              else n == 0 && e == None && g == old(g).(reader := Looking(b.Length)) && old(err) == None
      ensures ready && e == None && b.Length > 0 ==> n > 0 && (n < b.Length ==> pos == |data|)
      ensures old(err).Some? ==> ready && e == old(err)
      ensures old(done) && old(err).None? ==> ready && e == Some(Cancelled)
      ensures closed == old(closed)
      ensures Remaining(c, View()) < Remaining(c, old(View()))
    {
      hide IsRun, Init, Tiles, Remaining, ReleaseBooks, ReadStep;
      SlotIsThere();
      Progress(Serve);
      n, ready, e := ReadCurrentInto(b);
      Note(Action.Read(Serve));
    }

    /** A step of Read: it moves the reader on, and fewer steps remain. */
    twostate predicate Moved()
      reads this
    {
      g == old(g).(reader := g.reader) && old(acts) <= acts && Remaining(c, View()) < Remaining(c, old(View()))
    }

    /** takePending */
    method TakeNextPending()
      requires Valid() && g.reader.Looking?
      modifies this`pending, this`g, this`run, this`acts
      ensures Valid() && Moved()
      ensures var len := old(g.reader.len); g.reader == Selecting(len) || (g.reader.Took? && g.reader.len == len)
    {
      hide IsRun, Remaining;
      Progress(LookPending);
      if next !in pending {
        g := g.(reader := Selecting(g.reader.len));
      } else {
        g := g.(reader := Took(g.reader.len, pending[next]));
        pending := pending - {next};
      }
      Note(Action.Read(LookPending));
    }

    /** nextResult asks the context after it took a result from `pending`. */
    method CheckTakenResult()
      requires Valid() && g.reader.Took?
      modifies this`g, this`run, this`acts
      ensures Valid() && Moved() && var was := old(g.reader);
        g.reader == if done then Dropping(was.r, Cancelled) else Inspecting(was.len, was.r)
    {
      hide IsRun, Remaining;
      Progress(CheckTaken);
      g := g.(reader := if done then Dropping(g.reader.r, Cancelled) else Inspecting(g.reader.len, g.reader.r));
      Note(Action.Read(CheckTaken));
    }

    /** The select of nextResult takes a result. */
    method ReceiveResult()
      requires Valid() && g.reader.Selecting? && results != []
      modifies this`results, this`g, this`run, this`acts
      ensures Valid() && Moved() && g.reader == Got(old(g.reader.len), old(results)[0])
    {
      hide IsRun, Remaining;
      Progress(SelectResult);
      g := g.(reader := Got(g.reader.len, results[0]));
      results := results[1..];
      Note(Action.Read(SelectResult));
    }

    /** The select of nextResult sees the channel closed, or the context cancelled. */
    method NoticeEnd(e: Error)
      requires Valid() && g.reader.Selecting?
      requires if e == Eof then results == [] && g.disp.Finished? else e == Cancelled && done
      modifies this`g, this`run, this`acts
      ensures Valid() && Moved() && g.reader == Ending(e)
    {
      hide IsRun, Remaining;
      Progress(if e == Eof then SelectClosed else SelectCancelled);
      g := g.(reader := Ending(e));
      Note(Action.Read(if e == Eof then SelectClosed else SelectCancelled));
    }

    /** nextResult asks the context after it received a result. */
    method CheckReceived()
      requires Valid() && g.reader.Got?
      modifies this`g, this`run, this`acts
      ensures Valid() && Moved() && var was := old(g.reader);
        g.reader == if done then Dropping(was.r, Cancelled) else Comparing(was.len, was.r)
    {
      hide IsRun, Remaining;
      Progress(CheckGot);
      g := g.(reader := if done then Dropping(g.reader.r, Cancelled) else Comparing(g.reader.len, g.reader.r));
      Note(Action.Read(CheckGot));
    }

    /** resultIsNext */
    method ResultIsNext()
      requires Valid() && g.reader.Comparing?
      modifies this`g, this`run, this`acts
      ensures Valid() && Moved() && var was := old(g.reader);
        g.reader == if was.r.index == next then Inspecting(was.len, was.r) else Storing(was.len, was.r)
    {
      hide IsRun, Remaining;
      Progress(Compare);
      var len, r := g.reader.len, g.reader.r;
      g := g.(reader := if r.index == next then Inspecting(len, r) else Storing(len, r));
      Note(Action.Read(Compare));
    }

    /** storePending */
    method StoreResult()
      requires Valid() && g.reader.Storing?
      modifies this`pending, this`g, this`run, this`acts
      ensures Valid() && Moved() && var was := old(g.reader);
        g.reader == if closed then Refused(was.len, was.r) else Looking(was.len)
    {
      hide IsRun, Remaining;
      Progress(Store);
      var len, r := g.reader.len, g.reader.r;
      if closed {
        g := g.(reader := Refused(len, r));
      } else {
        pending := pending[r.index := r];
        g := g.(reader := Looking(len));
      }
      Note(Action.Read(Store));
    }

    /** releaseResult gives the buffer of a refused result back. */
    method OfferRefusedBuffer()
      requires Valid() && g.reader.Refused? && g.reader.r.buf.Some?
      modifies this`books, this`g, this`run, this`acts
      ensures Valid() && Moved() && g.reader == Refused(old(g.reader.len), old(g.reader.r).(buf := None))
    {
      hide IsRun, Remaining, Offer;
      Progress(OfferRefused);
      books := Offer(c, books, g.reader.r.buf);
      g := g.(reader := Refused(g.reader.len, g.reader.r.(buf := None)));
      Note(Action.Read(OfferRefused));
    }

    /** releaseResult returns the slot, and nextResult asks the context. */
    method ReturnRefusedSlot()
      requires Valid() && g.reader.Refused? && g.reader.r.buf == None
      modifies this`books, this`g, this`run, this`acts
      ensures Valid() && Moved()
      ensures g.reader == if done then Ending(Cancelled) else Inspecting(old(g.reader.len), NO_RESULT)
    {
      hide IsRun, Remaining;
      SlotIsThere();
      Progress(ReturnRefused);
      if g.reader.r.slot { books := Return(books); }
      g := g.(reader := if done then Ending(Cancelled) else Inspecting(g.reader.len, NO_RESULT));
      Note(Action.Read(ReturnRefused));
    }

    /** Read looks at the error a result carries. */
    method InspectResult()
      requires Valid() && g.reader.Inspecting?
      modifies this`g, this`run, this`acts
      ensures Valid() && Moved() && var was := old(g.reader);
        g.reader == if was.r.err.Some? then Dropping(was.r, was.r.err.value) else Adopting(was.len, was.r)
    {
      hide IsRun, Remaining;
      Progress(Inspect);
      var len, r := g.reader.len, g.reader.r;
      g := g.(reader := if r.err.Some? then Dropping(r, r.err.value) else Adopting(len, r));
      Note(Action.Read(Inspect));
    }

    /** adoptResult's section. */
    method Adopted()
      requires g.reader.Adopting?
      modifies this`current, this`data, this`currentSlot, this`pos, this`next, this`g
      ensures View() == ReadStep(c, old(View()), AdoptResult)
      ensures g == old(g).(reader := g.reader) && (g.reader == Top(old(g.reader.len)) || g.reader.Dropping?)
    {
      var len, r := g.reader.len, g.reader.r;
      if closed {
        g := g.(reader := Dropping(r, PullClosed));
      } else if done {
        g := g.(reader := Dropping(r, Cancelled));
      } else {
        current, data, currentSlot, pos := r.buf, r.data, r.slot, 0;
        next := next + 1;
        g := g.(reader := Top(len));
      }
    }

    /** adoptResult */
    method AdoptNext()
      requires Valid() && g.reader.Adopting?
      modifies this`current, this`data, this`currentSlot, this`pos, this`next, this`g, this`run, this`acts
      ensures Valid() && Moved() && (g.reader == Top(old(g.reader.len)) || g.reader.Dropping?)
    {
      hide IsRun, Remaining, ReadStep;
      Progress(AdoptResult);
      Adopted();
      Note(Action.Read(AdoptResult));
    }

    method OfferDroppedBuffer()
      requires Valid() && g.reader.Dropping? && g.reader.r.buf.Some?
      modifies this`books, this`g, this`run, this`acts
      ensures Valid() && Moved() && g.reader == Dropping(old(g.reader.r).(buf := None), old(g.reader.e))
    {
      hide IsRun, Remaining, Offer;
      Progress(OfferDropped);
      books := Offer(c, books, g.reader.r.buf);
      g := g.(reader := Dropping(g.reader.r.(buf := None), g.reader.e));
      Note(Action.Read(OfferDropped));
    }

    method ReturnDroppedSlot()
      requires Valid() && g.reader.Dropping? && g.reader.r.buf == None
      modifies this`books, this`g, this`run, this`acts
      ensures Valid() && Moved() && g.reader == Ending(old(g.reader.e))
    {
      hide IsRun, Remaining;
      SlotIsThere();
      Progress(ReturnDropped);
      if g.reader.r.slot { books := Return(books); }
      g := g.(reader := Ending(g.reader.e));
      Note(Action.Read(ReturnDropped));
    }

    /** terminalError, and Read returns the winner. */
    method TerminalError() returns (winner: Error)
      requires Valid() && g.reader.Ending?
      modifies this`err, this`g, this`run, this`acts
      ensures Valid() && old(acts) <= acts && err == Some(winner) && (old(err).Some? ==> err == old(err))
      ensures g == old(g).(reader := Outside, last := Some(winner))
    {
      hide IsRun, Remaining;
      Progress(End);
      if err.None? { err := Some(g.reader.e); }
      winner := err.value;
      g := g.(reader := Outside, last := err);
      Note(Action.Read(End));
    }

    // -------------------------------------------------------------- Read

    /** What every history implies: the bytes handed over are the blob's, in order; every
        error has its cause; without cancellation, Close and failed fetches it is the end
        of file, and it comes with all of the blob; and once Close, its drain and the Reads
        are over, no slot is taken and every buffer has been given back. */
    ghost predicate Promised()
      reads this
    {
      && delivered <= c.blob
      && (g.last == Some(Eof) ==> delivered == c.blob || done)
      && (g.last.Some? ==> HasCause(View(), acts, g.last.value))
      && (err.Some? ==> HasCause(View(), acts, err.value))
      && (!done && !closed && (forall i :: 0 <= i < |acts| ==> !Fails(acts[i])) && g.last.Some? ==>
            g.last == Some(Eof) && delivered == c.blob)
      && (Settled(View()) ==> books.slots == 0 && books.acquired == books.outgrown + books.offered)
    }

    lemma Promises()
      requires Valid()
      ensures Promised()
    {
      hide AllInv, Init, Tiles;
      InOrderDelivery(c, run, acts, |acts|);
      ErrorsHaveCauses(c, run, acts, |acts|);
      assert acts[..|acts|] == acts;
      if !done && !closed && (forall i :: 0 <= i < |acts| ==> !Fails(acts[i])) {
        UndisturbedPullsEndWhole(c, run, acts, |acts|);
      }
      if Settled(View()) { CloseLeavesNothing(c, run, acts, |acts|); }
    }

    /** A Read that waits finds no result, and another goroutine of the pull has a step. */
    ghost predicate ReadMayWait()
      reads this
    {
      && g.reader.Selecting? && results == [] && !g.disp.Finished? && !done
      && exists a :: Enabled(c, View(), a) && !a.Outer? && !a.Read?
    }

    lemma ReadWaitsForOthers()
      requires Valid() && g.reader.Selecting? && results == [] && !g.disp.Finished? && !done
      ensures ReadMayWait()
    {
      hide IsRun, AllInv, WorkEnabled, DispatchEnabled, CloseEnabled, Tiles;
      Known();
      var a := SomebodyMoves(c, View());
    }

    /** Between two points of a Read that hands nothing over and returns nothing. */
    twostate predicate Steady()
      reads this
    {
      && old(acts) <= acts && delivered == old(delivered) && g.last == old(g.last)
      && (old(err).Some? ==> err == old(err)) && Remaining(c, View()) < Remaining(c, old(View()))
    }

    /** Read, with Close, the workers and the dispatcher at work meanwhile: it hands over
        the next bytes of the blob. `waiting` tells that in one await it has looked in vain
        once more than `patience` times, and still waits for a chunk. */
    method Read(b: array<Octet>, patience: nat) returns (n: nat, e: Option<Error>, waiting: bool)
      requires Valid() && g.reader.Outside?
      modifies this, b
      ensures Valid() && Promised() && old(acts) <= acts
      ensures n <= b.Length && delivered == old(delivered) + b[..n]
      ensures if waiting then n == 0 && e == None && ReadMayWait() else g.reader.Outside?
      ensures g.last == if e.Some? then e else old(g.last)
      ensures e.Some? ==> n == 0 && err == e
      ensures e == None && !waiting && b.Length > 0 ==> n > 0 && (n < b.Length ==> pos == |data|)
      ensures old(err).Some? ==> e == old(err) && !waiting
      ensures old(closed) ==> e.Some? && !waiting
      ensures old(done) ==> !waiting && (old(err).Some? || e == Some(Cancelled) || (e == Some(PullClosed) && closed))
    {
      hide Valid, Remaining, View, Promised, ReadMayWait;
      n, e, waiting := 0, None, false;
      ClosedKnown();
      Enter(b.Length);
      while g.reader == Top(b.Length)
        invariant Valid() && old(acts) <= acts && (g.reader == Top(b.Length) || g.reader.Ending?)
        invariant delivered == old(delivered) && g.last == old(g.last) && n == 0 && e == None && !waiting
        invariant old(err).Some? ==> err == old(err) && g.reader == Top(b.Length)
        invariant old(done) ==> done && g.reader == Top(b.Length)
        invariant old(err).None? && err.Some? ==> !old(done) || (err == Some(PullClosed) && closed)
        decreases Remaining(c, View())
      {
        Meanwhile();
        var ready;
        n, ready, e := ServeCurrent(b);
        if ready {
          Promises();
          return;
        }
        waiting := NextChunk(b.Length, patience);
        if waiting {
          Promises();
          return;
        }
      }
      Meanwhile();
      var winner := TerminalError();
      e := Some(winner);
      Promises();
    }

    /** nextResult and adoptResult: until a chunk is there, or an error to be reported. */
    method NextChunk(len: nat, patience: nat) returns (waiting: bool)
      requires Valid() && g.reader == Looking(len)
      modifies this
      ensures Valid() && Steady()
      ensures if waiting then ReadMayWait() else g.reader == Top(len) || g.reader.Ending?
    {
      hide Valid, Remaining, View, ReadMayWait;
      waiting := NextResult(len, patience);
      if !waiting {
        if g.reader.Inspecting? {
          Meanwhile();
          InspectResult();
        }
        if g.reader.Adopting? {
          Meanwhile();
          AdoptNext();
        }
        if g.reader.Dropping? { ReleaseDropped(); }
      }
    }

    /** nextResult */
    method NextResult(len: nat, patience: nat) returns (waiting: bool)
      requires Valid() && g.reader == Looking(len)
      modifies this
      ensures Valid() && Steady()
      ensures if waiting then ReadMayWait()
              else g.reader.Dropping? || g.reader.Ending? || (g.reader.Inspecting? && g.reader.len == len)
    {
      hide Valid, Remaining, View, ReadMayWait;
      waiting := TakeResult(len, patience);
      while !waiting && g.reader.Looking?
        invariant Valid() && Steady()
        invariant if waiting then ReadMayWait()
              else g.reader.Dropping? || g.reader.Ending? || (g.reader.Inspecting? && g.reader.len == len) || g.reader == Looking(len)
        decreases Remaining(c, View())
      {
        waiting := TakeResult(len, patience);
      }
    }

    /** One round of nextResult. */
    method TakeResult(len: nat, patience: nat) returns (waiting: bool)
      requires Valid() && g.reader == Looking(len)
      modifies this
      ensures Valid() && Steady()
      ensures if waiting then ReadMayWait()
              else g.reader.Dropping? || g.reader.Ending? || (g.reader.Inspecting? && g.reader.len == len) || g.reader == Looking(len)
    {
      hide Valid, Remaining, View, ReadMayWait;
      waiting := false;
      Meanwhile();
      TakeNextPending();
      if g.reader.Took? {
        Meanwhile();
        CheckTakenResult();
        return;
      }
      waiting := AwaitResult(len, patience);
      if !waiting && g.reader.Got? {
        Meanwhile();
        CheckReceived();
        if g.reader.Comparing? { SortIn(len); }
      }
    }

    /** resultIsNext, storePending and what follows a refusal. */
    method SortIn(len: nat)
      requires Valid() && g.reader.Comparing? && g.reader.len == len
      modifies this
      ensures Valid() && Steady()
      ensures g.reader.Ending? || (g.reader.Inspecting? && g.reader.len == len) || g.reader == Looking(len)
    {
      hide Valid, Remaining, View;
      Meanwhile();
      ResultIsNext();
      if g.reader.Storing? {
        Meanwhile();
        StoreResult();
      }
      if g.reader.Refused? { ReleaseRefused(len); }
    }

    /** releaseResult of a result that Close refused. */
    method ReleaseRefused(len: nat)
      requires Valid() && g.reader.Refused? && g.reader.len == len
      modifies this
      ensures Valid() && Steady()
      ensures g.reader.Ending? || (g.reader.Inspecting? && g.reader.len == len)
    {
      hide Valid, Remaining, View;
      Meanwhile();
      if g.reader.r.buf.Some? {
        OfferRefusedBuffer();
        Meanwhile();
      }
      ReturnRefusedSlot();
    }

    /** The select of nextResult. */
    method AwaitResult(len: nat, patience: nat) returns (waiting: bool)
      requires Valid() && g.reader == Selecting(len)
      modifies this
      ensures Valid() && old(acts) <= acts && delivered == old(delivered) && g.last == old(g.last)
      ensures (old(err).Some? ==> err == old(err)) && Remaining(c, View()) <= Remaining(c, old(View()))
      ensures if waiting then ReadMayWait() else g.reader.Ending? || (g.reader.Got? && g.reader.len == len)
    {
      hide Valid, Remaining, View, ReadMayWait;
      var left := patience;
      while true
        invariant Valid() && old(acts) <= acts && delivered == old(delivered) && g.last == old(g.last)
        invariant (old(err).Some? ==> err == old(err)) && Remaining(c, View()) <= Remaining(c, old(View()))
        invariant g.reader == Selecting(len)
        decreases left
      {
        Meanwhile();
        var doneFirst: bool := *;
        if done && (doneFirst || (results == [] && !g.disp.Finished?)) {
          NoticeEnd(Cancelled);
          return false;
        } else if results != [] {
          ReceiveResult();
          return false;
        } else if g.disp.Finished? {
          NoticeEnd(Eof);
          return false;
        } else if left == 0 {
          ReadWaitsForOthers();
          return true;
        }
        left := left - 1;
      }
    }

    /** releaseResult of a result that came with an error. */
    method ReleaseDropped()
      requires Valid() && g.reader.Dropping?
      modifies this
      ensures Valid() && Steady() && g.reader.Ending?
    {
      hide Valid, Remaining, View;
      Meanwhile();
      if g.reader.r.buf.Some? {
        OfferDroppedBuffer();
        Meanwhile();
      }
      ReturnDroppedSlot();
    }

    // -------------------------------------------------------------- Close

    /** The others, as Close sees them. */
    method MeanwhileClose()
      requires Valid()
      modifies this
      ensures Valid() && old(acts) <= acts && g.closer == old(g.closer)
      ensures (old(closed) ==> closed) && (old(done) ==> done) && (old(err).Some? ==> err == old(err))
    {
      hide Upstream, Remaining, IsRun;
      Others(TheCloser);
    }

    method MarkClosed()
      modifies this`closed, this`err
      ensures Sh() == Terminal(old(Sh()).(closed := true), PullClosed) && closed
      ensures err == if old(err).Some? then old(err) else Some(PullClosed)
    {
      closed := true;
      if err.None? { err := Some(PullClosed); }
    }

    /** Close's critical section: it takes the pending results along. */
    method CloseLocked()
      requires g.closer.NotCalled? && (currentSlot ==> books.slots > 0)
      modifies this`closed, this`err, this`books, this`current, this`data, this`currentSlot, this`pos, this`pending, this`g
      ensures View() == OuterStep(c, old(View()), CallClose)
      ensures closed && g == old(g).(closer := Cancelling(old(pending)))
      ensures err == if old(err).Some? then old(err) else Some(PullClosed)
    {
      hide ReleaseBooks;
      MarkClosed();
      SameRelease(c, books, old(Sh()), Sh());
      ReleaseCurrentLocked();
      g := g.(closer := Cancelling(pending));
      pending := map[];
    }

    method EnterClose()
      requires Valid() && g.closer.NotCalled?
      modifies this`closed, this`err, this`books, this`current, this`data, this`currentSlot, this`pos, this`pending,
        this`g, this`run, this`acts
      ensures Valid() && old(acts) <= acts && closed && g.closer == Cancelling(old(pending))
      ensures err == if old(err).Some? then old(err) else Some(PullClosed)
    {
      hide Init, IsRun, OuterStep, ValidConfig, AllInv, ReleaseBooks;
      ConfigIsValid();
      SlotIsThere();
      CloseLocked();
      Note(Outer(CallClose));
    }

    /** p.cancel */
    method CancelPull()
      requires Valid() && g.closer.Cancelling?
      modifies this`done, this`g, this`run, this`acts
      ensures Valid() && old(acts) <= acts && done && g.closer == Releasing(old(g.closer.left), None)
    {
      hide Init, IsRun, ValidConfig;
      ConfigIsValid();
      done := true;
      g := g.(closer := Releasing(g.closer.left, None));
      Note(Action.Close(Cancel));
    }

    /** The next of the pending results that Close took along. */
    method PickNext(i: nat)
      requires Valid() && g.closer.Releasing? && g.closer.hand == None && i in g.closer.left
      modifies this`g, this`run, this`acts
      ensures Valid() && old(acts) <= acts && var left := old(g.closer.left);
        g.closer == Releasing(left - {i}, Some(left[i]))
    {
      hide Init, IsRun, ValidConfig;
      ConfigIsValid();
      g := g.(closer := Releasing(g.closer.left - {i}, Some(g.closer.left[i])));
      Note(Action.Close(PickPending(i)));
    }

    /** releaseResult gives its buffer back. */
    method OfferPicked()
      requires Valid() && g.closer.Releasing? && g.closer.hand.Some? && g.closer.hand.value.buf.Some?
      modifies this`books, this`g, this`run, this`acts
      ensures Valid() && old(acts) <= acts && var was := old(g.closer);
        g.closer == Releasing(was.left, Some(was.hand.value.(buf := None)))
    {
      hide Init, IsRun, ValidConfig, Offer;
      ConfigIsValid();
      var r := g.closer.hand.value;
      books := Offer(c, books, r.buf);
      g := g.(closer := Releasing(g.closer.left, Some(r.(buf := None))));
      Note(Action.Close(OfferPending));
    }

    /** releaseResult returns its slot. */
    method ReturnPicked()
      requires Valid() && g.closer.Releasing? && g.closer.hand.Some? && g.closer.hand.value.buf == None
      modifies this`books, this`g, this`run, this`acts
      ensures Valid() && old(acts) <= acts && g.closer == Releasing(old(g.closer.left), None)
    {
      hide Init, IsRun, ValidConfig;
      ConfigIsValid();
      SlotIsThere();
      books := Return(books);
      g := g.(closer := Releasing(g.closer.left, None));
      Note(Action.Close(ReturnPending));
    }

    /** go p.drainResults */
    method GoDrain()
      requires Valid() && g.closer == Releasing(map[], None)
      modifies this`g, this`run, this`acts
      ensures Valid() && old(acts) <= acts && g == old(g).(closer := Returned, drainer := Draining(None))
    {
      hide Init, IsRun, ValidConfig;
      ConfigIsValid();
      g := g.(closer := Returned, drainer := Draining(None));
      Note(Action.Close(StartDrain));
    }

    lemma ClosedKnown()
      requires Valid()
      ensures g.closer.Returned? ==> closed && done && !g.drainer.NotStarted?
      ensures closed ==> err.Some? && pending == map[] && current == None && !currentSlot
      ensures g.drainer.Drained? ==> g.disp.Finished? && results == []
    {
      Known();
      ShapeKnown(c, View());
      hide AllInv, IsRun;
      assert CloserShape(c, g.closer, closed, done) && DrainerShape(c, g.drainer, g.closer, g.disp, results);
      assert CurrentShape(c, Sh());
    }

    /** Close, with Reads, workers and the dispatcher at work meanwhile. It waits for
        nobody; the response bodies it closes are those of module Bodies. */
    method Close()
      requires Valid() && (g.closer.NotCalled? || g.closer.Returned?)
      modifies this
      ensures Valid() && Promised() && old(acts) <= acts
      ensures closed && done && err.Some? && g.closer.Returned? && !g.drainer.NotStarted?
      ensures pending == map[] && current == None && !currentSlot
      ensures old(err).Some? ==> err == old(err)
      ensures old(err).None? && old(g.closer).NotCalled? ==> err == Some(PullClosed)
    {
      hide Valid, View, Promised;
      if g.closer.NotCalled? {
        EnterClose();
        MeanwhileClose();
        CancelPull();
        while g.closer != Releasing(map[], None)
          invariant Valid() && old(acts) <= acts && g.closer.Releasing? && g.closer.hand == None
          invariant err == if old(err).Some? then old(err) else Some(PullClosed)
          decreases |g.closer.left|
        {
          var i :| i in g.closer.left;
          ghost var left := g.closer.left;
          assert left.Keys == (left - {i}).Keys + {i};
          ReleasePending(i);
        }
        MeanwhileClose();
        GoDrain();
      }
      ClosedKnown();
      Promises();
    }

    /** releaseResult of a pending result. */
    method ReleasePending(i: nat)
      requires Valid() && g.closer.Releasing? && g.closer.hand == None && i in g.closer.left
      modifies this
      ensures Valid() && old(acts) <= acts && g.closer == Releasing(old(g.closer.left) - {i}, None)
      ensures old(err).Some? ==> err == old(err)
    {
      hide Valid, View;
      MeanwhileClose();
      PickNext(i);
      MeanwhileClose();
      if g.closer.hand.value.buf.Some? {
        OfferPicked();
        MeanwhileClose();
      }
      ReturnPicked();
    }

    // -------------------------------------------------------------- drainResults

    /** The others, as the drain sees them. */
    method MeanwhileDrain()
      requires Valid() && g.drainer.Draining?
      modifies this
      ensures Valid() && old(acts) <= acts && g.drainer == old(g.drainer)
      ensures Upstream(c, View()) <= Upstream(c, old(View()))
    {
      hide Upstream, Remaining, IsRun;
      Others(TheDrainer);
    }

    /** A step of the drain leaves fewer steps. */
    lemma DrainProgress(a: CloseAction)
      requires Valid() && CloseEnabled(View(), a) && ActorOf(Action.Close(a)) == TheDrainer
      ensures Upstream(c, CloseStep(c, View(), a)) < Upstream(c, View()) && ValidConfig(c)
    {
      hide Init, IsRun, ValidConfig, Upstream, CloseStep;
      ConfigIsValid();
      CloseUpstream(c, View(), a);
    }

    method DrainNext()
      requires Valid() && g.drainer == Draining(None) && results != []
      modifies this`results, this`g, this`run, this`acts
      ensures Valid() && old(acts) <= acts && g.drainer == Draining(Some(old(results)[0]))
      ensures Upstream(c, View()) < Upstream(c, old(View()))
    {
      hide IsRun, Upstream;
      DrainProgress(DrainReceive);
      g := g.(drainer := Draining(Some(results[0])));
      results := results[1..];
      Note(Action.Close(DrainReceive));
    }

    method OfferDrained()
      requires Valid() && g.drainer.Draining? && g.drainer.hand.Some? && g.drainer.hand.value.buf.Some?
      modifies this`books, this`g, this`run, this`acts
      ensures Valid() && old(acts) <= acts && g.drainer == Draining(Some(old(g.drainer.hand.value).(buf := None)))
      ensures Upstream(c, View()) < Upstream(c, old(View()))
    {
      hide IsRun, Upstream, Offer;
      DrainProgress(DrainOffer);
      var r := g.drainer.hand.value;
      books := Offer(c, books, r.buf);
      g := g.(drainer := Draining(Some(r.(buf := None))));
      Note(Action.Close(DrainOffer));
    }

    method ReturnDrained()
      requires Valid() && g.drainer.Draining? && g.drainer.hand.Some? && g.drainer.hand.value.buf == None
      modifies this`books, this`g, this`run, this`acts
      ensures Valid() && old(acts) <= acts && g.drainer == Draining(None)
      ensures Upstream(c, View()) < Upstream(c, old(View()))
    {
      hide IsRun, Upstream;
      SlotIsThere();
      DrainProgress(DrainReturn);
      books := Return(books);
      g := g.(drainer := Draining(None));
      Note(Action.Close(DrainReturn));
    }

    method EndDrain()
      requires Valid() && g.drainer == Draining(None) && results == [] && g.disp.Finished?
      modifies this`g, this`run, this`acts
      ensures Valid() && old(acts) <= acts && g == old(g).(drainer := Drained)
    {
      hide Init, IsRun, ValidConfig;
      ConfigIsValid();
      g := g.(drainer := Drained);
      Note(Action.Close(DrainEnd));
    }

    /** A drain that waits finds no result, and another goroutine of the pull has a step. */
    ghost predicate DrainMayWait()
      reads this
    {
      && g.drainer == Draining(None) && results == [] && !g.disp.Finished?
      && exists a :: Enabled(c, View(), a) && !a.Outer? && ActorOf(a) != TheDrainer
    }

    lemma DrainWaitsForOthers()
      requires Valid() && g.drainer == Draining(None) && results == [] && !g.disp.Finished?
      ensures DrainMayWait()
    {
      hide IsRun, AllInv, WorkEnabled, DispatchEnabled, ReadEnabled, Tiles;
      Known();
      var a := SomebodyMoves(c, View());
    }

    /** drainResults, with everybody else at work meanwhile. `waiting` tells that it has
        looked for a result in vain once more than `patience` times. */
    method DrainResults(patience: nat) returns (waiting: bool)
      requires Valid() && g.drainer == Draining(None)
      modifies this
      ensures Valid() && Promised() && old(acts) <= acts
      ensures if waiting then DrainMayWait() else g.drainer.Drained? && g.disp.Finished? && results == []
    {
      hide Valid, View, Upstream, Promised, DrainMayWait;
      var left := patience;
      while g.drainer.Draining?
        invariant Valid() && old(acts) <= acts && (g.drainer == Draining(None) || g.drainer.Drained?)
        decreases if g.drainer.Draining? then 1 else 0, Upstream(c, View()), left
      {
        MeanwhileDrain();
        if results != [] {
          ReleaseDrained();
        } else if g.disp.Finished? {
          EndDrain();
        } else if left == 0 {
          DrainWaitsForOthers();
          Promises();
          return true;
        } else {
          left := left - 1;
        }
      }
      ClosedKnown();
      Promises();
      waiting := false;
    }

    /** One result is received and released. */
    method ReleaseDrained()
      requires Valid() && g.drainer == Draining(None) && results != []
      modifies this
      ensures Valid() && old(acts) <= acts && g.drainer == Draining(None)
      ensures Upstream(c, View()) < Upstream(c, old(View()))
    {
      hide Valid, View, Upstream;
      DrainNext();
      MeanwhileDrain();
      if g.drainer.hand.value.buf.Some? {
        OfferDrained();
        MeanwhileDrain();
      }
      ReturnDrained();
    }
  }

  /** What releaseCurrentLocked gives back depends on the current chunk alone. */
  lemma SameRelease(c: Config, k: Books, sh: Shared, more: Shared)
    requires sh.current == more.current && sh.currentSlot == more.currentSlot && (sh.currentSlot ==> k.slots > 0)
    ensures ReleaseBooks(c, k, sh) == ReleaseBooks(c, k, more)
  {
  }

  lemma SparesChains(c: Config, me: Actor, s: State, t: State, u: State)
    requires Spares(c, me, s, t) && Spares(c, me, t, u)
    ensures Spares(c, me, s, u)
  {
    hide Remaining, Upstream;
  }

  /** Whoever holds a result or the current chunk holds its slot. */
  lemma SlotsReturnable(c: Config, s: State)
    requires AllInv(c, s)
    ensures s.sh.currentSlot ==> s.books.slots > 0
    ensures (s.reader.Refused? || s.reader.Dropping?) && s.reader.r.slot ==> s.books.slots > 0
    ensures s.closer.Releasing? && s.closer.hand.Some? ==> s.books.slots > 0
    ensures s.drainer.Draining? && s.drainer.hand.Some? ==> s.books.slots > 0
  {
    OwnersKnown(c, s);
    hide AllInv, Owned, Tiles;
    ReaderHasSlot(c, s);
    CloserHasSlot(c, s);
  }

  lemma ReaderHasSlot(c: Config, s: State)
    requires Owned(c, s) && (s.sh.currentSlot ==> s.sh.next >= 1)
    ensures s.sh.currentSlot ==> s.books.slots > 0
    ensures (s.reader.Refused? || s.reader.Dropping?) && s.reader.r.slot ==> s.books.slots > 0
  {
    hide Owned;
    if s.sh.currentSlot { HolderHasSlot(c, s, InCurrent, s.sh.next - 1, s.sh.current); }
    if (s.reader.Refused? || s.reader.Dropping?) && s.reader.r.slot {
      HolderHasSlot(c, s, AtReader, s.reader.r.index, s.reader.r.buf);
    }
  }

  lemma CloserHasSlot(c: Config, s: State)
    requires Owned(c, s) && HandsHoldSlots(s)
    ensures s.closer.Releasing? && s.closer.hand.Some? ==> s.books.slots > 0
    ensures s.drainer.Draining? && s.drainer.hand.Some? ==> s.books.slots > 0
  {
    hide Owned;
    if s.closer.Releasing? && s.closer.hand.Some? {
      HolderHasSlot(c, s, InCloserHand, s.closer.hand.value.index, s.closer.hand.value.buf);
    }
    if s.drainer.Draining? && s.drainer.hand.Some? {
      HolderHasSlot(c, s, AtDrainer, s.drainer.hand.value.index, s.drainer.hand.value.buf);
    }
  }

  /** The results that Close and the drain have in hand own their slots. */
  predicate HandsHoldSlots(s: State) {
    && (s.closer.Releasing? && s.closer.hand.Some? ==> s.closer.hand.value.slot)
    && (s.drainer.Draining? && s.drainer.hand.Some? ==> s.drainer.hand.value.slot)
  }

  lemma OwnersKnown(c: Config, s: State)
    requires AllInv(c, s)
    ensures Owned(c, s) && (s.sh.currentSlot ==> s.sh.next >= 1) && HandsHoldSlots(s)
  {
    ShapeKnown(c, s);
    assert CurrentShape(c, s.sh) && CloserShape(c, s.closer, s.sh.closed, s.done);
    assert DrainerShape(c, s.drainer, s.closer, s.disp, s.results);
    hide Owned, Shape, Window, Delivered;
  }
}
