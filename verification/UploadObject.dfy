/** uploadBody as an object: Read, pump and Close as the source has them, over its
    fields, with the other goroutines at work between any two of their mutex sections
    and channel operations. The object remembers its history, which is a run of the
    transition system, so what holds of every run holds of the object. */
module UploadObject {
  import opened Basics
  import opened ExactSize
  import opened UploadBody
  import opened UploadInvariant
  import opened UploadStream
  import opened UploadGuarantees
  import opened UploadErrors
  import opened Progress

  /** Where the goroutines are, and how far the source is. */
  datatype Places = Places(at: ReaderAt, pump: PumpAt, closer: CloserAt, handedOut: bool, exact: Exact, source: Source)

  datatype Actor = Reader | Pump | Closer

  function ActorOf(a: Action): Actor {
    match a
    case ByReader(_) => Reader
    case ByPump(_) => Pump
    case ByCloser(_) => Closer
  }

  class Body {
    const c: Config
    const wire: WireTracker?
    /** The fields that stateMu guards, updated one by one. */
    var own: Ownership
    var chunks: seq<Piece>
    var available: seq<nat>
    var current: Option<Piece>
    var started: bool
    var written: nat
    var mem: seq<seq<Octet>>
    var g: Places
    var delivered: seq<Octet>
    ghost var run: seq<State>
    ghost var acts: seq<Action>

    /** newUploadBody */
    constructor (c: Config, mem: seq<seq<Octet>>, wire: WireTracker?)
      requires |mem| == BufferCount(c) && forall b :: 0 <= b < |mem| ==> |mem[b]| == BufferSize(c)
      ensures this.c == c && this.wire == wire
      ensures Valid() && Init(c, View()) && acts == []
    {
      this.c, this.wire := c, wire;
      own := Ownership(false, false, false, false, false, 0, []);
      chunks, available, current, started, written, this.mem := [], [], None, false, 0, mem;
      g := Places(Idle, NotStarted, NotCalled, false, NewExact(c.expected, c.requireEof), Source(c.calls, c.start, None));
      delivered := [];
      new;
      run, acts := [View()], [];
    }

    function View(): State
      reads this
    {
      State(own, chunks, available, ReaderSide(g.at, current, started, delivered, g.handedOut), g.pump, g.closer,
            Feed(g.exact, g.source, mem))
    }

    /** The history is a run, and the object is where it ends. */
    ghost predicate Valid()
      reads this
    {
      IsRun(c, run, acts) && View() == run[|acts|] && written == |delivered|
    }

    lemma Known()
      requires Valid()
      ensures AllInv(c, View())
    {
      hide AllInv, View;
      EveryStateOfEveryRun(c, run, acts, |acts|);
    }

    /** A step has been taken: the object, changed in place, is where the step leads. */
    ghost method Note(a: Action)
      requires IsRun(c, run, acts) && written == |delivered|
      requires Enabled(c, run[|acts|], a) && View() == Step(c, run[|acts|], a)
      modifies this`run, this`acts
      ensures Valid() && acts == old(acts) + [a]
    {
      hide Enabled, Step, Init;
      RunExtends(c, run, acts, a, View());
      ghost var v := View();
      run, acts := run + [v], acts + [a];
    }

    // -------------------------------------------------------------- the other goroutines

    /** What the steps of the others leave to `me`. */
    predicate Mine(me: Actor, s: State)
      reads this
    {
      match me
      case Reader =>
        && g.at == s.reader.at && delivered == s.reader.delivered && started == s.reader.once
        && g.handedOut == s.reader.handedOut && (g.at.Idle? || current == s.reader.current)
        && (s.own.closeCalled ==> own.closeCalled)
      case Pump =>
        && (s.pump.NotStarted? || (g.pump == s.pump && g.exact == s.feed.exact && g.source == s.feed.source && mem == s.feed.mem))
        && (s.own.closeCalled ==> own.closeCalled)
      case Closer => g.closer == s.closer && own.closeCalled == s.own.closeCalled
    }

    /** The object takes the fields of a state. */
    method Become(s: State)
      modifies this`own, this`chunks, this`available, this`current, this`started, this`written, this`mem, this`g, this`delivered
      ensures View() == s && written == |delivered|
    {
      own, chunks, available := s.own, s.chunks, s.available;
      current, started, delivered, written := s.reader.current, s.reader.once, s.reader.delivered, |s.reader.delivered|;
      mem := s.feed.mem;
      g := Places(s.reader.at, s.pump, s.closer, s.reader.handedOut, s.feed.exact, s.feed.source);
    }

    /** Any number of steps of the other goroutines. */
    method Others(me: Actor)
      requires Valid()
      modifies this
      ensures Valid() && Mine(me, old(View())) && old(acts) <= acts
    {
      var turns: int := *;
      ghost var before := View();
      while turns > 0
        invariant Valid() && Mine(me, before) && old(acts) <= acts
        decreases turns
      {
        OneOther(me, before);
        turns := turns - 1;
      }
    }

    method OneOther(me: Actor, ghost before: State)
      requires Valid() && Mine(me, before)
      modifies this
      ensures Valid() && Mine(me, before) && old(acts) <= acts
    {
      var a: Action := *;
      if ActorOf(a) != me && Enabled(c, View(), a) {
        Known();
        OthersLeaveMine(c, View(), a, me);
        hide View, Step, Enabled, Valid, AllInv;
        var next := Step(c, View(), a);
        assert IsRun(c, run, acts) && View() == run[|acts|] by { ValidParts(); }
        StillMine(me, before, next);
        Become(next);
        Note(a);
      }
    }

    lemma ValidParts()
      requires Valid()
      ensures IsRun(c, run, acts) && View() == run[|acts|]
    {}

    lemma StillMine(me: Actor, before: State, next: State)
      requires Mine(me, before) && Leaves(me, View(), next)
      ensures Leaves(me, before, next)
    {}

    // -------------------------------------------------------------- sections of Read

    /** readMu.Lock */
    method LockRead(m: nat)
      requires Valid() && g.at.Idle? && m > 0
      modifies this`g, this`run, this`acts
      ensures Valid() && old(acts) <= acts && g == old(g).(at := Locked(m))
    {
      g := g.(at := Locked(m));
      Note(ByReader(Lock(m)));
    }

    /** beginRead */
    method BeginRead() returns (ok: bool)
      requires Valid() && g.at.Locked?
      modifies this`own, this`g, this`run, this`acts
      ensures Valid() && old(acts) <= acts && ok == !own.closeCalled && own.closeCalled == old(own.closeCalled)
      ensures g == old(g).(at := if ok then Starting(old(g.at.m)) else Refused)
    {
      ok := !own.closeCalled;
      if ok {
        own := own.(readActive := true);
        g := g.(at := Starting(g.at.m));
      } else {
        g := g.(at := Refused);
      }
      Note(ByReader(UploadBody.Begin));
    }

    /** start.Do(startPump) */
    method StartPump()
      requires Valid() && g.at.Starting?
      modifies this`started, this`own, this`g, this`run, this`acts
      ensures Valid() && old(acts) <= acts && g.at == Looping(old(g.at.m)) && g.handedOut == old(g.handedOut)
      ensures g.pump == if old(started) || own.closeCalled then old(g.pump) else Setup
    {
      g := g.(at := Looping(g.at.m));
      if !started {
        started := true;
        if !own.closeCalled {
          own := own.(pumpStarted := true);
          g := g.(pump := Setup);
        }
      }
      Note(ByReader(Start));
    }

    /** copy: as much of the staged piece as p takes. */
    method CopyStaged(p: array<Octet>, piece: Piece) returns (n: nat)
      requires piece.Data? && piece.from <= piece.to && piece.buf < |mem| && piece.to <= |mem[piece.buf]|
      modifies p
      ensures n == Min(p.Length, piece.to - piece.from)
      ensures p[..n] == Bytes(mem, piece.(to := piece.from + n))
    {
      n := Min(p.Length, piece.to - piece.from);
      forall i | 0 <= i < n { p[i] := mem[piece.buf][piece.from + i]; }
      assert p[..n] == mem[piece.buf][piece.from..piece.from + n];
    }

    /** The piece being read lies in its buffer. */
    lemma CurrentFits()
      requires Valid() && g.at.Looping? && current.Some? && !own.closeCalled
      ensures current.value.Data? && PieceFits(mem, current.value) && current.value.from < current.value.to
      ensures !g.handedOut
    {
      Known();
      assert Line(View())[0] == current.value;
    }

    /** The section that would copy, after Close. */
    method CopyRefused()
      requires Valid() && g.at.Looping? && current.Some? && own.closeCalled
      modifies this`g, this`run, this`acts
      ensures Valid() && old(acts) <= acts && g == old(g).(at := Finishing(0, NoError, true))
    {
      g := g.(at := Finishing(0, NoError, true));
      Note(ByReader(Copy));
    }

    /** The section that copies staged bytes into p. */
    method CopyOut(p: array<Octet>) returns (n: nat)
      requires Valid() && g.at.Looping? && current.Some? && p.Length == g.at.m > 0 && !own.closeCalled
      modifies this`current, this`written, this`delivered, this`g, this`run, this`acts, p
      ensures Valid() && old(acts) <= acts
      ensures 0 < n <= p.Length && delivered == old(delivered) + p[..n] && g.at == Copied(n) && !g.handedOut && !old(g.handedOut)
      ensures n < p.Length ==> current.Some? && current.value.Data? && current.value.from == current.value.to
    {
      hide Bytes, AllInv, IsRun, Init;
      CurrentFits();
      var piece := current.value;
      n := CopyStaged(p, piece);
      current := Some(piece.(from := piece.from + n));
      written := written + n;
      delivered, g := delivered + p[..n], g.(at := Copied(n));
      Note(ByReader(Copy));
    }

    /** The select of Read, when it takes a chunk. */
    method ReceiveChunk()
      requires Valid() && g.at.Looping? && current.None? && chunks != []
      modifies this`chunks, this`g, this`run, this`acts
      ensures Valid() && old(acts) <= acts
      ensures g == old(g).(at := Received(old(g.at.m), old(chunks)[0]))
    {
      g := g.(at := Received(g.at.m, chunks[0]));
      chunks := chunks[1..];
      Note(ByReader(Receive));
    }

    /** The select of Read, when it sees closed. */
    method NoticeClosed()
      requires Valid() && g.at.Looping? && current.None? && own.closeCalled
      modifies this`g, this`run, this`acts
      ensures Valid() && old(acts) <= acts && g == old(g).(at := Finishing(0, NoError, true))
    {
      g := g.(at := Finishing(0, NoError, true));
      Note(ByReader(SeeClosed));
    }

    /** What Read does with a chunk it has taken. */
    method InspectChunk()
      requires Valid() && g.at.Received?
      modifies this`current, this`g, this`run, this`acts
      ensures Valid() && old(acts) <= acts && var piece := old(g.at.piece);
        g == if own.closeCalled then old(g).(at := Finishing(0, NoError, true))
             else if piece.Last? then old(g).(at := Finishing(0, piece.err, false), handedOut := true)
             else old(g).(at := Looping(old(g.at.m)))
      ensures g.at.Looping? ==> current == Some(old(g.at.piece))
    {
      var piece := g.at.piece;
      if own.closeCalled {
        g := g.(at := Finishing(0, NoError, true));
      } else if piece.Last? {
        g := g.(at := Finishing(0, piece.err, false), handedOut := true);
      } else {
        current := Some(piece);
        g := g.(at := Looping(g.at.m));
      }
      Note(ByReader(Inspect));
    }

    /** recycleCurrent; the history is not told yet. */
    method RecycleCurrent(send: bool)
      requires CanRecycle(View(), send) && (current.Some? ==> current.value.Data?)
      modifies this`current, this`available
      ensures View() == Recycled(old(View()), send) && current == None
    {
      if current.None? { return; }
      var buffer := current.value.buf;
      current := None;
      if send { available := available + [buffer]; }
    }

    /** Whether a select over available and closed can pick the send; one of the two it can. */
    method PickRecycle() returns (send: bool)
      requires Valid()
      ensures CanRecycle(View(), send) && (current.Some? ==> current.value.Data?)
    {
      Known();
      SendsNeverBlock(c, View());
      assert ShapeInv(View()) && |View().available| == |available|;
      send := *;
      if !own.closeCalled { send := true; }
    }

    /** The piece being read, behind a copy. */
    lemma CopiedPiece()
      requires Valid() && g.at.Copied?
      ensures current.Some? && current.value.Data? && current.value.from <= current.value.to
    {
      Known();
      assert ReaderShape(View().reader);
    }

    /** The end of a Read that handed bytes over and left some of the piece. */
    method KeepPiece()
      requires Valid() && g.at.Copied? && current.Some? && current.value.Data? && current.value.from < current.value.to
      modifies this`g, this`run, this`acts
      ensures Valid() && old(acts) <= acts && g == old(g).(at := Finishing(old(g.at.n), NoError, false))
    {
      hide AllInv, IsRun, Init;
      var send := PickRecycle();
      g := g.(at := Finishing(g.at.n, NoError, false));
      Note(ByReader(Settle(send)));
    }

    /** The end of a Read that used the piece up: the buffer goes back, its error comes out. */
    method GivePieceBack()
      requires Valid() && g.at.Copied? && current.Some? && current.value.Data? && current.value.from == current.value.to
      modifies this`current, this`available, this`g, this`run, this`acts
      ensures Valid() && old(acts) <= acts && var err := old(current).value.err;
        g == old(g).(at := Finishing(old(g.at.n), err, false), handedOut := old(g.handedOut) || err != NoError)
      ensures current.None?
    {
      hide AllInv, IsRun, Init;
      var send := PickRecycle();
      var n, err := g.at.n, current.value.err;
      RecycleCurrent(send);
      g := g.(at := Finishing(n, err, false), handedOut := g.handedOut || err != NoError);
      Note(ByReader(Settle(send)));
    }

    method SettleRead()
      requires Valid() && g.at.Copied?
      modifies this`current, this`available, this`g, this`run, this`acts
      ensures Valid() && old(acts) <= acts
      ensures g.at.Finishing? && g.at.n == old(g.at.n) && !g.at.refused
      ensures g.handedOut == (old(g.handedOut) || g.at.err != NoError)
      ensures old(current).Some? && old(current).value.Data? && old(current).value.from == old(current).value.to ==> current.None?
    {
      CopiedPiece();
      if current.value.from < current.value.to { KeepPiece(); } else { GivePieceBack(); }
    }

    /** releaseIfIdleLocked and releaseLocked */
    method ReleaseIfIdleLocked()
      modifies this`own
      ensures own == ReleaseIfIdle(old(own))
    {
      if own.closeCalled && (!own.pumpStarted || own.pumpDone) && !own.readActive {
        if !own.released {
          own := own.(released := true);
          own := own.(offered := own.offered + Upto(own.bufferCount));
          own := own.(bufferCount := 0);
        }
      }
    }

    /** finishRead, and the unlock of readMu */
    method FinishRead()
      requires Valid() && g.at.Finishing?
      modifies this`current, this`available, this`own, this`g, this`run, this`acts
      ensures Valid() && old(acts) <= acts && g.at.Idle? && g.handedOut == old(g.handedOut) && g.exact == old(g.exact)
      ensures own.closeCalled == old(own.closeCalled)
      ensures old(IsVerdict(g.at.err)) ==> IsVerdict(old(g.at.err))
      ensures old(current).None? ==> current.None?
    {
      ReleaseKeepsClose(own.(readActive := false));
      hide AllInv, IsRun, Init, ReleaseIfIdle, Recycled;
      var send := PickRecycle();
      if own.closeCalled { RecycleCurrent(send); }
      own := own.(readActive := false);
      ReleaseIfIdleLocked();
      g := g.(at := Idle);
      Note(ByReader(Finish(send)));
    }

    /** A Read that beginRead refused gives a staged buffer back. */
    method RefuseRead()
      requires Valid() && g.at.Refused?
      modifies this`current, this`available, this`g, this`run, this`acts
      ensures Valid() && old(acts) <= acts && g.at.Idle? && g.handedOut == old(g.handedOut)
    {
      hide AllInv, IsRun, Init;
      var send := PickRecycle();
      RecycleCurrent(send);
      g := g.(at := Idle);
      Note(ByReader(Refuse(send)));
    }

    /** What every history implies: release is published exactly when nobody can touch the
        source, and the bytes handed over are the source's, in order. */
    ghost predicate Promised()
      reads this
    {
      && (own.released <==> Idling(own))
      && |delivered| <= c.expected && delivered == Prefix(c, |delivered|)
    }

    lemma Promises()
      requires Valid()
      ensures Promised()
    {
      hide AllInv;
      DeliveredInOrder(c, run, acts, |acts|);
      ReleasedMeansIdle(c, run, acts, |acts|);
      OwnershipParts();
    }

    lemma OwnershipParts()
      requires Valid()
      ensures own.released <==> Idling(own)
    {
      Known();
    }

    // -------------------------------------------------------------- Read

    /** The others, as Read sees them. */
    method Meanwhile()
      requires Valid()
      modifies this
      ensures Valid() && old(acts) <= acts
      ensures g.at == old(g.at) && g.handedOut == old(g.handedOut) && delivered == old(delivered)
      ensures !g.at.Idle? ==> current == old(current)
      ensures old(own.closeCalled) ==> own.closeCalled
    {
      Others(Reader);
    }

    /** What a Read that ended with `err` has told its caller of the terminal error: it is
        told once. */
    twostate predicate TellsError(err: ReadError)
      reads this
    {
      g.handedOut == (old(g.handedOut) || err != NoError) && (old(g.handedOut) ==> err == NoError)
    }

    /** What the error of a Read says: end of file comes with all the declared bytes and a
        content exact reader, another error with one that is not; and over a well-behaved
        source it is end of file exactly if the source has the right size. */
    ghost predicate IsVerdict(err: ReadError)
      reads this
    {
      && (err == Eof ==> !g.exact.failed && g.exact.remaining == 0 && |delivered| == c.expected)
      && (err == Broken ==> g.exact.failed)
      && forall length: nat :: err != NoError && WellBehaved(c.script, length) && c.start <= length && c.expected > 0 ==>
           (err == Eof <==> RightSize(c.expected, c.requireEof, c.start, length))
    }

    lemma NoErrorIsVerdict()
      ensures IsVerdict(NoError)
    {}

    lemma ResultIsVerdict()
      requires Valid() && g.at.Finishing?
      ensures IsVerdict(g.at.err)
    {
      hide Init, Enabled, Step, WellBehaved, RightSize;
      TerminalErrorIsTheVerdict(c, run, acts, |acts|);
      forall length: nat | g.at.err != NoError && WellBehaved(c.script, length) && c.start <= length && c.expected > 0
        ensures g.at.err == Eof <==> RightSize(c.expected, c.requireEof, c.start, length)
      {
        TerminalErrorJudgesTheSource(c, run, acts, |acts|, length);
      }
    }

    /** The wire tracker hears of every byte handed over, unless it was stopped. */
    twostate predicate Counted(n: nat)
      reads wire
    {
      wire != null ==> wire.sum == old(wire.sum) + if old(wire.stopped) then 0 else n
    }

    /** A Read that waits finds nothing staged; unless the terminal error has been handed
        out, the pump has a step to take. */
    ghost predicate ReadMayWait()
      reads this
    {
      && g.at.Looping? && current.None? && chunks == [] && !own.closeCalled
      && (!g.handedOut ==> PumpCanMove(View()))
    }

    lemma ReadWaitsForPump()
      requires Valid() && g.at.Looping? && current.None? && chunks == [] && !own.closeCalled
      ensures ReadMayWait()
    {
      hide AllInv;
      Known();
      if !g.handedOut { WaitingReadIsServed(c, View()); }
    }

    /** Read, with Close and the pump at work meanwhile: it hands over the next bytes of
        the source. `waiting` tells that it has looked in vain once more than `patience`
        times, and still waits for a chunk. */
    method Read(p: array<Octet>, patience: nat) returns (n: nat, err: ReadError, refused: bool, waiting: bool)
      requires Valid() && g.at.Idle?
      modifies this, p, if wire == null then {} else {wire}
      ensures Valid() && Promised() && old(acts) <= acts && (!waiting ==> g.at.Idle?)
      ensures n <= p.Length && delivered == old(delivered) + p[..n]
      ensures p[..n] == Prefix(c, |delivered|)[|old(delivered)|..]
      ensures !waiting ==> TellsError(err)
      ensures refused ==> own.closeCalled && n == 0 && err == NoError
      ensures waiting ==> ReadMayWait() && n == 0
      ensures p.Length > 0 && !waiting && !refused ==> n > 0 || err != NoError
      ensures !waiting ==> IsVerdict(err)
      ensures p.Length > 0 && old(own.closeCalled) ==> refused
      ensures 0 < n < p.Length ==> current.None?
      ensures Counted(n)
    {
      hide Valid, View, Promised, AllInv, IsVerdict, ReadMayWait;
      n, err, refused, waiting := 0, NoError, false, false;
      if p.Length > 0 {
        LockRead(p.Length);
        Meanwhile();
        var ok := BeginRead();
        Meanwhile();
        if ok {
          StartPump();
          n, err, refused, waiting := Serve(p, patience);
        } else {
          RefuseRead();
          refused := true;
        }
      }
      if err == NoError { NoErrorIsVerdict(); }
      Promises();
      NextBytes(old(delivered), p[..n]);
    }

    lemma NextBytes(before: seq<Octet>, more: seq<Octet>)
      requires Promised() && delivered == before + more
      ensures more == Prefix(c, |delivered|)[|before|..]
    {
      assert delivered[|before|..] == more;
    }

    /** The loop of Read. */
    method Serve(p: array<Octet>, patience: nat) returns (n: nat, err: ReadError, refused: bool, waiting: bool)
      requires Valid() && g.at == Looping(p.Length) && p.Length > 0
      modifies this, p, if wire == null then {} else {wire}
      ensures Valid() && old(acts) <= acts && (!waiting ==> g.at.Idle?)
      ensures n <= p.Length && delivered == old(delivered) + p[..n]
      ensures !waiting ==> TellsError(err)
      ensures refused ==> own.closeCalled && n == 0 && err == NoError
      ensures waiting ==> ReadMayWait() && n == 0
      ensures !waiting && !refused ==> n > 0 || err != NoError
      ensures !waiting ==> IsVerdict(err)
      ensures 0 < n < p.Length ==> current.None?
      ensures Counted(n)
    {
      hide Valid, View, IsVerdict;
      n, err, refused, waiting := 0, NoError, false, false;
      var left := patience;
      while g.at.Looping?
        invariant Valid() && old(acts) <= acts && (g.at == Looping(p.Length) || g.at.Finishing?)
        invariant delivered == old(delivered)
        invariant g.at.Looping? ==> g.handedOut == old(g.handedOut)
        invariant g.at.Finishing? ==> TellsError(g.at.err) && (if g.at.refused then own.closeCalled && g.at.err == NoError else g.at.err != NoError)
        invariant wire != null ==> wire.stopped == old(wire.stopped) && wire.sum == old(wire.sum)
        decreases left, if g.at.Finishing? then 0 else if current.Some? then 1 else 2
      {
        Meanwhile();
        if current.None? && chunks == [] && !own.closeCalled {
          if left == 0 {
            ReadWaitsForPump();
            return 0, NoError, false, true;
          }
          left := left - 1;
        } else if current.None? {
          Await();
        } else if own.closeCalled {
          CopyRefused();
        } else {
          n, err := HandOver(p);
          return n, err, false, false;
        }
      }
      refused, err := g.at.refused, g.at.err;
      Meanwhile();
      ResultIsVerdict();
      FinishRead();
    }

    /** The select of Read, when closed or a chunk is there to be taken. */
    method Await()
      requires Valid() && g.at.Looping? && current.None? && (chunks != [] || own.closeCalled)
      modifies this
      ensures Valid() && old(acts) <= acts && delivered == old(delivered)
      ensures (g.at == old(g.at) && current.Some?) || g.at.Finishing?
      ensures g.at.Looping? ==> g.handedOut == old(g.handedOut)
      ensures g.at.Finishing? ==> TellsError(g.at.err) && (if g.at.refused then own.closeCalled && g.at.err == NoError else g.at.err != NoError)
    {
      hide Valid, View;
      var closedFirst: bool := *;
      if own.closeCalled && (closedFirst || chunks == []) {
        NoticeClosed();
      } else {
        ReceiveChunk();
        Meanwhile();
        LastHasError();
        InspectChunk();
      }
    }

    /** A chunk without data carries an error, until Close. */
    lemma LastHasError()
      requires Valid() && g.at.Received?
      ensures !own.closeCalled && g.at.piece.Last? ==> g.at.piece.err != NoError && !g.handedOut
    {
      Known();
      assert current.None? ==> Line(View()) != [] && Line(View())[0] == g.at.piece;
    }

    /** Copying, and the end of a Read that handed bytes over. */
    method HandOver(p: array<Octet>) returns (n: nat, err: ReadError)
      requires Valid() && g.at == Looping(p.Length) && p.Length > 0 && current.Some? && !own.closeCalled
      modifies this, p, if wire == null then {} else {wire}
      ensures Valid() && old(acts) <= acts && g.at.Idle?
      ensures 0 < n <= p.Length && delivered == old(delivered) + p[..n]
      ensures TellsError(err) && Counted(n) && IsVerdict(err) && (n < p.Length ==> current.None?)
    {
      hide Valid, View, IsVerdict;
      n := CopyOut(p);
      Meanwhile();
      if wire != null { wire.Add(n); }
      SettleRead();
      err := g.at.err;
      Meanwhile();
      ResultIsVerdict();
      FinishRead();
    }

    // -------------------------------------------------------------- sections of pump

    /** The others, as the pump sees them. */
    method MeanwhilePump()
      requires Valid() && !g.pump.NotStarted?
      modifies this
      ensures Valid() && old(acts) <= acts
      ensures g.pump == old(g.pump) && g.exact == old(g.exact) && g.source == old(g.source) && mem == old(mem)
      ensures old(own.closeCalled) ==> own.closeCalled
    {
      Others(Actor.Pump);
    }

    /** Acquiring the staging buffers. */
    method Acquire()
      requires Valid() && g.pump.Setup?
      modifies this`own, this`available, this`g, this`run, this`acts
      ensures Valid() && old(acts) <= acts
      ensures g == old(g).(pump := if c.expected == 0 then Sending(Last(Eof), None) else Top)
    {
      hide IsRun, Init;
      if c.expected == 0 {
        g := g.(pump := Sending(Last(Eof), None));
      } else {
        var count := BufferCount(c);
        own := own.(bufferCount := count);
        for i := 0 to count
          invariant available == old(available) + Upto(i)
          modifies this`available
        {
          assert Upto(i + 1) == Upto(i) + [i];
          available := available + [i];
        }
        g := g.(pump := Top);
      }
      Note(ByPump(UploadBody.Acquire));
    }

    /** Taking a buffer. */
    method TakeBuffer()
      requires Valid() && g.pump.Top? && available != []
      modifies this`available, this`g, this`run, this`acts
      ensures Valid() && old(acts) <= acts && g == old(g).(pump := Check(old(available)[0]))
    {
      g := g.(pump := Check(available[0]));
      available := available[1..];
      Note(ByPump(Take));
    }

    method StopAtClosed()
      requires Valid() && g.pump.Top? && own.closeCalled
      modifies this`g, this`run, this`acts
      ensures Valid() && old(acts) <= acts && g == old(g).(pump := Exiting(None))
    {
      g := g.(pump := Exiting(None));
      Note(ByPump(StopTaking));
    }

    /** fillBuffer's look at closed. */
    method LookAtClosedFirst()
      requires Valid() && g.pump.Check?
      modifies this`g, this`run, this`acts
      ensures Valid() && old(acts) <= acts && var buf := old(g.pump.buf);
        g == old(g).(pump := if own.closeCalled then Exiting(Some(buf)) else Reading(buf))
    {
      g := g.(pump := if own.closeCalled then Exiting(Some(g.pump.buf)) else Reading(g.pump.buf));
      Note(ByPump(LookAtClosed));
    }

    /** The buffer that is filled lies in memory, and the source's answer fits into it. */
    lemma FillFits()
      requires Valid() && g.pump.Reading?
      ensures g.pump.buf < |mem| && |mem[g.pump.buf]| == BufferSize(c) && c.expected > 0
      ensures ReadOnce(c.script, g.exact, g.source, BufferSize(c)).n <= BufferSize(c)
      ensures !g.exact.failed && g.exact.emptyReads < MAX_EMPTY
    {
      Known();
      assert StreamInv(c, View()) && BuffersInv(c, View()) && ReaderShape(View().reader);
      hide AllInv, ReadOnce;
      PumpWritesOutsideLine(c, View());
      ReadKeepsAccounts(c.script, g.exact, g.source, BufferSize(c), c.start);
    }

    /** One read of the source into a staging buffer. What lies behind the bytes it
        reports may be overwritten too. */
    method ReadSourceOnce()
      requires Valid() && g.pump.Reading?
      modifies this`mem, this`g, this`run, this`acts
      ensures Valid() && old(acts) <= acts
      ensures var o := ReadOnce(c.script, old(g.exact), old(g.source), BufferSize(c));
        g == old(g).(exact := o.x, source := o.s, pump := Batch(old(g.pump.buf), o.n, o.err))
    {
      hide ReadOnce, IsRun, Init;
      FillFits();
      var buf := g.pump.buf;
      var o := ReadOnce(c.script, g.exact, g.source, BufferSize(c));
      var scratch: seq<Octet>, was, pos := *, mem[buf], g.source.pos;
      var filled := seq(BufferSize(c), i requires 0 <= i < |was| =>
        if i < o.n then c.content(pos + i) else if i < |scratch| then scratch[i] else was[i]);
      mem := mem[buf := filled];
      g := g.(exact := o.x, source := o.s, pump := Batch(buf, o.n, o.err));
      Note(ByPump(ReadSource(filled)));
    }

    /** The send on chunks. */
    method Enqueue()
      requires Valid() && g.pump.Sending? && |chunks| < BUFFER_COUNT
      modifies this`chunks, this`g, this`run, this`acts
      ensures Valid() && old(acts) <= acts && var was := old(g.pump);
        g == old(g).(pump := if was.piece.err == NoError then Top else Exiting(was.keeps))
    {
      chunks := chunks + [g.pump.piece];
      g := g.(pump := if g.pump.piece.err == NoError then Top else Exiting(g.pump.keeps));
      Note(ByPump(Send));
    }

    method StopAtClosedWithPiece()
      requires Valid() && g.pump.Sending? && own.closeCalled
      modifies this`g, this`run, this`acts
      ensures Valid() && old(acts) <= acts && g == old(g).(pump := Exiting(Kept(old(g.pump))))
    {
      g := g.(pump := Exiting(Kept(g.pump)));
      Note(ByPump(StopSending));
    }

    lemma RoomForPiece()
      requires Valid() && g.pump.Sending? && !own.closeCalled
      ensures |chunks| < BUFFER_COUNT
    {
      hide AllInv;
      Known();
      SendsNeverBlock(c, View());
    }

    /** The select around a send on chunks. Until Close there is room. */
    method SendPiece()
      requires Valid() && g.pump.Sending?
      modifies this`chunks, this`g, this`run, this`acts
      ensures Valid() && old(acts) <= acts
      ensures g == old(g).(pump := g.pump) && (g.pump.Exiting? || (g.pump.Top? && old(g.pump).piece.err == NoError))
    {
      hide Valid, View;
      var closedFirst: bool := *;
      if !own.closeCalled { RoomForPiece(); }
      if own.closeCalled && (closedFirst || |chunks| >= BUFFER_COUNT) {
        StopAtClosedWithPiece();
      } else {
        Enqueue();
      }
    }

    /** The deferred section of pump. */
    method ExitPump()
      requires Valid() && g.pump.Exiting?
      modifies this`own, this`g, this`run, this`acts
      ensures Valid() && old(acts) <= acts && g.pump.Done?
    {
      hide IsRun, Init, ReleaseIfIdle;
      own := own.(pumpDone := true);
      ReleaseIfIdleLocked();
      g := g.(pump := Done(g.pump.keeps));
      Note(ByPump(Exit));
    }

    // -------------------------------------------------------------- pump

    /** What a pump leaves behind that nobody stopped: the terminal error is last in line,
        or a Read has taken it and nothing is left. */
    ghost predicate ErrorInLine()
      reads this
    {
      own.closeCalled || if g.handedOut then Line(View()) == [] else Ends(Line(View()))
    }

    lemma PumpLeftError()
      requires Valid() && g.pump.Done?
      ensures ErrorInLine()
    {
      Known();
    }

    /** A pump that waits for a buffer has left something for the reader to take. */
    ghost predicate PumpMayWait()
      reads this
    {
      g.pump.Top? && available == [] && !own.closeCalled && Line(View()) != []
    }

    lemma PumpWaitsForReader()
      requires Valid() && g.pump.Top? && available == [] && !own.closeCalled
      ensures PumpMayWait()
    {
      Known();
      TopNeedsBytes(c, View());
      AllBuffersSize(c);
      assert |Held(View())| == BufferCount(c);
      assert Line(View()) == [] ==> QueueHolds(chunks) == ReaderHolds(View().reader) == multiset{};
    }

    /** pump, with Read and Close at work meanwhile. `waiting` tells that it has looked for
        a buffer in vain once more than `patience` times. */
    method Pump(patience: nat) returns (waiting: bool)
      requires Valid() && g.pump.Setup?
      modifies this
      ensures Valid() && Promised() && old(acts) <= acts
      ensures if waiting then PumpMayWait() else g.pump.Done? && ErrorInLine()
    {
      hide Valid, View, Promised, PumpMayWait, ErrorInLine;
      MeanwhilePump();
      Acquire();
      MeanwhilePump();
      waiting := false;
      if c.expected == 0 { SendPiece(); } else { waiting := PumpChunks(patience); }
      if !waiting {
        MeanwhilePump();
        ExitPump();
        PumpLeftError();
      }
      Promises();
    }

    /** The loop of pump. */
    method PumpChunks(patience: nat) returns (waiting: bool)
      requires Valid() && g.pump.Top?
      modifies this
      ensures Valid() && old(acts) <= acts
      ensures if waiting then PumpMayWait() else g.pump.Exiting?
    {
      hide Valid, View, PumpMayWait;
      var left := patience;
      while !g.pump.Exiting?
        invariant Valid() && old(acts) <= acts && (g.pump.Top? || g.pump.Exiting?)
        decreases Budget(g.exact), left, if g.pump.Top? then 1 else 0
      {
        MeanwhilePump();
        var closedFirst: bool := *;
        if own.closeCalled && (closedFirst || available == []) {
          StopAtClosed();
        } else if available != [] {
          TakeBuffer();
          FillBuffer();
          if g.pump.Sending? {
            MeanwhilePump();
            SendPiece();
          }
        } else {
          if left == 0 {
            PumpWaitsForReader();
            return true;
          }
          left := left - 1;
        }
      }
      waiting := false;
    }

    /** fillBuffer: empty reads are waited through, as many as the exact reader stands. */
    method FillBuffer()
      requires Valid() && g.pump.Check?
      modifies this
      ensures Valid() && old(acts) <= acts && (g.pump.Exiting? || g.pump.Sending?)
      ensures (g.pump.Exiting? ==> own.closeCalled) && Budget(g.exact) <= Budget(old(g.exact))
      ensures g.pump.Sending? && g.pump.piece.err == NoError ==> Budget(g.exact) < Budget(old(g.exact))
    {
      hide Valid, View, ReadOnce, Patience;
      while g.pump.Check?
        invariant Valid() && old(acts) <= acts && (g.pump.Check? || g.pump.Sending?)
        invariant Budget(g.exact) <= Budget(old(g.exact))
        invariant g.pump.Sending? && g.pump.piece.err == NoError ==> Budget(g.exact) < Budget(old(g.exact))
        decreases Budget(g.exact), if g.pump.Check? then 1 else 0
      {
        MeanwhilePump();
        LookAtClosedFirst();
        if g.pump.Exiting? { return; }
        MeanwhilePump();
        FillFits();
        OkUsesPatience(c.script, g.exact, g.source, BufferSize(c));
        ReadSourceOnce();
      }
    }

    // -------------------------------------------------------------- Close

    /** The first Close, up to its unlock of stateMu. */
    method CloseLocked()
      requires Valid() && g.closer.NotCalled?
      modifies this`own, this`g, this`run, this`acts
      ensures Valid() && old(acts) <= acts && own.closeCalled && g.closer.Trying?
    {
      hide AllInv, IsRun, Init, ReleaseIfIdle;
      own := own.(closeCalled := true);
      ReleaseIfIdleLocked();
      g := g.(closer := Trying);
      assert own.closeCalled by { ReleaseKeepsClose(old(own).(closeCalled := true)); }
      Note(ByCloser(CloseBody));
    }

    lemma ReleaseKeepsClose(o: Ownership)
      ensures ReleaseIfIdle(o).closeCalled == o.closeCalled
    {}

    /** TryLock and, if no Read holds the lock, recycleCurrent. */
    method TryToRecycle()
      requires Valid() && g.closer.Trying?
      modifies this`current, this`available, this`g, this`run, this`acts
      ensures Valid() && old(acts) <= acts && g.closer.Returned?
    {
      hide AllInv, IsRun, Init;
      var send := PickRecycle();
      if g.at.Idle? { RecycleCurrent(send); }
      g := g.(closer := Returned);
      Note(ByCloser(TryRecycle(send)));
    }

    /** Close, with Read and the pump at work meanwhile. Nobody waits for anybody. */
    method Close()
      requires Valid() && !g.closer.Trying?
      modifies this
      ensures Valid() && Promised() && old(acts) <= acts && own.closeCalled
    {
      Known();
      assert OwnershipInv(c, View());
      if !own.closeCalled {
        CloseLocked();
        Others(Closer);
        TryToRecycle();
      }
      Promises();
    }
  }

  /** Reads of the source that remain before it has been decided on. */
  function Budget(x: Exact): nat { Max(Patience(x), 0) }

  /** A step from s to t leaves to `me` what is its own. */
  predicate Leaves(me: Actor, s: State, t: State) {
    match me
    case Reader =>
      && t.reader.at == s.reader.at && t.reader.delivered == s.reader.delivered && t.reader.once == s.reader.once
      && t.reader.handedOut == s.reader.handedOut && (s.reader.at.Idle? || t.reader.current == s.reader.current)
      && (s.own.closeCalled ==> t.own.closeCalled)
    case Pump =>
      && (s.pump.NotStarted? || (t.pump == s.pump && t.feed == s.feed))
      && (s.own.closeCalled ==> t.own.closeCalled)
    case Closer => t.closer == s.closer && t.own.closeCalled == s.own.closeCalled
  }

  lemma OthersLeaveMine(c: Config, s: State, a: Action, me: Actor)
    requires AllInv(c, s) && Enabled(c, s, a) && ActorOf(a) != me
    ensures Leaves(me, s, Step(c, s, a))
  {
    hide StreamInv, BuffersInv, ShapeInv, ReadOnce;
  }
}
