/** What every step of an upload body keeps: the release condition, where each
    staging buffer is, and that the staged pieces continue the delivered bytes. */
module UploadInvariant {
  import opened Basics
  import opened ExactSize
  import opened UploadBody

  // ---------------------------------------------------------------- ownership of the source

  predicate Active(at: ReaderAt) { !at.Idle? && !at.Locked? && !at.Refused? }

  predicate PastSetup(p: PumpAt) { !p.NotStarted? && !p.Setup? }

  /** `released` is published exactly when Close was called, no Read is active, and
      the pump never started or is done. */
  predicate OwnershipInv(c: Config, s: State) {
    && (s.own.released <==> Idling(s.own))
    && (s.own.pumpStarted <==> !s.pump.NotStarted?)
    && (s.own.pumpDone <==> s.pump.Done?)
    && (s.own.readActive <==> Active(s.reader.at))
    && (s.own.closeCalled <==> !s.closer.NotCalled?)
    && (s.reader.at.Refused? ==> s.own.closeCalled)
    && (s.pump.Sending? && s.pump.piece.Last? && s.pump.keeps.None? ==> c.expected == 0)
    && (s.pump.Sending? && c.expected == 0 ==> s.pump.piece == Last(Eof))
    && (s.pump.Top? || s.pump.Check? || s.pump.Reading? ==> c.expected > 0)
    && (s.reader.at.Looping? || s.reader.at.Received? || s.reader.at.Copied? ==> s.reader.once)
    && (s.reader.once && s.pump.NotStarted? ==> s.own.closeCalled)
    && (!s.reader.once ==> s.pump.NotStarted?)
    && s.own.bufferCount == (if PastSetup(s.pump) && !s.own.released then BufferCount(c) else 0)
    && s.own.offered == (if PastSetup(s.pump) && s.own.released then Upto(BufferCount(c)) else [])
  }

  lemma ReaderKeepsOwnership(c: Config, s: State, a: ReaderAction)
    requires OwnershipInv(c, s) && ReaderEnabled(s, a)
    ensures OwnershipInv(c, ReaderStep(s, a))
  {
    hide BufferCount, Bytes;
    assert Upto(0) == [];
    assert [] + Upto(s.own.bufferCount) == Upto(s.own.bufferCount);
  }

  lemma PumpKeepsOwnership(c: Config, s: State, a: PumpAction)
    requires OwnershipInv(c, s) && PumpEnabled(c, s, a)
    ensures OwnershipInv(c, PumpStep(c, s, a))
  {
    hide ReadOnce;
    assert Upto(0) == [];
    assert [] + Upto(s.own.bufferCount) == Upto(s.own.bufferCount);
  }

  lemma CloseKeepsOwnership(c: Config, s: State, a: CloseAction)
    requires OwnershipInv(c, s) && CloseEnabled(s, a)
    ensures OwnershipInv(c, CloseStep(s, a))
  {
    assert Upto(0) == [];
    assert [] + Upto(s.own.bufferCount) == Upto(s.own.bufferCount);
  }

  // ---------------------------------------------------------------- buffers

  function PieceHolds(p: Piece): multiset<nat> {
    if p.Data? then multiset{p.buf} else multiset{}
  }

  function OptionHolds(o: Option<nat>): multiset<nat> {
    if o.Some? then multiset{o.value} else multiset{}
  }

  function QueueHolds(q: seq<Piece>): multiset<nat> {
    if q == [] then multiset{} else PieceHolds(q[0]) + QueueHolds(q[1..])
  }

  function ReaderHolds(r: ReaderSide): multiset<nat> {
    (if r.current.Some? then PieceHolds(r.current.value) else multiset{})
    + (if r.at.Received? then PieceHolds(r.at.piece) else multiset{})
  }

  function PumpHolds(p: PumpAt): multiset<nat> {
    match p
    case Check(buf) => multiset{buf}
    case Reading(buf) => multiset{buf}
    case Sending(piece, keeps) => PieceHolds(piece) + OptionHolds(keeps)
    case Exiting(keeps) => OptionHolds(keeps)
    case Done(keeps) => OptionHolds(keeps)
    case _ => multiset{}
  }

  /** Every place a staging buffer can be in. */
  function Held(s: State): multiset<nat> {
    multiset(s.available) + QueueHolds(s.chunks) + ReaderHolds(s.reader) + PumpHolds(s.pump)
  }

  /** Each of the pump's buffers once. */
  function AllBuffers(c: Config): multiset<nat> { multiset(Upto(BufferCount(c))) }

  /** Until Close every buffer is in exactly one place; Close may lose some, never doubles one. */
  predicate BuffersInv(c: Config, s: State) {
    && Held(s) <= AllBuffers(c)
    && (!s.own.closeCalled ==> Held(s) == if PastSetup(s.pump) then AllBuffers(c) else multiset{})
    && (!PastSetup(s.pump) ==> Held(s) == multiset{})
  }

  lemma {:induction false} QueueAppend(q: seq<Piece>, p: Piece)
    ensures QueueHolds(q + [p]) == QueueHolds(q) + PieceHolds(p)
  {
    if q == [] {
      assert q + [p] == [p];
      assert QueueHolds([p]) == PieceHolds(p) + QueueHolds([]);
    } else {
      assert (q + [p])[1..] == q[1..] + [p];
      QueueAppend(q[1..], p);
    }
  }

  lemma RecycleKeepsHeld(s: State, send: bool)
    ensures Held(Recycled(s, send)) <= Held(s)
    ensures send ==> Held(Recycled(s, send)) == Held(s)
  {
  }

  /** Held depends on nothing else. */
  lemma SamePlaces(s: State, t: State)
    requires s.available == t.available && s.chunks == t.chunks
    requires ReaderHolds(s.reader) == ReaderHolds(t.reader) && PumpHolds(s.pump) == PumpHolds(t.pump)
    ensures Held(s) == Held(t)
  {
  }

  /** The piece being read is never used up between steps, except where Read is about to recycle it. */
  predicate ReaderShape(r: ReaderSide) {
    && (r.current.Some? ==> r.current.value.Data? && r.current.value.from <= r.current.value.to)
    && (r.current.Some? && !r.at.Copied? ==> r.current.value.from < r.current.value.to)
    && (r.at.Received? ==> r.current.None? && (r.at.piece.Data? ==> r.at.piece.from < r.at.piece.to))
    && (r.at.Copied? ==> r.current.Some?)
    && (r.at.Locked? || r.at.Starting? || r.at.Looping? || r.at.Received? ==> r.at.m > 0)
  }

  lemma ReceiveKeepsHeld(s: State)
    requires ReaderEnabled(s, Receive)
    ensures Held(ReaderStep(s, Receive)) == Held(s)
  {
    var t := ReaderStep(s, Receive);
    assert QueueHolds(s.chunks) == PieceHolds(s.chunks[0]) + QueueHolds(t.chunks);
    assert ReaderHolds(t.reader) == PieceHolds(s.chunks[0]);
    assert ReaderHolds(s.reader) == multiset{};
  }

  lemma InspectKeepsHeld(s: State)
    requires ReaderEnabled(s, Inspect) && ReaderShape(s.reader)
    ensures Held(ReaderStep(s, Inspect)) <= Held(s)
    ensures !s.own.closeCalled ==> Held(ReaderStep(s, Inspect)) == Held(s)
  {
    var t := ReaderStep(s, Inspect);
    assert ReaderHolds(s.reader) == PieceHolds(s.reader.at.piece);
    assert ReaderHolds(t.reader) == if s.own.closeCalled then multiset{} else PieceHolds(s.reader.at.piece);
  }

  lemma SettleKeepsHeld(s: State, send: bool)
    requires ReaderEnabled(s, Settle(send)) && ReaderShape(s.reader)
    ensures Held(ReaderStep(s, Settle(send))) <= Held(s)
    ensures !s.own.closeCalled ==> Held(ReaderStep(s, Settle(send))) == Held(s)
  {
    RecycleKeepsHeld(s, send);
    var t := ReaderStep(s, Settle(send));
    if s.reader.current.value.from < s.reader.current.value.to {
      SamePlaces(s, t);
    } else {
      SamePlaces(Recycled(s, send), t);
    }
  }

  lemma CopyKeepsHeld(s: State)
    requires ReaderEnabled(s, Copy) && ReaderShape(s.reader)
    ensures Held(ReaderStep(s, Copy)) == Held(s)
  {
    var t := ReaderStep(s, Copy);
    assert ReaderHolds(s.reader) == ReaderHolds(t.reader);
    SamePlaces(s, t);
  }

  lemma QuietKeepsHeld(c: Config, s: State, a: ReaderAction)
    requires OwnershipInv(c, s) && ReaderShape(s.reader) && ReaderEnabled(s, a)
    requires a.Lock? || a.Begin? || a.Start? || a.SeeClosed?
    ensures Held(ReaderStep(s, a)) == Held(s)
  {
    SamePlaces(s, ReaderStep(s, a));
  }

  lemma FinishKeepsHeld(s: State, a: ReaderAction)
    requires ReaderEnabled(s, a) && (a.Refuse? || a.Finish?)
    ensures Held(ReaderStep(s, a)) <= Held(s)
    ensures !s.own.closeCalled ==> Held(ReaderStep(s, a)) == Held(s)
  {
    RecycleKeepsHeld(s, a.send);
    SamePlaces(if a.Refuse? || s.own.closeCalled then Recycled(s, a.send) else s, ReaderStep(s, a));
  }

  lemma ReaderKeepsHeld(c: Config, s: State, a: ReaderAction)
    requires OwnershipInv(c, s) && ReaderShape(s.reader) && ReaderEnabled(s, a)
    ensures Held(ReaderStep(s, a)) <= Held(s)
    ensures !s.own.closeCalled ==> Held(ReaderStep(s, a)) == Held(s)
  {
    hide Held, OwnershipInv, ReaderStep;
    match a
    case Receive => ReceiveKeepsHeld(s);
    case Inspect => InspectKeepsHeld(s);
    case Copy => CopyKeepsHeld(s);
    case Settle(send) => SettleKeepsHeld(s, send);
    case Refuse(send) => FinishKeepsHeld(s, a);
    case Finish(send) => FinishKeepsHeld(s, a);
    case _ => QuietKeepsHeld(c, s, a);
  }

  lemma TakeKeepsHeld(c: Config, s: State)
    requires PumpEnabled(c, s, Take)
    ensures Held(PumpStep(c, s, Take)) == Held(s)
  {
    var t := PumpStep(c, s, Take);
    assert s.available == [s.available[0]] + t.available;
    assert multiset(s.available) == PumpHolds(t.pump) + multiset(t.available);
  }

  /** A pump that offers data has nothing else in its hands. */
  predicate PumpShape(p: PumpAt) {
    p.Sending? ==> if p.piece.Data? then p.keeps.None? && p.piece.from < p.piece.to else p.piece.err != NoError
  }

  lemma SendKeepsHeld(c: Config, s: State)
    requires PumpEnabled(c, s, Send) && PumpShape(s.pump)
    ensures Held(PumpStep(c, s, Send)) == Held(s)
  {
    var t := PumpStep(c, s, Send);
    QueueAppend(s.chunks, s.pump.piece);
    assert PumpHolds(s.pump) == PieceHolds(s.pump.piece) + PumpHolds(t.pump);
    assert QueueHolds(t.chunks) + PumpHolds(t.pump) == QueueHolds(s.chunks) + PumpHolds(s.pump) by {
      hide QueueHolds;
    }
  }

  lemma BatchHolds(buf: nat, n: nat, err: ReadError)
    ensures PumpHolds(Batch(buf, n, err)) == multiset{buf}
  {
  }

  lemma ReadKeepsHands(c: Config, s: State, a: PumpAction)
    requires PumpEnabled(c, s, a) && a.ReadSource?
    ensures PumpHolds(PumpStep(c, s, a).pump) == PumpHolds(s.pump)
  {
    hide ReadOnce, Batch, PieceHolds, OptionHolds;
    var o := ReadOnce(c.script, s.feed.exact, s.feed.source, BufferSize(c));
    BatchHolds(s.pump.buf, o.n, o.err);
  }

  lemma StopKeepsHands(c: Config, s: State, a: PumpAction)
    requires PumpEnabled(c, s, a) && PumpShape(s.pump) && (a.StopTaking? || a.StopSending?)
    ensures PumpHolds(PumpStep(c, s, a).pump) == PumpHolds(s.pump)
  {
    hide ReadOnce, Batch, BufferCount;
  }

  lemma LookKeepsHands(c: Config, s: State, a: PumpAction)
    requires PumpEnabled(c, s, a) && (a.LookAtClosed? || a.Exit?)
    ensures PumpHolds(PumpStep(c, s, a).pump) == PumpHolds(s.pump)
  {
    hide ReadOnce, Batch, Kept, BufferCount;
  }

  lemma PumpKeepsPlaces(c: Config, s: State, a: PumpAction)
    requires PumpEnabled(c, s, a) && PumpShape(s.pump) && !a.Acquire? && !a.Take? && !a.Send?
    ensures Held(PumpStep(c, s, a)) == Held(s)
  {
    hide Held, ReadOnce, PumpHolds, Batch, Kept;
    if a.ReadSource? {
      ReadKeepsHands(c, s, a);
    } else if a.StopTaking? || a.StopSending? {
      StopKeepsHands(c, s, a);
    } else {
      LookKeepsHands(c, s, a);
    }
    SamePlaces(s, PumpStep(c, s, a));
  }

  lemma AcquireFillsHeld(c: Config, s: State)
    requires PumpEnabled(c, s, Acquire) && Held(s) == multiset{}
    ensures Held(PumpStep(c, s, Acquire)) == AllBuffers(c)
  {
    var t := PumpStep(c, s, Acquire);
    assert s.available == [] by { assert |multiset(s.available)| <= |Held(s)|; }
    assert t.available == Upto(BufferCount(c));
    assert PumpHolds(t.pump) == multiset{};
    assert Upto(0) == [];
  }

  lemma CloseKeepsHeld(s: State, a: CloseAction)
    requires CloseEnabled(s, a)
    ensures Held(CloseStep(s, a)) <= Held(s)
  {
    if a.TryRecycle? {
      RecycleKeepsHeld(s, a.send);
      SamePlaces(if s.reader.at.Idle? then Recycled(s, a.send) else s, CloseStep(s, a));
    } else {
      SamePlaces(s, CloseStep(s, a));
    }
  }

  lemma PumpKeepsHeld(c: Config, s: State, a: PumpAction)
    requires PumpEnabled(c, s, a) && PumpShape(s.pump) && BuffersInv(c, s)
    ensures Held(PumpStep(c, s, a)) == if a.Acquire? then AllBuffers(c) else Held(s)
  {
    hide Held, AllBuffers, PumpStep;
    match a
    case Acquire => AcquireFillsHeld(c, s);
    case Take => TakeKeepsHeld(c, s);
    case Send => SendKeepsHeld(c, s);
    case _ => PumpKeepsPlaces(c, s, a);
  }

  lemma StepKeepsBuffers(c: Config, s: State, a: Action)
    requires OwnershipInv(c, s) && ReaderShape(s.reader) && PumpShape(s.pump)
    requires BuffersInv(c, s) && Enabled(c, s, a)
    ensures BuffersInv(c, Step(c, s, a))
  {
    hide Held, AllBuffers;
    match a
    case ByReader(r) => ReaderKeepsHeld(c, s, r);
    case ByPump(p) => PumpKeepsHeld(c, s, p);
    case ByCloser(k) => CloseKeepsHeld(s, k);
  }
}
