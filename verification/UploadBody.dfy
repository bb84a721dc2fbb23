/** uploadBody: a source pump, the transport's Reads and Close hand at most four
    staging buffers around. One step is one channel operation, one mutex section
    or one read of the caller's source. */
module UploadBody {
  import opened Basics
  import opened ExactSize

  /** uploadBodyBufferSize */
  const BUFFER_SIZE: nat := 256 * 1024
  /** uploadBodyBufferCount, also the capacity of both channels */
  const BUFFER_COUNT: nat := 4

  /** One request body over a caller's source. */
  datatype Config = Config(
    script: Script, content: nat -> Octet, calls: nat, start: nat, expected: nat, requireEof: bool)

  function BufferSize(c: Config): nat { Min(BUFFER_SIZE, c.expected) }

  /** How many staging buffers the pump acquires. */
  function BufferCount(c: Config): (r: nat)
    ensures r <= BUFFER_COUNT && (r == 0 <==> c.expected == 0)
  {
    if c.expected == 0 then 0 else Min(BUFFER_COUNT, 1 + (c.expected - 1) / BufferSize(c))
  }

  /** At most four staging buffers of at most 256 KiB, and no more than the body fills. */
  lemma StagingIsBounded(c: Config)
    ensures BufferCount(c) <= 4 && BufferSize(c) <= 262144 && BufferSize(c) <= c.expected
    ensures c.expected > 0 ==> BufferSize(c) * (BufferCount(c) - 1) < c.expected
    ensures BufferCount(c) < 4 ==> c.expected <= BufferSize(c) * BufferCount(c)
  {
    if c.expected > 0 {
      var size := BufferSize(c);
      var q := (c.expected - 1) / size;
      assert size * q <= c.expected - 1 < size * (q + 1);
      assert BufferCount(c) - 1 <= q;
      assert size * (BufferCount(c) - 1) <= size * q;
    }
  }

  /** uploadBodyChunk: bytes from..to of a staging buffer and the error behind them,
      or an error alone. */
  datatype Piece =
    | Data(buf: nat, from: nat, to: nat, err: ReadError)
    | Last(err: ReadError)

  /** Where the Read that holds readMu is; m is the length of its buffer. */
  datatype ReaderAt =
    | Idle
    | Locked(m: nat)
    | Refused                                            // beginRead said no
    | Starting(m: nat)                                   // before start.Do
    | Looping(m: nat)                                    // at the top of the loop
    | Received(m: nat, piece: Piece)                     // took a chunk, has not looked at closed
    | Copied(n: nat)                                     // handed n bytes over
    | Finishing(n: nat, err: ReadError, refused: bool)   // about to run finishRead

  /** Where the pump goroutine is. A pump that stops keeps the buffer in its hands. */
  datatype PumpAt =
    | NotStarted
    | Setup
    | Top                                                // waits for a buffer
    | Check(buf: nat)                                    // fillBuffer looks at closed
    | Reading(buf: nat)                                  // the source may be writing to buf
    | Sending(piece: Piece, keeps: Option<nat>)
    | Exiting(keeps: Option<nat>)
    | Done(keeps: Option<nat>)

  datatype CloserAt = NotCalled | Trying | Returned

  /** The fields that stateMu guards. */
  datatype Ownership = Ownership(
    closeCalled: bool,
    readActive: bool,
    pumpStarted: bool,
    pumpDone: bool,
    released: bool,
    bufferCount: nat,
    offered: seq<nat>)      // buffers given to releaseUploadBodyBuffer

  datatype ReaderSide = ReaderSide(
    at: ReaderAt,
    current: Option<Piece>,
    once: bool,             // start has run
    delivered: seq<Octet>,  // what all Reads returned; written is its length
    handedOut: bool)        // a Read has taken the terminal error

  /** The exact reader, the source under it, and the staging buffers' bytes. */
  datatype Feed = Feed(exact: Exact, source: Source, mem: seq<seq<Octet>>)

  datatype State = State(
    own: Ownership,
    chunks: seq<Piece>,
    available: seq<nat>,
    reader: ReaderSide,
    pump: PumpAt,
    closer: CloserAt,
    feed: Feed)

  function Upto(n: nat): (r: seq<nat>)
    ensures |r| == n && forall i :: 0 <= i < n ==> r[i] == i
  {
    seq(n, i => i)
  }

  predicate Idling(o: Ownership) { o.closeCalled && (!o.pumpStarted || o.pumpDone) && !o.readActive }

  /** releaseIfIdleLocked */
  function ReleaseIfIdle(o: Ownership): Ownership {
    if Idling(o) && !o.released then
      o.(released := true, offered := o.offered + Upto(o.bufferCount), bufferCount := 0)
    else o
  }

  // ---------------------------------------------------------------- steps

  datatype ReaderAction =
    | Lock(m: nat)
    | Begin
    | Refuse(send: bool)
    | Start
    | Copy
    | SeeClosed
    | Receive
    | Inspect
    | Settle(send: bool)
    | Finish(send: bool)

  datatype PumpAction =
    | Acquire
    | Take
    | StopTaking
    | LookAtClosed
    | ReadSource(filled: seq<Octet>)   // the buffer afterwards
    | Send
    | StopSending
    | Exit

  datatype CloseAction = CloseBody | TryRecycle(send: bool)

  datatype Action = ByReader(r: ReaderAction) | ByPump(p: PumpAction) | ByCloser(k: CloseAction)

  /** recycleCurrent: the select may send the buffer or see closed. */
  predicate CanRecycle(s: State, send: bool) {
    s.reader.current.Some? ==> if send then |s.available| < BUFFER_COUNT else s.own.closeCalled
  }

  function Recycled(s: State, send: bool): State {
    match s.reader.current
    case Some(Data(buf, _, _, _)) =>
      s.(reader := s.reader.(current := None), available := if send then s.available + [buf] else s.available)
    case _ => s
  }

  predicate ReaderEnabled(s: State, a: ReaderAction) {
    match a
    case Lock(m) => s.reader.at.Idle? && m > 0
    case Begin => s.reader.at.Locked?
    case Refuse(send) => s.reader.at.Refused? && CanRecycle(s, send)
    case Start => s.reader.at.Starting?
    case Copy => s.reader.at.Looping? && s.reader.current.Some?
    case SeeClosed => s.reader.at.Looping? && s.reader.current.None? && s.own.closeCalled
    case Receive => s.reader.at.Looping? && s.reader.current.None? && s.chunks != []
    case Inspect => s.reader.at.Received?
    case Settle(send) => s.reader.at.Copied? && CanRecycle(s, send)
    case Finish(send) => s.reader.at.Finishing? && (s.own.closeCalled ==> CanRecycle(s, send))
  }

  /** The staged bytes a piece stands for. */
  function Bytes(mem: seq<seq<Octet>>, p: Piece): seq<Octet> {
    match p
    case Data(buf, from, to, _) =>
      if buf < |mem| && from <= to <= |mem[buf]| then mem[buf][from..to] else []
    case Last(_) => []
  }

  function CopyStep(s: State): State
    requires s.reader.at.Looping? && s.reader.current.Some?
  {
    var r := s.reader;
    if s.own.closeCalled then s.(reader := r.(at := Finishing(0, NoError, true)))
    else
      match r.current.value
      case Data(buf, from, to, err) =>
        var n := if from <= to then Min(r.at.m, to - from) else 0;
        s.(reader := r.(
          at := Copied(n),
          current := Some(Data(buf, from + n, to, err)),
          delivered := r.delivered + Bytes(s.feed.mem, Data(buf, from, from + n, err))))
      case Last(_) => s
  }

  /** The end of a Read that handed bytes over: a used-up piece goes back and its
      error comes out. */
  function SettleStep(s: State, send: bool): State
    requires s.reader.at.Copied?
  {
    var n := s.reader.at.n;
    match s.reader.current
    case Some(Data(_, from, to, err)) =>
      if from < to then s.(reader := s.reader.(at := Finishing(n, NoError, false)))
      else
        var t := Recycled(s, send);
        t.(reader := t.reader.(at := Finishing(n, err, false), handedOut := t.reader.handedOut || err != NoError))
    case _ => s
  }

  function ReaderStep(s: State, a: ReaderAction): State
    requires ReaderEnabled(s, a)
  {
    var r := s.reader;
    match a
    case Lock(m) => s.(reader := r.(at := Locked(m)))
    case Begin =>
      if s.own.closeCalled then s.(reader := r.(at := Refused))
      else s.(own := s.own.(readActive := true), reader := r.(at := Starting(r.at.m)))
    case Refuse(send) =>
      var t := Recycled(s, send);
      t.(reader := t.reader.(at := Idle))
    case Start =>
      var t := s.(reader := r.(at := Looping(r.at.m), once := true));
      if r.once || s.own.closeCalled then t
      else t.(own := s.own.(pumpStarted := true), pump := Setup)
    case Copy => CopyStep(s)
    case SeeClosed => s.(reader := r.(at := Finishing(0, NoError, true)))
    case Receive => s.(reader := r.(at := Received(r.at.m, s.chunks[0])), chunks := s.chunks[1..])
    case Inspect =>
      if s.own.closeCalled then s.(reader := r.(at := Finishing(0, NoError, true)))
      else if r.at.piece.Last? then
        s.(reader := r.(at := Finishing(0, r.at.piece.err, false), handedOut := true))
      else s.(reader := r.(at := Looping(r.at.m), current := Some(r.at.piece)))
    case Settle(send) => SettleStep(s, send)
    case Finish(send) =>
      var t := if s.own.closeCalled then Recycled(s, send) else s;
      t.(own := ReleaseIfIdle(t.own.(readActive := false)), reader := t.reader.(at := Idle))
  }

  predicate PumpEnabled(c: Config, s: State, a: PumpAction) {
    match a
    case Acquire => s.pump.Setup?
    case Take => s.pump.Top? && s.available != []
    case StopTaking => s.pump.Top? && s.own.closeCalled
    case LookAtClosed => s.pump.Check?
    case ReadSource(filled) =>
      && s.pump.Reading? && |filled| == BufferSize(c)
      && var n := ReadOnce(c.script, s.feed.exact, s.feed.source, BufferSize(c)).n;
         n <= |filled| && forall i :: 0 <= i < n ==> filled[i] == c.content(s.feed.source.pos + i)
    case Send => s.pump.Sending? && |s.chunks| < BUFFER_COUNT
    case StopSending => s.pump.Sending? && s.own.closeCalled
    case Exit => s.pump.Exiting?
  }

  /** What the pump does with the answer to one source read. */
  function Batch(buf: nat, n: nat, err: ReadError): PumpAt {
    if n > 0 then Sending(Data(buf, 0, n, err), None)
    else if err != NoError then Sending(Last(err), Some(buf))
    else Check(buf)
  }

  /** The buffer a pump that gives up sending is left with. */
  function Kept(p: PumpAt): Option<nat>
    requires p.Sending?
  {
    if p.piece.Data? then Some(p.piece.buf) else p.keeps
  }

  function PumpStep(c: Config, s: State, a: PumpAction): State
    requires PumpEnabled(c, s, a)
  {
    match a
    case Acquire =>
      if c.expected == 0 then s.(pump := Sending(Last(Eof), None))
      else
        s.(own := s.own.(bufferCount := BufferCount(c)),
           available := s.available + Upto(BufferCount(c)),
           pump := Top)
    case Take => s.(pump := Check(s.available[0]), available := s.available[1..])
    case StopTaking => s.(pump := Exiting(None))
    case LookAtClosed => s.(pump := if s.own.closeCalled then Exiting(Some(s.pump.buf)) else Reading(s.pump.buf))
    case ReadSource(filled) =>
      var buf := s.pump.buf;
      var o := ReadOnce(c.script, s.feed.exact, s.feed.source, BufferSize(c));
      var mem := if buf < |s.feed.mem| then s.feed.mem[buf := filled] else s.feed.mem;
      s.(feed := Feed(o.x, o.s, mem), pump := Batch(buf, o.n, o.err))
    case Send =>
      s.(chunks := s.chunks + [s.pump.piece],
         pump := if s.pump.piece.err == NoError then Top else Exiting(s.pump.keeps))
    case StopSending => s.(pump := Exiting(Kept(s.pump)))
    case Exit => s.(own := ReleaseIfIdle(s.own.(pumpDone := true)), pump := Done(s.pump.keeps))
  }

  predicate CloseEnabled(s: State, a: CloseAction) {
    match a
    case CloseBody => s.closer.NotCalled?
    case TryRecycle(send) => s.closer.Trying? && (s.reader.at.Idle? ==> CanRecycle(s, send))
  }

  /** The first Close; every later one returns at once. TryLock succeeds when no Read holds readMu. */
  function CloseStep(s: State, a: CloseAction): State
    requires CloseEnabled(s, a)
  {
    match a
    case CloseBody => s.(own := ReleaseIfIdle(s.own.(closeCalled := true)), closer := Trying)
    case TryRecycle(send) =>
      var t := if s.reader.at.Idle? then Recycled(s, send) else s;
      t.(closer := Returned)
  }

  predicate Enabled(c: Config, s: State, a: Action) {
    match a
    case ByReader(r) => ReaderEnabled(s, r)
    case ByPump(p) => PumpEnabled(c, s, p)
    case ByCloser(k) => CloseEnabled(s, k)
  }

  function Step(c: Config, s: State, a: Action): State
    requires Enabled(c, s, a)
  {
    match a
    case ByReader(r) => ReaderStep(s, r)
    case ByPump(p) => PumpStep(c, s, p)
    case ByCloser(k) => CloseStep(s, k)
  }

  /** newUploadBody; the buffers the pump will acquire hold arbitrary bytes. */
  predicate Init(c: Config, s: State) {
    && s.own == Ownership(false, false, false, false, false, 0, [])
    && s.chunks == [] && s.available == []
    && s.reader == ReaderSide(Idle, None, false, [], false)
    && s.pump == NotStarted && s.closer == NotCalled
    && s.feed.exact == NewExact(c.expected, c.requireEof)
    && s.feed.source == Source(c.calls, c.start, None)
    && |s.feed.mem| == BufferCount(c)
    && forall b :: 0 <= b < |s.feed.mem| ==> |s.feed.mem[b]| == BufferSize(c)
  }

  ghost predicate IsRun(c: Config, run: seq<State>, acts: seq<Action>) {
    && |run| == |acts| + 1 && Init(c, run[0])
    && forall i :: 0 <= i < |acts| ==> Enabled(c, run[i], acts[i]) && run[i + 1] == Step(c, run[i], acts[i])
  }
}
