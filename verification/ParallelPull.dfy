/** The parallel download as a transition system: a dispatcher, a fixed set of
    workers, one in-order reader, Close and its drain goroutine share three
    channels (tasks, results, slots), the mutex-protected reader state and a
    bounded buffer pool. One action is one channel operation or one mutex
    section; any interleaving of enabled actions is a run.

    The blob is the concatenation of the bytes each chunk fetch returned; for a
    registry that serves one fixed blob it is that blob (module ChunkFetch). */
module ParallelPull {
  import opened Basics

  /** The identity of a pooled backing buffer. */
  type Buf = nat

  /** A chunk of the blob: dispatch cuts [0, |blob|) into these. */
  datatype Piece = Piece(start: nat, want: nat)

  /** The constants of one pull. `fuel` bounds the requests, reads and buffer
      growths of one chunk fetch; `poolCap` is the capacity of the client's
      buffer reserve. */
  datatype Config = Config(workers: nat, plan: seq<Piece>, blob: seq<Octet>, poolCap: nat, fuel: nat)

  /** The pieces lie end to end, are not empty, and cover exactly `total` bytes. */
  ghost predicate Tiles(plan: seq<Piece>, total: nat) {
    && plan != []
    && plan[0].start == 0
    && (forall i :: 0 <= i < |plan| ==> plan[i].want > 0)
    && (forall i :: 0 < i < |plan| ==> plan[i].start == plan[i - 1].start + plan[i - 1].want)
    && plan[|plan| - 1].start + plan[|plan| - 1].want == total
  }

  ghost predicate ValidConfig(c: Config) {
    1 <= c.workers <= |c.plan| && Tiles(c.plan, |c.blob|)
  }

  /** Offset of the first byte of chunk i; the blob length when i is past the last chunk. */
  function StartOf(c: Config, i: nat): nat {
    if i < |c.plan| then c.plan[i].start else |c.blob|
  }

  lemma {:induction false} StartIncreases(c: Config, i: nat, j: nat)
    requires ValidConfig(c) && i <= j
    ensures StartOf(c, i) <= StartOf(c, j) <= |c.blob|
    ensures i < j && i < |c.plan| ==> StartOf(c, i) + c.plan[i].want <= StartOf(c, j)
    decreases |c.plan| + j - i, |c.plan| - i
  {
    if i < |c.plan| {
      assert i + 1 < |c.plan| ==> c.plan[i + 1].start == c.plan[i].start + c.plan[i].want;
      StartIncreases(c, i + 1, if i < j then j else i + 1);
    }
  }

  /** The bytes of chunk i. */
  function ChunkBytes(c: Config, i: nat): seq<Octet>
    requires ValidConfig(c) && i < |c.plan|
  {
    StartIncreases(c, i, i + 1);
    c.blob[StartOf(c, i)..StartOf(c, i) + c.plan[i].want]
  }

  datatype Error = Eof | Cancelled | PullClosed | FetchFailed

  /** One fetched chunk or its failure. `slot` records that the result owns one
      concurrency token. */
  datatype Result = Result(index: nat, buf: Option<Buf>, data: seq<Octet>, err: Option<Error>, slot: bool)

  /** The zero value nextResult returns beside an error. */
  const NO_RESULT := Result(0, None, [], None, false)

  /** The reader state guarded by the mutex. */
  datatype Shared = Shared(
    closed: bool,
    err: Option<Error>,
    next: nat,
    current: Option<Buf>,
    data: seq<Octet>,
    currentSlot: bool,
    pos: nat,
    pending: map<nat, Result>)

  // ---------------------------------------------------------------- mutex sections

  /** How readCurrent answers: a terminal error, some bytes, or "await the next chunk". */
  datatype Served = Failed(e: Error) | Bytes(b: seq<Octet>) | Exhausted

  /** The current chunk is given up; its buffer and slot go back. */
  function ReleaseCurrent(sh: Shared): Shared {
    sh.(current := None, data := [], currentSlot := false, pos := 0)
  }

  function ReadCurrent(sh: Shared, done: bool, len: nat): (Shared, Served) {
    if sh.err.Some? then (sh, Failed(sh.err.value))
    else if done then (sh.(err := Some(Cancelled)), Failed(Cancelled))
    else if len == 0 then (sh, Bytes([]))
    else if sh.pos < |sh.data| then
      var n := Min(len, |sh.data| - sh.pos);
      (sh.(pos := sh.pos + n), Bytes(sh.data[sh.pos..sh.pos + n]))
    else (ReleaseCurrent(sh), Exhausted)
  }

  function TakePending(sh: Shared): (Shared, Option<Result>) {
    if sh.next in sh.pending
    then (sh.(pending := sh.pending - {sh.next}), Some(sh.pending[sh.next]))
    else (sh, None)
  }

  /** False when Close already won. */
  function StorePending(sh: Shared, r: Result): (Shared, bool) {
    if sh.closed then (sh, false) else (sh.(pending := sh.pending[r.index := r]), true)
  }

  function Adopt(sh: Shared, done: bool, r: Result): (Shared, Option<Error>) {
    if sh.closed then (sh, Some(PullClosed))
    else if done then (sh, Some(Cancelled))
    else (sh.(current := r.buf, data := r.data, currentSlot := r.slot, pos := 0, next := sh.next + 1), None)
  }

  /** The first terminal error wins. */
  function Terminal(sh: Shared, e: Error): Shared {
    if sh.err.Some? then sh else sh.(err := Some(e))
  }

  /** Close's critical section; the pending results leave with the closer. */
  function CloseSection(sh: Shared): Shared {
    ReleaseCurrent(Terminal(sh.(closed := true), PullClosed)).(pending := map[])
  }

  // ---------------------------------------------------------------- actors

  /** Handing(0) is the probe task, whose slot is taken before dispatch starts. */
  datatype Dispatcher =
    | Granting(i: nat)    // about to reserve a slot for chunk i
    | Handing(i: nat)     // holds the slot of chunk i, about to send its task
    | Abandoning(i: nat)  // cancelled while handing; returns the slot
    | Closing             // about to close the task channel
    | Waiting             // waits for the workers, then closes the results
    | Finished

  datatype Worker =
    | Idle
    | Fetching(i: nat, buf: Option<Buf>, left: nat)
    | Sending(r: Result)
    | Discarding(r: Result)  // cancelled while sending; releases the result
    | Exited

  datatype Reader =
    | Outside                            // no Read call in flight
    | Top(len: nat)                      // before readCurrent
    | Looking(len: nat)                  // before takePending
    | Took(len: nat, r: Result)          // from pending, context not yet checked
    | Selecting(len: nat)                // at the select
    | Got(len: nat, r: Result)           // from the channel, context not yet checked
    | Comparing(len: nat, r: Result)     // before resultIsNext
    | Storing(len: nat, r: Result)       // before storePending
    | Refused(len: nat, r: Result)       // storePending said no; releases r, then asks the context
    | Inspecting(len: nat, r: Result)    // nextResult returned r
    | Adopting(len: nat, r: Result)      // before adoptResult
    | Dropping(r: Result, e: Error)      // releases r, then records e
    | Ending(e: Error)                   // before terminalError

  datatype Closer =
    | NotCalled
    | Cancelling(left: map<nat, Result>)
    | Releasing(left: map<nat, Result>, hand: Option<Result>)
    | Returned

  datatype Drainer = NotStarted | Draining(hand: Option<Result>) | Drained

  /** The slot channel, the client's buffer reserve, and counters of what this
      pull did with buffers. */
  datatype Books = Books(
    slots: nat,          // tokens in the slots channel
    pool: set<Buf>,      // buffers in the client's reserve
    foreign: set<Buf>,   // buffers other pulls of the client use
    nextBuf: Buf,        // every buffer allocated so far is below
    acquired: nat,       // buffers taken or allocated by this pull
    outgrown: nat,       // buffers this pull replaced by larger ones
    offered: nat)        // buffers this pull offered back to the pool

  datatype State = State(
    done: bool,               // the pull context is cancelled
    tasks: seq<nat>,          // chunk indices queued for the workers
    workers: seq<Worker>,
    results: seq<Result>,
    disp: Dispatcher,
    sh: Shared,
    reader: Reader,
    closer: Closer,
    drainer: Drainer,
    books: Books,
    delivered: seq<Octet>,    // bytes returned by all Read calls
    last: Option<Error>)      // error of the latest Read that returned one

  predicate TasksClosed(s: State) { s.disp.Waiting? || s.disp.Finished? }
  predicate ResultsClosed(s: State) { s.disp.Finished? }

  ghost predicate Init(c: Config, s: State) {
    && ValidConfig(c)
    && !s.done && s.tasks == [] && s.results == []
    && |s.workers| == c.workers && (forall w :: 0 <= w < |s.workers| ==> s.workers[w] == Idle)
    && s.disp == Handing(0)
    && s.sh == Shared(false, None, 0, None, [], false, 0, map[])
    && s.reader == Outside && s.closer == NotCalled && s.drainer == NotStarted
    && s.books.slots == 1 && s.books.acquired == s.books.outgrown == s.books.offered == 0
    && |s.books.pool| <= c.poolCap && s.books.pool !! s.books.foreign
    && (forall b :: b in s.books.pool ==> b < s.books.nextBuf)
    && (forall b :: b in s.books.foreign ==> b < s.books.nextBuf)
    && s.delivered == [] && s.last == None
  }

  // ---------------------------------------------------------------- books

  function Count(b: Option<Buf>): nat { if b.Some? then 1 else 0 }

  /** pool.put: a full reserve drops the buffer. */
  function Put(c: Config, pool: set<Buf>, b: Option<Buf>): set<Buf> {
    if b.Some? && |pool| < c.poolCap then pool + {b.value} else pool
  }

  function Offer(c: Config, k: Books, b: Option<Buf>): Books {
    k.(pool := Put(c, k.pool, b), offered := k.offered + Count(b))
  }

  /** A receive from the slots channel. */
  function Return(k: Books): Books
    requires k.slots > 0
  {
    k.(slots := k.slots - 1)
  }

  function Take(k: Books, b: Buf): Books { k.(pool := k.pool - {b}, acquired := k.acquired + 1) }

  /** A fresh buffer replaces the old one, if there is one. */
  function Grow(k: Books, prior: Option<Buf>): Books {
    k.(nextBuf := k.nextBuf + 1, acquired := k.acquired + 1, outgrown := k.outgrown + Count(prior))
  }

  /** releaseCurrentLocked: the buffer is offered and the slot, if held, returned. */
  function ReleaseBooks(c: Config, k: Books, sh: Shared): Books
    requires sh.currentSlot ==> k.slots > 0
  {
    var offered := Offer(c, k, sh.current);
    if sh.currentSlot then Return(offered) else offered
  }

  // ---------------------------------------------------------------- actions

  datatype DispatchAction = Grant | StopGranting | Hand | Abandon | ReturnGrant | CloseTasks | CloseResults

  datatype WorkAction =
    | Receive | Exit | TakeBuffer(b: Buf) | GrowBuffer | PutBack | Request | Succeed | Fail
    | Publish | Discard | OfferDiscarded | ReturnDiscarded

  datatype ReadAction =
    | Serve | LookPending | CheckTaken | SelectResult | SelectClosed | SelectCancelled
    | CheckGot | Compare | Store | OfferRefused | ReturnRefused | Inspect | AdoptResult
    | OfferDropped | ReturnDropped | End

  datatype CloseAction =
    | Cancel | PickPending(i: nat) | OfferPending | ReturnPending | StartDrain
    | DrainReceive | DrainOffer | DrainReturn | DrainEnd

  /** The caller's own moves, and those of the client's other pulls. */
  datatype OutsideAction =
    | CallRead(len: nat) | CallClose | CancelParent
    | OtherTake(b: Buf) | OtherPut(b: Buf) | OtherAllocate

  datatype Action =
    | Dispatch(d: DispatchAction)
    | Work(w: nat, k: WorkAction)
    | Read(r: ReadAction)
    | Close(c: CloseAction)
    | Outer(o: OutsideAction)

  function AfterHand(c: Config, i: nat): Dispatcher {
    if i + 1 < |c.plan| then Granting(i + 1) else Closing
  }

  predicate DispatchEnabled(c: Config, s: State, a: DispatchAction) {
    match a
    case Grant => s.disp.Granting? && s.books.slots < c.workers
    case StopGranting => s.disp.Granting? && s.done
    case Hand => s.disp.Handing? && |s.tasks| < c.workers
    case Abandon => s.disp.Handing? && s.done
    case ReturnGrant => s.disp.Abandoning? && s.books.slots > 0
    case CloseTasks => s.disp.Closing?
    case CloseResults => s.disp.Waiting? && forall w :: 0 <= w < |s.workers| ==> s.workers[w].Exited?
  }

  function DispatchStep(c: Config, s: State, a: DispatchAction): State
    requires DispatchEnabled(c, s, a)
  {
    match a
    case Grant => s.(books := s.books.(slots := s.books.slots + 1), disp := Handing(s.disp.i))
    case StopGranting => s.(disp := Closing)
    case Hand => s.(tasks := s.tasks + [s.disp.i], disp := AfterHand(c, s.disp.i))
    case Abandon => s.(disp := Abandoning(s.disp.i))
    case ReturnGrant => s.(books := Return(s.books), disp := Closing)
    case CloseTasks => s.(disp := Waiting)
    case CloseResults => s.(disp := Finished)
  }

  predicate WorkEnabled(c: Config, s: State, w: nat, a: WorkAction) {
    && w < |s.workers|
    && var k := s.workers[w];
       match a
       case Receive => k.Idle? && s.tasks != []
       case Exit => k.Idle? && s.tasks == [] && TasksClosed(s)
       case TakeBuffer(b) => k.Fetching? && k.buf == None && k.left > 0 && b in s.books.pool
       case GrowBuffer => k.Fetching? && k.left > 0
       case PutBack => k.Fetching? && k.buf.Some? && k.left > 0
       case Request => k.Fetching? && k.left > 0
       case Succeed => k.Fetching? && k.buf.Some?
       case Fail => k.Fetching?
       case Publish => k.Sending? && |s.results| < c.workers
       case Discard => k.Sending? && s.done
       case OfferDiscarded => k.Discarding? && k.r.buf.Some?
       case ReturnDiscarded => k.Discarding? && k.r.buf == None && s.books.slots > 0
  }

  function WorkStep(c: Config, s: State, w: nat, a: WorkAction): State
    requires ValidConfig(c) && WorkEnabled(c, s, w, a)
  {
    var k := s.workers[w];
    match a
    case Receive => s.(tasks := s.tasks[1..], workers := s.workers[w := Fetching(s.tasks[0], None, c.fuel)])
    case Exit => s.(workers := s.workers[w := Exited])
    case TakeBuffer(b) =>
      s.(books := Take(s.books, b), workers := s.workers[w := Fetching(k.i, Some(b), k.left - 1)])
    case GrowBuffer =>
      s.(books := Grow(s.books, k.buf), workers := s.workers[w := Fetching(k.i, Some(s.books.nextBuf), k.left - 1)])
    // The probe's body broke: its buffer goes back before ranged requests start over.
    case PutBack =>
      s.(books := Offer(c, s.books, k.buf), workers := s.workers[w := Fetching(k.i, None, k.left - 1)])
    case Request => s.(workers := s.workers[w := Fetching(k.i, k.buf, k.left - 1)])
    case Succeed =>
      var data := if k.i < |c.plan| then ChunkBytes(c, k.i) else [];
      s.(workers := s.workers[w := Sending(Result(k.i, k.buf, data, None, true))])
    case Fail =>
      s.(books := Offer(c, s.books, k.buf),
         workers := s.workers[w := Sending(Result(k.i, None, [], Some(FetchFailed), true))])
    case Publish => s.(results := s.results + [k.r], workers := s.workers[w := Idle])
    case Discard => s.(workers := s.workers[w := Discarding(k.r)])
    case OfferDiscarded =>
      s.(books := Offer(c, s.books, k.r.buf), workers := s.workers[w := Discarding(k.r.(buf := None))])
    case ReturnDiscarded => s.(books := Return(s.books), workers := s.workers[w := Idle])
  }

  predicate ReadEnabled(s: State, a: ReadAction) {
    var k := s.reader;
    match a
    case Serve => k.Top? && (s.sh.currentSlot ==> s.books.slots > 0)
    case LookPending => k.Looking?
    case CheckTaken => k.Took?
    case SelectResult => k.Selecting? && s.results != []
    case SelectClosed => k.Selecting? && s.results == [] && ResultsClosed(s)
    case SelectCancelled => k.Selecting? && s.done
    case CheckGot => k.Got?
    case Compare => k.Comparing?
    case Store => k.Storing?
    case OfferRefused => k.Refused? && k.r.buf.Some?
    case ReturnRefused => k.Refused? && k.r.buf == None && (k.r.slot ==> s.books.slots > 0)
    case Inspect => k.Inspecting?
    case AdoptResult => k.Adopting?
    case OfferDropped => k.Dropping? && k.r.buf.Some?
    case ReturnDropped => k.Dropping? && k.r.buf == None && (k.r.slot ==> s.books.slots > 0)
    case End => k.Ending?
  }

  function ReadStep(c: Config, s: State, a: ReadAction): State
    requires ReadEnabled(s, a)
  {
    var k := s.reader;
    match a
    case Serve =>
      var (sh', out) := ReadCurrent(s.sh, s.done, k.len);
      (match out
       case Failed(e) => s.(sh := sh', reader := Outside, last := Some(e))
       case Bytes(b) => s.(sh := sh', reader := Outside, delivered := s.delivered + b)
       case Exhausted => s.(sh := sh', reader := Looking(k.len), books := ReleaseBooks(c, s.books, s.sh)))
    case LookPending =>
      var (sh', found) := TakePending(s.sh);
      s.(sh := sh', reader := if found.Some? then Took(k.len, found.value) else Selecting(k.len))
    case CheckTaken => s.(reader := if s.done then Dropping(k.r, Cancelled) else Inspecting(k.len, k.r))
    case SelectResult => s.(results := s.results[1..], reader := Got(k.len, s.results[0]))
    case SelectClosed => s.(reader := Ending(Eof))
    case SelectCancelled => s.(reader := Ending(Cancelled))
    case CheckGot => s.(reader := if s.done then Dropping(k.r, Cancelled) else Comparing(k.len, k.r))
    case Compare =>
      s.(reader := if k.r.index == s.sh.next then Inspecting(k.len, k.r) else Storing(k.len, k.r))
    case Store =>
      var (sh', ok) := StorePending(s.sh, k.r);
      s.(sh := sh', reader := if ok then Looking(k.len) else Refused(k.len, k.r))
    case OfferRefused => s.(books := Offer(c, s.books, k.r.buf), reader := Refused(k.len, k.r.(buf := None)))
    // Close sets `closed` before it cancels, so the context may still be live
    // here; nextResult then returns the zero result without an error.
    case ReturnRefused =>
      s.(books := if k.r.slot then Return(s.books) else s.books,
         reader := if s.done then Ending(Cancelled) else Inspecting(k.len, NO_RESULT))
    case Inspect =>
      s.(reader := if k.r.err.Some? then Dropping(k.r, k.r.err.value) else Adopting(k.len, k.r))
    case AdoptResult =>
      var (sh', err) := Adopt(s.sh, s.done, k.r);
      s.(sh := sh', reader := if err.Some? then Dropping(k.r, err.value) else Top(k.len))
    case OfferDropped => s.(books := Offer(c, s.books, k.r.buf), reader := Dropping(k.r.(buf := None), k.e))
    case ReturnDropped => s.(books := if k.r.slot then Return(s.books) else s.books, reader := Ending(k.e))
    case End =>
      var sh' := Terminal(s.sh, k.e);
      s.(sh := sh', reader := Outside, last := sh'.err)
  }

  predicate CloseEnabled(s: State, a: CloseAction) {
    match a
    case Cancel => s.closer.Cancelling?
    case PickPending(i) => s.closer.Releasing? && s.closer.hand == None && i in s.closer.left
    case OfferPending => s.closer.Releasing? && s.closer.hand.Some? && s.closer.hand.value.buf.Some?
    case ReturnPending =>
      s.closer.Releasing? && s.closer.hand.Some? && s.closer.hand.value.buf == None && s.books.slots > 0
    case StartDrain => s.closer.Releasing? && s.closer.hand == None && s.closer.left == map[]
    case DrainReceive => s.drainer.Draining? && s.drainer.hand == None && s.results != []
    case DrainOffer => s.drainer.Draining? && s.drainer.hand.Some? && s.drainer.hand.value.buf.Some?
    case DrainReturn =>
      s.drainer.Draining? && s.drainer.hand.Some? && s.drainer.hand.value.buf == None && s.books.slots > 0
    case DrainEnd => s.drainer.Draining? && s.drainer.hand == None && s.results == [] && ResultsClosed(s)
  }

  function CloseStep(c: Config, s: State, a: CloseAction): State
    requires CloseEnabled(s, a)
  {
    match a
    case Cancel => s.(done := true, closer := Releasing(s.closer.left, None))
    case PickPending(i) => s.(closer := Releasing(s.closer.left - {i}, Some(s.closer.left[i])))
    case OfferPending =>
      s.(books := Offer(c, s.books, s.closer.hand.value.buf),
         closer := Releasing(s.closer.left, Some(s.closer.hand.value.(buf := None))))
    case ReturnPending => s.(books := Return(s.books), closer := Releasing(s.closer.left, None))
    case StartDrain => s.(closer := Returned, drainer := Draining(None))
    case DrainReceive => s.(results := s.results[1..], drainer := Draining(Some(s.results[0])))
    case DrainOffer =>
      s.(books := Offer(c, s.books, s.drainer.hand.value.buf),
         drainer := Draining(Some(s.drainer.hand.value.(buf := None))))
    case DrainReturn => s.(books := Return(s.books), drainer := Draining(None))
    case DrainEnd => s.(drainer := Drained)
  }

  predicate OuterEnabled(s: State, a: OutsideAction) {
    match a
    case CallRead(_) => s.reader.Outside?
    case CallClose => s.closer.NotCalled? && (s.sh.currentSlot ==> s.books.slots > 0)
    case CancelParent => true
    case OtherTake(b) => b in s.books.pool
    case OtherPut(b) => b in s.books.foreign
    case OtherAllocate => true
  }

  function OuterStep(c: Config, s: State, a: OutsideAction): State
    requires OuterEnabled(s, a)
  {
    match a
    case CallRead(len) => s.(reader := Top(len))
    case CallClose =>
      s.(sh := CloseSection(s.sh), closer := Cancelling(s.sh.pending), books := ReleaseBooks(c, s.books, s.sh))
    case CancelParent => s.(done := true)
    case OtherTake(b) =>
      s.(books := s.books.(pool := s.books.pool - {b}, foreign := s.books.foreign + {b}))
    case OtherPut(b) =>
      s.(books := s.books.(pool := Put(c, s.books.pool, Some(b)), foreign := s.books.foreign - {b}))
    case OtherAllocate =>
      s.(books := s.books.(foreign := s.books.foreign + {s.books.nextBuf}, nextBuf := s.books.nextBuf + 1))
  }

  predicate Enabled(c: Config, s: State, a: Action) {
    match a
    case Dispatch(d) => DispatchEnabled(c, s, d)
    case Work(w, k) => WorkEnabled(c, s, w, k)
    case Read(r) => ReadEnabled(s, r)
    case Close(k) => CloseEnabled(s, k)
    case Outer(o) => OuterEnabled(s, o)
  }

  function Step(c: Config, s: State, a: Action): State
    requires ValidConfig(c) && Enabled(c, s, a)
  {
    match a
    case Dispatch(d) => DispatchStep(c, s, d)
    case Work(w, k) => WorkStep(c, s, w, k)
    case Read(r) => ReadStep(c, s, r)
    case Close(k) => CloseStep(c, s, k)
    case Outer(o) => OuterStep(c, s, o)
  }

  /** A run: every state follows from the one before by its action. */
  ghost predicate IsRun(c: Config, states: seq<State>, actions: seq<Action>) {
    && |states| == |actions| + 1
    && Init(c, states[0])
    && forall k :: 0 <= k < |actions| ==>
         Enabled(c, states[k], actions[k]) && states[k + 1] == Step(c, states[k], actions[k])
  }
}
