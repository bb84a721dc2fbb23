/** What the upload body promises, over every interleaving of its actors. */
module UploadGuarantees {
  import opened Basics
  import opened ExactSize
  import opened UploadBody
  import opened UploadInvariant
  import opened UploadStream

  // ---------------------------------------------------------------- a lossless bounded queue

  /** Every Read returned source bytes in order; until Close nothing taken from the
      source is missing from what was returned and what is staged. */
  lemma DeliveredInOrder(c: Config, run: seq<State>, acts: seq<Action>, k: nat)
    requires IsRun(c, run, acts) && k < |run|
    ensures var s := run[k];
      && |s.reader.delivered| <= c.expected
      && s.reader.delivered == Prefix(c, |s.reader.delivered|)
      && 0 <= Taken(s.feed.exact)
      && (!s.own.closeCalled ==>
            s.reader.delivered + Staged(s.feed.mem, Line(s)) == Prefix(c, Taken(s.feed.exact)))
  {
    EveryStateOfEveryRun(c, run, acts, k);
  }

  /** Until Close each buffer the pump acquired is available, with the pump, queued or
      being read, and in only one of these. */
  lemma EveryBufferInOnePlace(c: Config, run: seq<State>, acts: seq<Action>, k: nat, b: nat)
    requires IsRun(c, run, acts) && k < |run| && b < BufferCount(c) && PastSetup(run[k].pump)
    ensures Held(run[k])[b] <= 1 && (!run[k].own.closeCalled ==> Held(run[k])[b] == 1)
  {
    EveryStateOfEveryRun(c, run, acts, k);
    assert BuffersInv(c, run[k]);
    hide Held, AllBuffers;
    BufferOnce(c, b);
  }

  lemma {:induction false} DataQueueHolds(q: seq<Piece>)
    requires forall i :: 0 <= i < |q| ==> q[i].Data?
    ensures |QueueHolds(q)| == |q|
  {
    if q != [] { DataQueueHolds(q[1..]); }
  }

  lemma AllBuffersSize(c: Config)
    ensures |AllBuffers(c)| == BufferCount(c)
  {
  }

  /** How many buffers each place holds. */
  lemma PlacesFit(c: Config, s: State)
    requires BuffersInv(c, s)
    ensures |s.available| + |QueueHolds(s.chunks)| + |ReaderHolds(s.reader)| + |PumpHolds(s.pump)| <= BufferCount(c)
  {
    AllBuffersSize(c);
    assert |Held(s)| == |s.available| + |QueueHolds(s.chunks)| + |ReaderHolds(s.reader)| + |PumpHolds(s.pump)|;
    assert AllBuffers(c) == Held(s) + (AllBuffers(c) - Held(s));
  }

  /** Behind every queued piece another one is in line, so it is data. */
  lemma QueuedBehindIsData(c: Config, s: State)
    requires AllInv(c, s) && s.pump.Sending? && !s.own.closeCalled
    ensures |QueueHolds(s.chunks)| == |s.chunks|
  {
    hide BuffersInv, OwnershipInv, FeedInv, TerminalInv;
    var line := Line(s);
    assert forall i :: 0 <= i < |s.chunks| ==> s.chunks[i] == line[|Front(s.reader)| + i];
    DataQueueHolds(s.chunks);
  }

  lemma SenderHolds(c: Config, s: State)
    requires OwnershipInv(c, s) && s.pump.Sending?
    ensures |PumpHolds(s.pump)| >= 1 || c.expected == 0
  {
  }

  lemma CurrentHolds(s: State)
    requires ReaderShape(s.reader) && s.reader.current.Some?
    ensures |ReaderHolds(s.reader)| >= 1
  {
  }

  /** The buffer being read fits into `available`. */
  lemma BufferFits(c: Config, s: State)
    requires AllInv(c, s) && s.reader.current.Some?
    ensures |s.available| < BUFFER_COUNT
  {
    assert |s.available| + |QueueHolds(s.chunks)| + |ReaderHolds(s.reader)| + |PumpHolds(s.pump)| <= BufferCount(c) by {
      PlacesFit(c, s);
    }
    hide Held, StreamInv, QueueHolds, ReaderHolds, PumpHolds, BuffersInv, OwnershipInv;
    CurrentHolds(s);
  }

  /** A piece fits into `chunks` until Close. */
  lemma ChunkFits(c: Config, s: State)
    requires AllInv(c, s) && s.pump.Sending? && !s.own.closeCalled
    ensures |s.chunks| < BUFFER_COUNT
  {
    assert |s.available| + |QueueHolds(s.chunks)| + |ReaderHolds(s.reader)| + |PumpHolds(s.pump)| <= BufferCount(c) by {
      PlacesFit(c, s);
    }
    hide Held, StreamInv, QueueHolds, ReaderHolds, PumpHolds, ShapeInv, BuffersInv;
    SenderHolds(c, s);
    QueuedBehindIsData(c, s);
  }

  /** A staging buffer always fits back into `available`, and until Close a piece
      always fits into `chunks`: no send of this protocol ever blocks. */
  lemma SendsNeverBlock(c: Config, s: State)
    requires AllInv(c, s)
    ensures s.reader.current.Some? ==> |s.available| < BUFFER_COUNT
    ensures s.pump.Sending? && !s.own.closeCalled ==> |s.chunks| < BUFFER_COUNT && PumpEnabled(c, s, Send)
  {
    hide StreamInv, BuffersInv, OwnershipInv, ShapeInv;
    if s.reader.current.Some? { BufferFits(c, s); }
    if s.pump.Sending? && !s.own.closeCalled { ChunkFits(c, s); }
  }

  /** The pump can take its next step on its own, provided the source answers. */
  predicate PumpCanMove(s: State) {
    match s.pump
    case Setup => true
    case Top => s.available != []
    case Check(_) => true
    case Reading(_) => true
    case Sending(_, _) => |s.chunks| < BUFFER_COUNT
    case _ => false
  }

  /** A Read that waits for a chunk before the terminal error has been handed out faces
      a pump that can move: reader and pump never wait for each other. */
  lemma WaitingReadIsServed(c: Config, s: State)
    requires AllInv(c, s) && !s.own.closeCalled && !s.reader.handedOut
    requires s.reader.at.Looping? && s.reader.current.None? && s.chunks == []
    ensures PumpCanMove(s)
  {
    SendsNeverBlock(c, s);
    assert !s.pump.Exiting? && !s.pump.Done? by { assert Line(s) == Back(s.pump); }
    if s.pump.Top? {
      assert QueueHolds(s.chunks) == multiset{};
      assert Held(s) == multiset(s.available);
      AllBuffersSize(c);
      assert c.expected > 0 by { TopNeedsBytes(c, s); }
    }
  }

  lemma TopNeedsBytes(c: Config, s: State)
    requires AllInv(c, s) && s.pump.Top?
    ensures c.expected > 0
  {
  }

  // ---------------------------------------------------------------- the terminal error

  /** Once a Read took the terminal error, a later Read has no step until Close: the
      error is handed out once, not at every later Read. */
  lemma TerminalErrorIsHandedOutOnce(c: Config, s: State, r: ReaderAction)
    requires AllInv(c, s) && s.reader.handedOut && !s.own.closeCalled && s.reader.at.Looping?
    ensures !ReaderEnabled(s, r)
  {
    assert Line(s) == [] by { assert TerminalInv(Line(s), s.pump, s.reader.handedOut); HandedOutEndsLine(s); }
  }

  lemma HandedOutEndsLine(s: State)
    requires TerminalInv(Line(s), s.pump, s.reader.handedOut) && s.reader.handedOut
    ensures Line(s) == []
  {
  }

  // ---------------------------------------------------------------- release

  /** The source may be used again exactly when Close was called, no Read is active and
      the pump never started or is done; the buffers are given back once, all of them. */
  lemma ReleasedMeansIdle(c: Config, run: seq<State>, acts: seq<Action>, k: nat)
    requires IsRun(c, run, acts) && k < |run|
    ensures var s := run[k];
      && (s.own.released <==> s.own.closeCalled && !Active(s.reader.at) && (s.pump.NotStarted? || s.pump.Done?))
      && s.own.offered == (if s.own.released && s.pump.Done? then Upto(BufferCount(c)) else [])
  {
    EveryStateOfEveryRun(c, run, acts, k);
    hide StreamInv, BuffersInv;
  }

  /** After release no step reads the caller's source, touches a staged byte, hands one
      over, or offers a buffer again; and release is never taken back. */
  lemma ReleasedIsQuiet(c: Config, s: State, a: Action)
    requires AllInv(c, s) && s.own.released && Enabled(c, s, a)
    ensures var t := Step(c, s, a);
      && t.own == s.own && t.feed == s.feed && t.pump == s.pump
      && t.reader.delivered == s.reader.delivered && !Active(t.reader.at)
  {
    hide StreamInv, BuffersInv, ReadOnce;
  }

  lemma {:induction false} ReleasedStaysQuiet(c: Config, run: seq<State>, acts: seq<Action>, i: nat, k: nat)
    requires IsRun(c, run, acts) && i <= k < |run| && run[i].own.released
    ensures run[k].own == run[i].own && run[k].feed == run[i].feed
    ensures run[k].reader.delivered == run[i].reader.delivered
    decreases k
  {
    hide AllInv, Init, Enabled, Step;
    if i < k {
      ReleasedStaysQuiet(c, run, acts, i, k - 1);
      EveryStateOfEveryRun(c, run, acts, k - 1);
      assert Enabled(c, run[k - 1], acts[k - 1]) && run[k - 1 + 1] == Step(c, run[k - 1], acts[k - 1]);
      ReleasedIsQuiet(c, run[k - 1], acts[k - 1]);
    }
  }

  function ReaderRank(at: ReaderAt): nat {
    match at
    case Starting(_) => 5
    case Looping(_) => 4
    case Received(_, _) => 3
    case Copied(_) => 3
    case Finishing(_, _, _) => 2
    case _ => 0
  }

  function PumpRank(p: PumpAt): nat {
    match p
    case Setup => 7
    case Reading(_) => 6
    case Sending(_, _) => 5
    case Top => 4
    case Check(_) => 3
    case Exiting(_) => 2
    case _ => 0
  }

  /** Steps that are left until release, once Close was called. */
  function Rank(s: State): (r: nat)
    ensures r <= 12
  {
    ReaderRank(s.reader.at) + PumpRank(s.pump)
  }

  /** A step of the active Read or of the pump. */
  predicate Winds(a: Action) {
    match a
    case ByReader(r) => !r.Lock? && !r.Begin? && !r.Refuse?
    case ByPump(_) => true
    case ByCloser(_) => false
  }

  lemma ClosedReaderLowersRank(c: Config, s: State, r: ReaderAction)
    requires OwnershipInv(c, s) && ReaderShape(s.reader) && s.own.closeCalled && ReaderEnabled(s, r)
    ensures var t := ReaderStep(s, r);
      && t.own.closeCalled && t.pump == s.pump
      && if Winds(ByReader(r)) then ReaderRank(t.reader.at) < ReaderRank(s.reader.at)
         else ReaderRank(t.reader.at) == ReaderRank(s.reader.at)
  {
  }

  lemma ClosedPumpLowersRank(c: Config, s: State, p: PumpAction)
    requires s.own.closeCalled && PumpEnabled(c, s, p)
    ensures var t := PumpStep(c, s, p);
      t.own.closeCalled && t.reader == s.reader && PumpRank(t.pump) < PumpRank(s.pump)
  {
    hide ReadOnce;
  }

  lemma ClosedStepLowersRank(c: Config, s: State, a: Action)
    requires AllInv(c, s) && s.own.closeCalled && Enabled(c, s, a)
    ensures var t := Step(c, s, a);
      t.own.closeCalled && if Winds(a) then Rank(t) < Rank(s) else Rank(t) == Rank(s)
  {
    hide StreamInv, BuffersInv, OwnershipInv, ReaderStep, PumpStep, ReaderRank, PumpRank;
    match a
    case ByReader(r) => ClosedReaderLowersRank(c, s, r);
    case ByPump(p) => ClosedPumpLowersRank(c, s, p);
    case ByCloser(_) =>
  }

  /** Some bytes the source may answer with. */
  lemma SourceCanAnswer(c: Config, s: State) returns (filled: seq<Octet>)
    requires AllInv(c, s) && s.pump.Reading?
    ensures PumpEnabled(c, s, ReadSource(filled))
  {
    var f := s.feed;
    filled := seq(BufferSize(c), i requires i >= 0 => c.content(f.source.pos + i));
    ReadKeepsAccounts(c.script, f.exact, f.source, BufferSize(c), c.start);
    hide ReadOnce;
  }

  /** The next step of the Read that is under way after Close. */
  function ReaderUnwinds(r: ReaderSide): ReaderAction {
    match r.at
    case Starting(_) => Start
    case Looping(_) => if r.current.Some? then Copy else SeeClosed
    case Received(_, _) => Inspect
    case Copied(_) => Settle(false)
    case _ => Finish(false)
  }

  /** The next step of the pump after Close, unless the source is reading. */
  function PumpUnwinds(p: PumpAt): PumpAction {
    match p
    case Setup => Acquire
    case Top => StopTaking
    case Check(_) => LookAtClosed
    case Sending(_, _) => StopSending
    case _ => Exit
  }

  lemma ReaderCanUnwind(s: State)
    requires s.own.closeCalled && Active(s.reader.at)
    ensures ReaderEnabled(s, ReaderUnwinds(s.reader)) && Winds(ByReader(ReaderUnwinds(s.reader)))
  {
  }

  lemma PumpCanUnwind(c: Config, s: State)
    requires s.own.closeCalled && !s.pump.NotStarted? && !s.pump.Done? && !s.pump.Reading?
    ensures PumpEnabled(c, s, PumpUnwinds(s.pump))
  {
  }

  /** After Close, and until release, the active Read or the pump has a step. */
  lemma ReleaseIsInSight(c: Config, s: State) returns (a: Action)
    requires AllInv(c, s) && s.own.closeCalled && !s.own.released
    ensures Winds(a) && Enabled(c, s, a)
  {
    if s.pump.Reading? {
      var filled := SourceCanAnswer(c, s);
      return ByPump(ReadSource(filled));
    }
    hide StreamInv, BuffersInv, ReaderEnabled, PumpEnabled, ReaderUnwinds, PumpUnwinds, ShapeInv;
    if Active(s.reader.at) {
      ReaderCanUnwind(s);
      a := ByReader(ReaderUnwinds(s.reader));
    } else {
      PumpCanUnwind(c, s);
      a := ByPump(PumpUnwinds(s.pump));
    }
  }

  function Winding(acts: seq<Action>, k: nat): nat
    requires k <= |acts|
    decreases |acts| - k
  {
    if k == |acts| then 0 else (if Winds(acts[k]) then 1 else 0) + Winding(acts, k + 1)
  }

  /** After Close at most twelve more steps of the active Read and the pump happen,
      whatever else does; a run in which they have no step left has released the source. */
  lemma {:induction false} CloseLeadsToRelease(c: Config, run: seq<State>, acts: seq<Action>, k: nat)
    requires IsRun(c, run, acts) && k < |run| && run[k].own.closeCalled
    ensures Winding(acts, k) + Rank(run[|acts|]) <= Rank(run[k])
    ensures (forall a :: Winds(a) ==> !Enabled(c, run[|acts|], a)) ==> run[|acts|].own.released
    decreases |acts| - k
  {
    EveryStateOfEveryRun(c, run, acts, k);
    if k < |acts| {
      assert Enabled(c, run[k], acts[k]) && run[k + 1] == Step(c, run[k], acts[k]);
      ClosedStepLowersRank(c, run[k], acts[k]);
      CloseLeadsToRelease(c, run, acts, k + 1);
    } else if !run[k].own.released {
      var a := ReleaseIsInSight(c, run[k]);
    }
  }

  // ---------------------------------------------------------------- validate

  /** uploadBody.validate */
  predicate BodyValidates(s: State) {
    !s.feed.exact.failed && |s.reader.delivered| == s.feed.exact.expected && Validates(s.feed.exact)
  }

  /** Whatever the source does: a body that validates gave the transport exactly the
      declared bytes, in order, and a final one saw the source end right there. */
  lemma ValidBodyWasExact(c: Config, run: seq<State>, acts: seq<Action>, k: nat)
    requires IsRun(c, run, acts) && k < |run| && c.expected > 0 && BodyValidates(run[k])
    ensures run[k].reader.delivered == Prefix(c, c.expected)
    ensures run[k].feed.source.pos == c.start + c.expected
    ensures c.requireEof ==> run[k].feed.source.ended == Some(c.start + c.expected)
  {
    EveryStateOfEveryRun(c, run, acts, k);
    hide BuffersInv, OwnershipInv;
  }

  /** The exact reader's verdict on a well-behaved source of `length` bytes. */
  ghost predicate Judged(c: Config, length: nat, f: Feed) {
    && (f.exact.failed ==> !RightSize(c.expected, c.requireEof, c.start, length))
    && (!f.exact.failed ==> Tracks(c.script, f.exact, f.source, c.start, length))
    && (!f.exact.failed && f.exact.remaining == 0 ==>
          RightSize(c.expected, c.requireEof, c.start, length) && Validates(f.exact))
  }

  lemma StepKeepsJudged(c: Config, s: State, a: Action, length: nat)
    requires AllInv(c, s) && Enabled(c, s, a) && Judged(c, length, s.feed)
    requires WellBehaved(c.script, length) && c.expected > 0
    ensures Judged(c, length, Step(c, s, a).feed)
  {
    var x := s.feed.exact;
    assert s.pump.Reading? ==> !x.failed;
    if a.ByPump? && a.p.ReadSource? && x.remaining > 0 {
      ReadDecides(c.script, x, s.feed.source, BufferSize(c), c.start, length);
    } else {
      OnlyReadsFeed(c, s, a);
    }
  }

  lemma OnlyReadsFeed(c: Config, s: State, a: Action)
    requires Enabled(c, s, a)
    ensures var t := Step(c, s, a);
      if a.ByPump? && a.p.ReadSource?
      then s.feed.exact.remaining == 0 ==> t.feed.exact == s.feed.exact && t.feed.source == s.feed.source
      else t.feed == s.feed
  {
  }

  lemma {:induction false} RunsKeepJudged(c: Config, run: seq<State>, acts: seq<Action>, k: nat, length: nat)
    requires IsRun(c, run, acts) && k < |run|
    requires WellBehaved(c.script, length) && c.start <= length && c.expected > 0
    ensures Judged(c, length, run[k].feed)
    decreases k
  {
    hide AllInv, Enabled, Step, WellBehaved;
    if k > 0 {
      RunsKeepJudged(c, run, acts, k - 1, length);
      EveryStateOfEveryRun(c, run, acts, k - 1);
      assert Enabled(c, run[k - 1], acts[k - 1]) && run[k - 1 + 1] == Step(c, run[k - 1], acts[k - 1]);
      StepKeepsJudged(c, run[k - 1], acts[k - 1], length);
    }
  }

  /** Over a well-behaved source, however reads are cut up and interleaved: a body
      validates exactly if the transport consumed every declared byte and the source
      has them all and, for a final body, no more. */
  lemma ValidatesExactlyTheRightSources(
    c: Config, run: seq<State>, acts: seq<Action>, k: nat, length: nat)
    requires IsRun(c, run, acts) && k < |run|
    requires WellBehaved(c.script, length) && c.start <= length && c.expected > 0
    ensures BodyValidates(run[k]) <==>
            |run[k].reader.delivered| == c.expected && RightSize(c.expected, c.requireEof, c.start, length)
  {
    EveryStateOfEveryRun(c, run, acts, k);
    RunsKeepJudged(c, run, acts, k, length);
    hide BuffersInv, OwnershipInv, LineInv;
  }
}
