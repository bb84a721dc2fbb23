/** What the error behind an upload body's last byte says: end of file means that the
    exact reader is content and that all the declared bytes have been handed over; any
    other error means that it is not. */
module UploadErrors {
  import opened Basics
  import opened ExactSize
  import opened UploadBody
  import opened UploadInvariant
  import opened UploadStream
  import opened UploadGuarantees

  /** The exact reader's verdict agrees with the error. */
  predicate Agrees(x: Exact, err: ReadError) {
    (err == Broken ==> x.failed) && (err == Eof ==> !x.failed && x.remaining == 0)
  }

  predicate AllAgree(x: Exact, q: seq<Piece>) { forall i :: 0 <= i < |q| ==> Agrees(x, q[i].err) }

  predicate NoErrors(q: seq<Piece>) { forall i :: 0 <= i < |q| ==> q[i].err == NoError }

  /** What Read holds: a piece it is reading or has just taken, or its result. */
  predicate ReaderAgrees(x: Exact, r: ReaderSide) {
    && (r.current.Some? ==> Agrees(x, r.current.value.err))
    && (r.at.Received? ==> Agrees(x, r.at.piece.err))
    && (r.at.Finishing? ==> Agrees(x, r.at.err))
  }

  predicate ReaderHasNoError(r: ReaderSide) {
    && (r.current.Some? ==> r.current.value.err == NoError)
    && (r.at.Received? ==> r.at.piece.err == NoError)
    && (r.at.Finishing? ==> r.at.err == NoError)
  }

  /** Every error on its way agrees with the exact reader; while the pump may still read
      the source there is none. */
  predicate Tied(s: State) {
    && ReaderAgrees(s.feed.exact, s.reader) && AllAgree(s.feed.exact, s.chunks)
    && (s.pump.Sending? ==> Agrees(s.feed.exact, s.pump.piece.err))
    && (Live(s.pump) ==> ReaderHasNoError(s.reader) && NoErrors(s.chunks))
    && (s.pump.Sending? ==> ReaderHasNoError(s.reader) && NoErrors(s.chunks))
  }

  /** A piece of which nothing is left but the end of file. */
  predicate UsedUp(p: Option<Piece>) {
    p.Some? && p.value.Data? && p.value.from == p.value.to && p.value.err == Eof
  }

  /** End of file comes with the last declared byte. */
  predicate EndsWhole(c: Config, r: ReaderSide) {
    && (r.at.Copied? && UsedUp(r.current) ==> |r.delivered| == c.expected)
    && (r.at.Finishing? && r.at.err == Eof ==> |r.delivered| == c.expected)
  }

  // ---------------------------------------------------------------- steps

  lemma ReaderKeepsTied(s: State, a: ReaderAction)
    requires Tied(s) && ReaderEnabled(s, a) && (!s.reader.once ==> s.pump.NotStarted?)
    ensures Tied(ReaderStep(s, a))
  {
    hide Bytes, ReleaseIfIdle;
    if a.Receive? {
      assert s.chunks == [s.chunks[0]] + s.chunks[1..];
      assert forall i :: 0 <= i < |s.chunks[1..]| ==> s.chunks[1..][i] == s.chunks[i + 1];
    }
  }

  lemma CloseKeepsTied(s: State, a: CloseAction)
    requires Tied(s) && CloseEnabled(s, a)
    ensures Tied(CloseStep(s, a))
  {
    hide ReleaseIfIdle;
  }

  /** The steps of the pump that do not read. */
  lemma PumpKeepsTied(c: Config, s: State, a: PumpAction)
    requires Tied(s) && PumpEnabled(c, s, a) && !a.ReadSource? && FeedInv(c, s.feed, s.pump)
    ensures Tied(PumpStep(c, s, a))
  {
    hide ReadOnce, ReleaseIfIdle, Upto;
  }

  lemma SourceKeepsTied(c: Config, s: State, filled: seq<Octet>)
    requires Tied(s) && PumpEnabled(c, s, ReadSource(filled)) && FeedInv(c, s.feed, s.pump)
    ensures Tied(PumpStep(c, s, ReadSource(filled)))
  {
    ReadKeepsAccounts(c.script, s.feed.exact, s.feed.source, BufferSize(c), c.start);
    hide ReadOnce, Accounts;
  }

  lemma StepKeepsTied(c: Config, s: State, a: Action)
    requires AllInv(c, s) && Tied(s) && Enabled(c, s, a)
    ensures Tied(Step(c, s, a))
  {
    FeedKnown(c, s);
    hide AllInv, FeedInv, Tied, ReaderStep, PumpStep, CloseStep, ReaderEnabled, PumpEnabled, CloseEnabled;
    match a
    case ByReader(r) => ReaderKeepsTied(s, r);
    case ByPump(ReadSource(filled)) => SourceKeepsTied(c, s, filled);
    case ByPump(p) => PumpKeepsTied(c, s, p);
    case ByCloser(k) => CloseKeepsTied(s, k);
  }

  lemma FeedKnown(c: Config, s: State)
    requires AllInv(c, s)
    ensures FeedInv(c, s.feed, s.pump) && (!s.reader.once ==> s.pump.NotStarted?)
  {
    hide BuffersInv, ShapeInv, FeedInv, LineInv;
  }

  /** Until Close, a used-up first piece with an error is the whole line, and everything
      taken from the source has been handed over. */
  lemma LastPieceIsAll(c: Config, s: State)
    requires AllInv(c, s) && Tied(s) && !s.own.closeCalled && Line(s) != [] && Line(s)[0].err == Eof
    requires Bytes(s.feed.mem, Line(s)[0]) == [] && Agrees(s.feed.exact, Eof)
    ensures |s.reader.delivered| == c.expected
  {
    hide BuffersInv, OwnershipInv, ShapeInv, Tied, Bytes;
    var line := Line(s);
    assert ErrorComesLast(line);
    assert |line| == 1;
    assert line[1..] == [] && Staged(s.feed.mem, line) == Bytes(s.feed.mem, line[0]) + [];
  }

  lemma CopyEndsWhole(c: Config, s: State)
    requires AllInv(c, s) && Tied(s) && ReaderEnabled(s, Copy) && EndsWhole(c, s.reader)
    requires AllInv(c, ReaderStep(s, Copy)) && Tied(ReaderStep(s, Copy))
    ensures EndsWhole(c, ReaderStep(s, Copy).reader)
  {
    var t := ReaderStep(s, Copy);
    CopyStays(s);
    hide AllInv, Line, Tied, ReaderStep, Bytes;
    if t.reader.at.Copied? && UsedUp(t.reader.current) {
      FirstInLine(t);
      NothingLeft(t);
      CurrentAgrees(t);
      LastPieceIsAll(c, t);
    }
  }

  lemma CopyStays(s: State)
    requires ReaderEnabled(s, Copy)
    ensures var t := ReaderStep(s, Copy);
      (t.reader.at.Copied? ==> !t.own.closeCalled) && (t.reader.at.Finishing? ==> t.reader.at.err == NoError)
  {
    hide Bytes;
  }

  lemma NothingLeft(s: State)
    requires UsedUp(s.reader.current)
    ensures Bytes(s.feed.mem, s.reader.current.value) == []
  {}

  lemma CurrentAgrees(s: State)
    requires Tied(s) && s.reader.current.Some?
    ensures Agrees(s.feed.exact, s.reader.current.value.err)
  {}

  lemma FirstInLine(s: State)
    ensures s.reader.current.Some? ==> Line(s) != [] && Line(s)[0] == s.reader.current.value
    ensures s.reader.current.None? && s.reader.at.Received? ==> Line(s) != [] && Line(s)[0] == s.reader.at.piece
  {}

  lemma InspectEndsWhole(c: Config, s: State)
    requires AllInv(c, s) && Tied(s) && ReaderEnabled(s, Inspect) && EndsWhole(c, s.reader) && ReaderShape(s.reader)
    ensures EndsWhole(c, ReaderStep(s, Inspect).reader)
  {
    hide AllInv, Line;
    if !s.own.closeCalled && s.reader.at.piece.Last? && s.reader.at.piece.err == Eof {
      FirstInLine(s);
      LastPieceIsAll(c, s);
    }
  }

  lemma ReaderEndsWhole(c: Config, s: State, a: ReaderAction)
    requires EndsWhole(c, s.reader) && ReaderEnabled(s, a) && !a.Copy? && !a.Inspect? && ReaderShape(s.reader)
    ensures EndsWhole(c, ReaderStep(s, a).reader)
  {
    hide ReleaseIfIdle;
  }

  lemma OthersEndWhole(c: Config, s: State, a: Action)
    requires EndsWhole(c, s.reader) && Enabled(c, s, a) && !a.ByReader?
    ensures EndsWhole(c, Step(c, s, a).reader)
  {
    hide ReleaseIfIdle, ReadOnce;
  }

  lemma ReaderShapeKnown(c: Config, s: State)
    requires AllInv(c, s)
    ensures ReaderShape(s.reader)
  {
    hide BuffersInv, OwnershipInv, StreamInv;
  }

  lemma StepEndsWhole(c: Config, s: State, a: Action)
    requires AllInv(c, s) && Tied(s) && Enabled(c, s, a) && EndsWhole(c, s.reader)
    ensures EndsWhole(c, Step(c, s, a).reader)
  {
    hide AllInv, Tied, ReaderStep, EndsWhole, PumpStep, CloseStep, ReaderEnabled, PumpEnabled, CloseEnabled, ReaderShape;
    ReaderShapeKnown(c, s);
    match a
    case ByReader(Copy) =>
      StepKeepsAll(c, s, a);
      StepKeepsTied(c, s, a);
      CopyEndsWhole(c, s);
    case ByReader(Inspect) => InspectEndsWhole(c, s);
    case ByReader(r) => ReaderEndsWhole(c, s, r);
    case _ => OthersEndWhole(c, s, a);
  }

  // ---------------------------------------------------------------- runs

  lemma InitIsTied(c: Config, s: State)
    requires Init(c, s)
    ensures Tied(s) && EndsWhole(c, s.reader)
  {}

  lemma {:induction false} RunsStayTied(c: Config, run: seq<State>, acts: seq<Action>, k: nat)
    requires IsRun(c, run, acts) && k < |run|
    ensures Tied(run[k]) && EndsWhole(c, run[k].reader)
  {
    hide AllInv, Tied, EndsWhole, Init, Enabled, Step;
    if k == 0 {
      InitIsTied(c, run[0]);
    } else {
      RunsStayTied(c, run, acts, k - 1);
      EveryStateOfEveryRun(c, run, acts, k - 1);
      assert Enabled(c, run[k - 1], acts[k - 1]) && run[k - 1 + 1] == Step(c, run[k - 1], acts[k - 1]);
      StepKeepsTied(c, run[k - 1], acts[k - 1]);
      StepEndsWhole(c, run[k - 1], acts[k - 1]);
    }
  }

  /** What a Read is about to return: end of file with all the declared bytes handed over
      and the exact reader content, or another error and the exact reader not. */
  lemma TerminalErrorIsTheVerdict(c: Config, run: seq<State>, acts: seq<Action>, k: nat)
    requires IsRun(c, run, acts) && k < |run| && run[k].reader.at.Finishing?
    ensures var s := run[k];
      && (s.reader.at.err == Eof ==> !s.feed.exact.failed && s.feed.exact.remaining == 0 && |s.reader.delivered| == c.expected)
      && (s.reader.at.err == Broken ==> s.feed.exact.failed)
  {
    RunsStayTied(c, run, acts, k);
    hide Init, Enabled, Step;
  }

  /** Over a well-behaved source of any length the terminal error is end of file exactly if
      the source has the right size. */
  lemma TerminalErrorJudgesTheSource(c: Config, run: seq<State>, acts: seq<Action>, k: nat, length: nat)
    requires IsRun(c, run, acts) && k < |run| && run[k].reader.at.Finishing? && run[k].reader.at.err != NoError
    requires WellBehaved(c.script, length) && c.start <= length && c.expected > 0
    ensures run[k].reader.at.err == Eof <==> RightSize(c.expected, c.requireEof, c.start, length)
  {
    TerminalErrorIsTheVerdict(c, run, acts, k);
    RunsKeepJudged(c, run, acts, k, length);
    hide Init, Enabled, Step, WellBehaved;
  }
}
