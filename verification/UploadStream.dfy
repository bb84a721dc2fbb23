/** The staged pieces of an upload body are a lossless queue: what the transport's
    Reads returned, followed by what is staged, is exactly what was taken from the source. */
module UploadStream {
  import opened Basics
  import opened ExactSize
  import opened UploadBody
  import opened UploadInvariant

  function Front(r: ReaderSide): seq<Piece> {
    if r.current.Some? then [r.current.value] else if r.at.Received? then [r.at.piece] else []
  }

  function Back(p: PumpAt): seq<Piece> { if p.Sending? then [p.piece] else [] }

  /** Every staged piece, in the order in which the transport will see it. */
  function Line(s: State): seq<Piece> { Front(s.reader) + s.chunks + Back(s.pump) }

  function Staged(mem: seq<seq<Octet>>, line: seq<Piece>): seq<Octet> {
    if line == [] then [] else Bytes(mem, line[0]) + Staged(mem, line[1..])
  }

  /** The first n bytes the body may send. */
  function Prefix(c: Config, n: nat): (r: seq<Octet>)
    ensures |r| == n && forall i :: 0 <= i < n ==> r[i] == c.content(c.start + i)
  {
    seq(n, i requires i >= 0 => c.content(c.start + i))
  }

  /** Bytes the exact reader has handed on. */
  function Taken(x: Exact): int { x.expected - x.remaining }

  predicate PieceFits(mem: seq<seq<Octet>>, p: Piece) {
    p.Data? ==> p.buf < |mem| && p.from <= p.to <= |mem[p.buf]|
  }

  ghost predicate LineFits(mem: seq<seq<Octet>>, line: seq<Piece>) {
    forall i :: 0 <= i < |line| ==> PieceFits(mem, line[i])
  }

  /** Only the last piece carries an error, and a piece without data is one. */
  ghost predicate ErrorComesLast(line: seq<Piece>) {
    && (forall i :: 0 <= i < |line| - 1 ==> line[i].err == NoError)
    && (forall i :: 0 <= i < |line| && line[i].Last? ==> line[i].err != NoError)
  }

  predicate Live(p: PumpAt) { !p.Sending? && !p.Exiting? && !p.Done? }

  predicate Ends(line: seq<Piece>) { line != [] && line[|line| - 1].err != NoError }

  /** The terminal error is still to come, or last in line, or handed out to a Read. */
  predicate TerminalInv(line: seq<Piece>, p: PumpAt, handedOut: bool) {
    && (Live(p) ==> !Ends(line) && !handedOut)
    && (p.Sending? ==> !handedOut)
    && (p.Exiting? || p.Done? ==> if handedOut then line == [] else Ends(line))
  }

  /** What holds until Close. */
  ghost predicate LineInv(c: Config, delivered: seq<Octet>, line: seq<Piece>, feed: Feed) {
    && LineFits(feed.mem, line)
    && ErrorComesLast(line)
    && 0 <= Taken(feed.exact)
    && delivered + Staged(feed.mem, line) == Prefix(c, Taken(feed.exact))
  }

  ghost predicate FeedInv(c: Config, f: Feed, p: PumpAt) {
    && |f.mem| == BufferCount(c)
    && (forall b :: 0 <= b < |f.mem| ==> |f.mem[b]| == BufferSize(c))
    && f.exact.expected == c.expected && f.exact.requireEof == c.requireEof
    && Accounts(f.exact, f.source, c.start)
    && (!f.exact.failed ==> f.exact.emptyReads < MAX_EMPTY)
    && (Live(p) ==> !f.exact.failed)
    && (p.Sending? ==> (f.exact.failed <==> p.piece.err == Broken))
  }

  ghost predicate StreamInv(c: Config, s: State) {
    && FeedInv(c, s.feed, s.pump)
    && (!s.own.closeCalled ==> LineInv(c, s.reader.delivered, Line(s), s.feed))
    && (!s.own.closeCalled ==> TerminalInv(Line(s), s.pump, s.reader.handedOut))
    && |s.reader.delivered| <= Taken(s.feed.exact)
    && s.reader.delivered == Prefix(c, |s.reader.delivered|)
  }

  // ---------------------------------------------------------------- staging

  lemma {:induction false} StagedAppend(mem: seq<seq<Octet>>, line: seq<Piece>, p: Piece)
    ensures Staged(mem, line + [p]) == Staged(mem, line) + Bytes(mem, p)
  {
    hide Bytes;
    var more := line + [p];
    if line == [] {
      assert more == [p] && more[1..] == [];
    } else {
      assert more[0] == line[0] && more[1..] == line[1..] + [p];
      StagedAppend(mem, line[1..], p);
      Associate(Bytes(mem, line[0]), Staged(mem, line[1..]), Bytes(mem, p));
    }
  }

  /** No piece of the line lies in buffer b. */
  ghost predicate Avoids(line: seq<Piece>, b: nat) {
    forall i :: 0 <= i < |line| && line[i].Data? ==> line[i].buf != b
  }

  /** Writing to a buffer outside the line changes nothing that is staged. */
  lemma {:induction false} StagedElsewhere(mem: seq<seq<Octet>>, line: seq<Piece>, b: nat, bytes: seq<Octet>)
    requires b < |mem| && Avoids(line, b)
    ensures Staged(mem[b := bytes], line) == Staged(mem, line)
  {
    if line != [] {
      assert Bytes(mem[b := bytes], line[0]) == Bytes(mem, line[0]);
      assert forall i :: 0 <= i < |line[1..]| ==> line[1..][i] == line[i + 1];
      StagedElsewhere(mem, line[1..], b, bytes);
    }
  }

  lemma {:induction false} QueueAvoids(q: seq<Piece>, b: nat)
    requires QueueHolds(q)[b] == 0
    ensures Avoids(q, b)
  {
    if q != [] {
      assert q == [q[0]] + q[1..];
      QueueAvoids(q[1..], b);
    }
  }

  /** The buffer the source is reading into is not in line: the pump never
      overwrites bytes the transport has yet to read. */
  lemma PumpWritesOutsideLine(c: Config, s: State)
    requires BuffersInv(c, s) && ReaderShape(s.reader) && s.pump.Reading?
    ensures Avoids(Line(s), s.pump.buf) && s.pump.buf < BufferCount(c)
  {
    var b := s.pump.buf;
    ReadBufferIsAlone(c, s);
    QueueAvoids(s.chunks, b);
    hide BuffersInv, QueueHolds, Held;
  }

  lemma ReadBufferIsAlone(c: Config, s: State)
    requires BuffersInv(c, s) && s.pump.Reading?
    ensures var b := s.pump.buf; b < BufferCount(c) && QueueHolds(s.chunks)[b] == 0 && ReaderHolds(s.reader)[b] == 0
  {
    hide QueueHolds, ReaderHolds, AllBuffers;
    var b := s.pump.buf;
    BufferOnce(c, b);
    assert Held(s)[b] <= AllBuffers(c)[b];
  }

  lemma BufferOnce(c: Config, b: nat)
    ensures AllBuffers(c)[b] == if b < BufferCount(c) then 1 else 0
  {
    UptoOnce(BufferCount(c), b);
  }

  lemma {:induction false} UptoOnce(n: nat, b: nat)
    ensures multiset(Upto(n))[b] == if b < n then 1 else 0
  {
    if n > 0 {
      UptoOnce(n - 1, b);
      assert Upto(n) == Upto(n - 1) + [n - 1];
    }
  }

  // ---------------------------------------------------------------- steps that move pieces along

  /** Steps that neither hand bytes over nor take any from the source. */
  predicate MovesOnly(s: State, a: Action) {
    match a
    case ByReader(r) =>
      && (r.Copy? ==> s.own.closeCalled)
      && (r.Inspect? ==> s.own.closeCalled || (s.reader.at.Received? && s.reader.at.piece.Data?))
      && (r.Settle? ==> s.reader.current.Some? && s.reader.current.value.Data?
                        && s.reader.current.value.from < s.reader.current.value.to)
    case ByPump(p) => !p.ReadSource? && !p.Acquire?
    case ByCloser(_) => true
  }

  lemma ReaderMovesKeepLine(c: Config, s: State, r: ReaderAction)
    requires ReaderEnabled(s, r) && MovesOnly(s, ByReader(r)) && ReaderShape(s.reader) && OwnershipInv(c, s)
    ensures var t := ReaderStep(s, r);
      && t.feed == s.feed && t.reader.delivered == s.reader.delivered
      && (!s.own.closeCalled ==> Line(t) == Line(s) && t.reader.handedOut == s.reader.handedOut)
      && (s.pump == t.pump || (s.pump.NotStarted? && t.pump.Setup?))
  {
    if r.Receive? {
      assert Front(ReaderStep(s, r).reader) + s.chunks[1..] == Front(s.reader) + s.chunks;
    }
  }

  lemma PumpMovesKeepLine(c: Config, s: State, p: PumpAction)
    requires PumpEnabled(c, s, p) && MovesOnly(s, ByPump(p))
    ensures var t := PumpStep(c, s, p);
      && t.feed == s.feed && t.reader == s.reader
      && (!s.own.closeCalled ==> Line(t) == Line(s))
  {
  }

  lemma CloseMovesKeepLine(s: State, k: CloseAction)
    requires CloseEnabled(s, k)
    ensures var t := CloseStep(s, k);
      t.feed == s.feed && t.reader.delivered == s.reader.delivered && t.pump == s.pump
  {
  }

  /** Where the pump may go without reading the source. */
  lemma PumpMovesKeepTerminal(c: Config, s: State, p: PumpAction)
    requires PumpEnabled(c, s, p) && MovesOnly(s, ByPump(p)) && PumpShape(s.pump) && !s.own.closeCalled
    requires FeedInv(c, s.feed, s.pump) && TerminalInv(Line(s), s.pump, s.reader.handedOut)
    ensures var t := PumpStep(c, s, p);
      FeedInv(c, t.feed, t.pump) && TerminalInv(Line(t), t.pump, t.reader.handedOut)
  {
    PumpMovesKeepLine(c, s, p);
    if p.Send? {
      assert Line(s)[|Line(s)| - 1] == s.pump.piece;
    }
  }

  // ---------------------------------------------------------------- the reader takes bytes

  lemma StagedHead(mem: seq<seq<Octet>>, p: Piece, rest: seq<Piece>)
    ensures Staged(mem, [p] + rest) == Bytes(mem, p) + Staged(mem, rest)
  {
    assert ([p] + rest)[1..] == rest;
  }

  /** A piece is its first n bytes and the rest. */
  lemma SplitPiece(mem: seq<seq<Octet>>, p: Piece, n: nat)
    requires p.Data? && p.from + n <= p.to && PieceFits(mem, p)
    ensures Bytes(mem, p) == Bytes(mem, p.(to := p.from + n)) + Bytes(mem, p.(from := p.from + n))
  {
  }

  lemma AdvanceFits(mem: seq<seq<Octet>>, p: Piece, rest: seq<Piece>, n: nat)
    requires LineFits(mem, [p] + rest) && ErrorComesLast([p] + rest) && p.Data? && p.from + n <= p.to
    ensures LineFits(mem, [p.(from := p.from + n)] + rest) && ErrorComesLast([p.(from := p.from + n)] + rest)
  {
    var line, line' := [p] + rest, [p.(from := p.from + n)] + rest;
    assert PieceFits(mem, line[0]);
    assert forall i :: 0 < i < |line'| ==> line'[i] == line[i];
    assert forall i :: 0 <= i < |line'| ==> line'[i].err == line[i].err;
  }

  /** Handing over n bytes of the first piece keeps delivered-then-staged as it was. */
  lemma AdvanceKeepsLine(c: Config, delivered: seq<Octet>, p: Piece, rest: seq<Piece>, feed: Feed, n: nat)
    requires LineInv(c, delivered, [p] + rest, feed) && p.Data? && p.from + n <= p.to
    ensures LineInv(c, delivered + Bytes(feed.mem, p.(to := p.from + n)), [p.(from := p.from + n)] + rest, feed)
  {
    AdvanceFits(feed.mem, p, rest, n);
    assert PieceFits(feed.mem, ([p] + rest)[0]);
    SplitPiece(feed.mem, p, n);
    StagedHead(feed.mem, p, rest);
    StagedHead(feed.mem, p.(from := p.from + n), rest);
    hide Bytes, Staged, Prefix, ErrorComesLast, LineFits, PieceFits;
    var first, left := Bytes(feed.mem, p.(to := p.from + n)), Bytes(feed.mem, p.(from := p.from + n));
    Associate(first, left, Staged(feed.mem, rest));
    Associate(delivered, first, left + Staged(feed.mem, rest));
  }

  /** A used-up first piece can go. */
  lemma PopKeepsLine(c: Config, delivered: seq<Octet>, p: Piece, rest: seq<Piece>, feed: Feed)
    requires LineInv(c, delivered, [p] + rest, feed) && Bytes(feed.mem, p) == []
    ensures LineInv(c, delivered, rest, feed)
  {
    StagedHead(feed.mem, p, rest);
    assert forall i :: 0 <= i < |rest| ==> rest[i] == ([p] + rest)[i + 1];
  }

  /** If the first piece carries an error it was the only one. */
  lemma PopKeepsTerminal(p: Piece, rest: seq<Piece>, pump: PumpAt, handedOut: bool)
    requires ErrorComesLast([p] + rest) && TerminalInv([p] + rest, pump, handedOut)
    requires pump.Sending? ==> rest != [] && rest[|rest| - 1] == pump.piece
    ensures TerminalInv(rest, pump, handedOut || p.err != NoError)
  {
    var line := [p] + rest;
    assert line[0] == p;
    assert rest != [] ==> rest[|rest| - 1] == line[|line| - 1] && p.err == NoError;
  }

  lemma LineFixesDelivered(c: Config, delivered: seq<Octet>, line: seq<Piece>, feed: Feed)
    requires LineInv(c, delivered, line, feed)
    ensures |delivered| <= Taken(feed.exact) && delivered == Prefix(c, |delivered|)
  {
    var all := Prefix(c, Taken(feed.exact));
    assert delivered + Staged(feed.mem, line) == all;
    assert all[..|delivered|] == delivered;
    assert all[..|delivered|] == Prefix(c, |delivered|);
  }

  /** The steps that take something out of the line. */
  predicate TakesOut(s: State, r: ReaderAction) {
    ReaderEnabled(s, r) && !MovesOnly(s, ByReader(r)) && !s.own.closeCalled
  }

  lemma CopyKeepsStream(c: Config, s: State)
    requires StreamInv(c, s) && ReaderShape(s.reader) && TakesOut(s, Copy)
    ensures StreamInv(c, ReaderStep(s, Copy))
  {
    var t := ReaderStep(s, Copy);
    var p := s.reader.current.value;
    var n := Min(s.reader.at.m, p.to - p.from);
    var rest := s.chunks + Back(s.pump);
    assert Line(s) == [p] + rest;
    assert Line(t) == [p.(from := p.from + n)] + rest;
    AdvanceKeepsLine(c, s.reader.delivered, p, rest, s.feed, n);
    LineFixesDelivered(c, t.reader.delivered, Line(t), t.feed);
    assert Ends(Line(t)) == Ends(Line(s));
  }

  lemma LastPieceSent(q: seq<Piece>, p: PumpAt)
    requires p.Sending?
    ensures (q + Back(p)) != [] && (q + Back(p))[|q + Back(p)| - 1] == p.piece
  {
  }

  lemma PopKeepsStream(c: Config, s: State, r: ReaderAction)
    requires StreamInv(c, s) && ReaderShape(s.reader) && TakesOut(s, r) && (r.Inspect? || r.Settle?)
    requires PumpShape(s.pump)
    ensures StreamInv(c, ReaderStep(s, r))
  {
    var t := ReaderStep(s, r);
    var p := if r.Inspect? then s.reader.at.piece else s.reader.current.value;
    var rest := s.chunks + Back(s.pump);
    assert Line(s) == [p] + rest;
    assert Line(t) == rest;
    assert Bytes(s.feed.mem, p) == [];
    PopKeepsLine(c, s.reader.delivered, p, rest, s.feed);
    if s.pump.Sending? { LastPieceSent(s.chunks, s.pump); }
    assert p.Last? ==> Line(s)[0].err != NoError;
    PopKeepsTerminal(p, rest, s.pump, s.reader.handedOut);
  }

  // ---------------------------------------------------------------- the pump takes bytes

  lemma AppendKeepsOrder(line: seq<Piece>, p: Piece)
    requires ErrorComesLast(line) && !Ends(line) && (p.Last? ==> p.err != NoError)
    ensures ErrorComesLast(line + [p])
  {
    var line' := line + [p];
    assert forall i :: 0 <= i < |line| ==> line'[i] == line[i];
    assert line != [] ==> line[|line| - 1].err == NoError;
  }

  lemma PrefixGrows(c: Config, n: nat, more: seq<Octet>)
    requires forall i :: 0 <= i < |more| ==> more[i] == c.content(c.start + n + i)
    ensures Prefix(c, n) + more == Prefix(c, n + |more|)
  {
  }

  lemma AppendKeepsLine(c: Config, delivered: seq<Octet>, line: seq<Piece>, feed: Feed, p: Piece, taken: nat)
    requires LineInv(c, delivered, line, feed) && !Ends(line) && (p.Last? ==> p.err != NoError)
    requires PieceFits(feed.mem, p) && taken == Taken(feed.exact) + |Bytes(feed.mem, p)|
    requires forall i :: 0 <= i < |Bytes(feed.mem, p)| ==>
               Bytes(feed.mem, p)[i] == c.content(c.start + Taken(feed.exact) + i)
    ensures LineFits(feed.mem, line + [p]) && ErrorComesLast(line + [p])
    ensures delivered + Staged(feed.mem, line + [p]) == Prefix(c, taken)
  {
    AppendKeepsOrder(line, p);
    StagedAppend(feed.mem, line, p);
    PrefixGrows(c, Taken(feed.exact), Bytes(feed.mem, p));
    hide Bytes, Staged, ErrorComesLast, Ends, PieceFits, Prefix;
    Associate(delivered, Staged(feed.mem, line), Bytes(feed.mem, p));
  }

  /** Filling a buffer outside the line. */
  lemma FillKeepsLine(c: Config, delivered: seq<Octet>, line: seq<Piece>, feed: Feed, b: nat, filled: seq<Octet>)
    requires LineInv(c, delivered, line, feed) && Avoids(line, b) && b < |feed.mem|
    requires |filled| == |feed.mem[b]|
    ensures LineInv(c, delivered, line, feed.(mem := feed.mem[b := filled]))
  {
    StagedElsewhere(feed.mem, line, b, filled);
    var mem' := feed.mem[b := filled];
    forall i | 0 <= i < |line|
      ensures PieceFits(mem', line[i])
    {
      assert PieceFits(feed.mem, line[i]);
    }
  }

  lemma AcquireKeepsStream(c: Config, s: State)
    requires StreamInv(c, s) && PumpEnabled(c, s, Acquire)
    ensures StreamInv(c, PumpStep(c, s, Acquire))
  {
    var t := PumpStep(c, s, Acquire);
    if c.expected == 0 {
      assert Line(t) == Line(s) + [Last(Eof)];
      if !s.own.closeCalled {
        AppendKeepsLine(c, s.reader.delivered, Line(s), s.feed, Last(Eof), Taken(s.feed.exact));
      }
    } else {
      assert Line(t) == Line(s);
    }
  }

  /** One answer of the source: the exact reader's books and the bytes in the buffer. */
  lemma SourceAnswer(c: Config, s: State, filled: seq<Octet>)
    requires FeedInv(c, s.feed, s.pump) && PumpEnabled(c, s, ReadSource(filled))
    requires s.pump.buf < BufferCount(c)
    ensures var o := ReadOnce(c.script, s.feed.exact, s.feed.source, BufferSize(c));
      var t := PumpStep(c, s, ReadSource(filled));
      && FeedInv(c, t.feed, t.pump)
      && t.feed.mem == s.feed.mem[s.pump.buf := filled]
      && Taken(t.feed.exact) == Taken(s.feed.exact) + o.n && o.n <= |filled|
      && (forall i :: 0 <= i < o.n ==> filled[i] == c.content(c.start + Taken(s.feed.exact) + i))
      && t.pump == Batch(s.pump.buf, o.n, o.err)
  {
    ReadKeepsAccounts(c.script, s.feed.exact, s.feed.source, BufferSize(c), c.start);
    OkUsesPatience(c.script, s.feed.exact, s.feed.source, BufferSize(c));
    hide ReadOnce, Patience;
  }

  lemma FeedShape(c: Config, s: State)
    requires FeedInv(c, s.feed, s.pump)
    ensures |s.feed.mem| == BufferCount(c)
    ensures forall b :: 0 <= b < |s.feed.mem| ==> |s.feed.mem[b]| == BufferSize(c)
  {
  }

  lemma LineAfterRead(c: Config, delivered: seq<Octet>, line: seq<Piece>, feed: Feed)
    requires LineFits(feed.mem, line) && ErrorComesLast(line) && 0 <= Taken(feed.exact)
    requires delivered + Staged(feed.mem, line) == Prefix(c, Taken(feed.exact))
    ensures LineInv(c, delivered, line, feed)
  {
  }

  lemma FeedFrame(c: Config, s: State, filled: seq<Octet>)
    requires PumpEnabled(c, s, ReadSource(filled))
    ensures var t := PumpStep(c, s, ReadSource(filled));
      s.pump.Reading? && t.own == s.own && t.reader == s.reader && t.chunks == s.chunks && t.closer == s.closer
  {
    hide ReadOnce;
  }

  /** The line after the answer: one piece more, or the same. */
  lemma ReadKeepsLine(c: Config, s: State, filled: seq<Octet>)
    requires StreamInv(c, s) && !s.own.closeCalled && PumpEnabled(c, s, ReadSource(filled))
    requires Avoids(Line(s), s.pump.buf) && s.pump.buf < BufferCount(c)
    ensures var t := PumpStep(c, s, ReadSource(filled));
      LineInv(c, t.reader.delivered, Line(t), t.feed) && TerminalInv(Line(t), t.pump, t.reader.handedOut)
  {
    SourceAnswer(c, s, filled);
    FeedFrame(c, s, filled);
    hide ReadOnce, FeedInv, Accounts, PumpStep, Staged, Prefix;
    var t, line := PumpStep(c, s, ReadSource(filled)), Line(s);
    var feed := s.feed.(mem := t.feed.mem);
    assert |filled| == |s.feed.mem[s.pump.buf]| by { FeedShape(c, s); }
    assert LineInv(c, s.reader.delivered, line, feed) by {
      FillKeepsLine(c, s.reader.delivered, line, s.feed, s.pump.buf, filled);
    }
    assert line == Front(s.reader) + s.chunks;
    hide LineInv;
    if t.pump.Sending? {
      assert Line(t) == line + [t.pump.piece];
      AppendKeepsLine(c, s.reader.delivered, line, feed, t.pump.piece, Taken(t.feed.exact));
      LineAfterRead(c, s.reader.delivered, line + [t.pump.piece], t.feed);
    } else {
      assert Line(t) == line;
    }
  }

  lemma ReadKeepsStream(c: Config, s: State, filled: seq<Octet>)
    requires StreamInv(c, s) && BuffersInv(c, s) && ReaderShape(s.reader)
    requires PumpEnabled(c, s, ReadSource(filled))
    ensures StreamInv(c, PumpStep(c, s, ReadSource(filled)))
  {
    hide BuffersInv, ReadOnce, FeedInv, LineInv, Line, PumpStep, PumpEnabled, ReaderShape, Avoids, TerminalInv, Prefix, Batch;
    FeedFrame(c, s, filled);
    PumpWritesOutsideLine(c, s);
    SourceAnswer(c, s, filled);
    if !s.own.closeCalled { ReadKeepsLine(c, s, filled); }
  }

  // ---------------------------------------------------------------- every step, every run

  lemma ReaderKeepsStream(c: Config, s: State, r: ReaderAction)
    requires StreamInv(c, s) && OwnershipInv(c, s) && ReaderShape(s.reader) && PumpShape(s.pump)
    requires ReaderEnabled(s, r)
    ensures StreamInv(c, ReaderStep(s, r))
  {
    if TakesOut(s, r) {
      if r.Copy? { CopyKeepsStream(c, s); } else { PopKeepsStream(c, s, r); }
    } else if MovesOnly(s, ByReader(r)) {
      hide OwnershipInv, LineInv;
      ReaderMovesKeepLine(c, s, r);
    } else {
      ClosedReaderKeepsStream(c, s, r);
    }
  }

  lemma ClosedReaderKeepsStream(c: Config, s: State, r: ReaderAction)
    requires StreamInv(c, s) && s.own.closeCalled && ReaderEnabled(s, r) && (r.Settle? || r.Inspect?)
    ensures StreamInv(c, ReaderStep(s, r))
  {
    hide LineInv, FeedInv;
  }

  lemma PumpKeepsStream(c: Config, s: State, p: PumpAction)
    requires StreamInv(c, s) && BuffersInv(c, s) && ReaderShape(s.reader) && PumpShape(s.pump)
    requires PumpEnabled(c, s, p)
    ensures StreamInv(c, PumpStep(c, s, p))
  {
    match p
    case Acquire => AcquireKeepsStream(c, s);
    case ReadSource(filled) => ReadKeepsStream(c, s, filled);
    case _ => PumpMovesKeepStream(c, s, p);
  }

  lemma PumpMovesKeepStream(c: Config, s: State, p: PumpAction)
    requires StreamInv(c, s) && PumpShape(s.pump) && PumpEnabled(c, s, p) && MovesOnly(s, ByPump(p))
    ensures StreamInv(c, PumpStep(c, s, p))
  {
    hide LineInv, ReadOnce;
    PumpMovesKeepLine(c, s, p);
    if !s.own.closeCalled { PumpMovesKeepTerminal(c, s, p); }
  }

  lemma CloseKeepsStream(c: Config, s: State, k: CloseAction)
    requires StreamInv(c, s) && OwnershipInv(c, s) && CloseEnabled(s, k)
    ensures StreamInv(c, CloseStep(s, k))
  {
    hide LineInv, FeedInv;
    CloseMovesKeepLine(s, k);
  }

  /** Queued data is never empty. */
  ghost predicate QueueShape(q: seq<Piece>) {
    forall i :: 0 <= i < |q| && q[i].Data? ==> q[i].from < q[i].to
  }

  ghost predicate ShapeInv(s: State) { ReaderShape(s.reader) && PumpShape(s.pump) && QueueShape(s.chunks) }

  ghost predicate AllInv(c: Config, s: State) {
    OwnershipInv(c, s) && ShapeInv(s) && BuffersInv(c, s) && StreamInv(c, s)
  }

  lemma ReaderKeepsShape(s: State, r: ReaderAction)
    requires ShapeInv(s) && ReaderEnabled(s, r)
    ensures ShapeInv(ReaderStep(s, r))
  {
  }

  lemma PumpKeepsShape(c: Config, s: State, p: PumpAction)
    requires ShapeInv(s) && PumpEnabled(c, s, p)
    ensures ShapeInv(PumpStep(c, s, p))
  {
    hide ReadOnce;
  }

  lemma CloseKeepsShape(s: State, k: CloseAction)
    requires ShapeInv(s) && CloseEnabled(s, k)
    ensures ShapeInv(CloseStep(s, k))
  {
  }

  lemma StepKeepsAll(c: Config, s: State, a: Action)
    requires AllInv(c, s) && Enabled(c, s, a)
    ensures AllInv(c, Step(c, s, a))
  {
    StepKeepsBuffers(c, s, a);
    hide BuffersInv, StreamInv, OwnershipInv, ShapeInv;
    assert ReaderShape(s.reader) && PumpShape(s.pump) by { ShapeParts(s); }
    match a
    case ByReader(r) =>
      ReaderKeepsOwnership(c, s, r);
      ReaderKeepsShape(s, r);
      ReaderKeepsStream(c, s, r);
    case ByPump(p) =>
      PumpKeepsOwnership(c, s, p);
      PumpKeepsShape(c, s, p);
      PumpKeepsStream(c, s, p);
    case ByCloser(k) =>
      CloseKeepsOwnership(c, s, k);
      CloseKeepsShape(s, k);
      CloseKeepsStream(c, s, k);
  }

  lemma ShapeParts(s: State)
    requires ShapeInv(s)
    ensures ReaderShape(s.reader) && PumpShape(s.pump)
  {
  }

  lemma InitHasAll(c: Config, s: State)
    requires Init(c, s)
    ensures AllInv(c, s)
  {
    assert multiset(s.available) == multiset{};
    assert Line(s) == [];
  }

  lemma {:induction false} EveryStateOfEveryRun(c: Config, run: seq<State>, acts: seq<Action>, k: nat)
    requires IsRun(c, run, acts) && k < |run|
    ensures AllInv(c, run[k])
    decreases k
  {
    if k == 0 {
      InitHasAll(c, run[0]);
    } else {
      EveryStateOfEveryRun(c, run, acts, k - 1);
      assert Enabled(c, run[k - 1], acts[k - 1]) && run[k - 1 + 1] == Step(c, run[k - 1], acts[k - 1]);
      StepKeepsAll(c, run[k - 1], acts[k - 1]);
    }
  }

  /** One more step makes a longer run. */
  lemma RunExtends(c: Config, run: seq<State>, acts: seq<Action>, a: Action, s: State)
    requires IsRun(c, run, acts) && Enabled(c, run[|acts|], a) && s == Step(c, run[|acts|], a)
    ensures IsRun(c, run + [s], acts + [a])
  {
    hide Init, Enabled, Step;
    var n := |acts|;
    var longer, more := run + [s], acts + [a];
    forall i | 0 <= i < |more|
      ensures Enabled(c, longer[i], more[i]) && longer[i + 1] == Step(c, longer[i], more[i])
    {
      if i < n {
        assert Enabled(c, run[i], acts[i]) && run[i + 1] == Step(c, run[i], acts[i]);
        assert longer[i] == run[i] && longer[i + 1] == run[i + 1] && more[i] == acts[i];
      } else {
        assert longer[i] == run[n] && longer[i + 1] == s && more[i] == a;
      }
    }
  }
}
