/** exactSizeReader: hands on at most the declared number of bytes of a caller's
    source and decides whether the source was exactly right. */
module ExactSize {
  import opened Basics

  /** maxConsecutiveEmptyReads */
  const MAX_EMPTY: nat := 100

  datatype ReadError = NoError | Eof | Broken

  /** What a source answers: a byte count, which it may get wrong, and an error. */
  datatype Event = Event(n: int, err: ReadError)

  /** The answer to the k-th Read, made at position p with a buffer of m bytes.
      Byte i of the source is whatever position i of its stream holds. */
  type Script = (nat, nat, nat) -> Event

  /** How far a source has been read. `ended` is the position at which it last
      reported end of file. */
  datatype Source = Source(calls: nat, pos: nat, ended: Option<nat>)

  /** The source after answering e to a buffer of m bytes. */
  function Advance(s: Source, e: Event, m: nat): Source {
    var pos := if 0 <= e.n <= m then s.pos + e.n else s.pos;
    Source(s.calls + 1, pos, if e.err == Eof then Some(pos) else s.ended)
  }

  datatype Exact = Exact(
    expected: nat,
    remaining: nat,
    failed: bool,        // sizeErr is set
    requireEof: bool,
    eofValidated: bool,
    emptyReads: nat)

  /** newExactSizeReader */
  function NewExact(size: nat, requireEof: bool): Exact { Exact(size, size, false, requireEof, false, 0) }

  /** A state of reader and source, the bytes handed over, and the error beside them. */
  datatype Outcome = Outcome(x: Exact, s: Source, n: nat, err: ReadError)

  /** probeEOF with `left` attempts to go. */
  function Probe(ev: Script, x: Exact, s: Source, left: nat): Outcome
    decreases left
  {
    if left == 0 then Outcome(x.(failed := true), s, 0, Broken)
    else
      var e := ev(s.calls, s.pos, 1);
      var s' := Advance(s, e, 1);
      if e.n > 0 then Outcome(x.(failed := true), s', 0, Broken)
      else if e.err == Eof then Outcome(x.(eofValidated := true), s', 0, NoError)
      else if e.err == Broken then Outcome(x.(failed := true), s', 0, Broken)
      else Probe(ev, x, s', left - 1)
  }

  /** What Read makes of n bytes and err that the source gave, n > 0 or err set. */
  function Settled(ev: Script, x: Exact, s: Source, n: nat, err: ReadError): Outcome
    requires n <= x.remaining
  {
    var x' := x.(emptyReads := 0, remaining := x.remaining - n);
    if err == Broken then Outcome(x'.(failed := true), s, n, Broken)
    else if err == Eof && x'.remaining > 0 then Outcome(x'.(failed := true), s, n, Broken)
    else if x'.remaining == 0 && x'.requireEof then
      if err == Eof then Outcome(x'.(eofValidated := true), s, n, Eof)
      else
        var probe := Probe(ev, x', s, MAX_EMPTY);
        Outcome(probe.x, probe.s, n, if probe.err != NoError then Broken else err)
    else Outcome(x', s, n, err)
  }

  /** exactSizeReader.Read with a buffer of `len` bytes. */
  function ReadOnce(ev: Script, x: Exact, s: Source, len: nat): Outcome {
    if x.remaining == 0 then Outcome(x, s, 0, Eof)
    else
      var m := Min(len, x.remaining);
      var e := ev(s.calls, s.pos, m);
      var s' := Advance(s, e, m);
      if e.n < 0 || e.n > m then Outcome(x.(failed := true), s', 0, Broken)
      else if e.n == 0 && e.err == NoError then
        var x' := x.(emptyReads := x.emptyReads + 1);
        if x'.emptyReads >= MAX_EMPTY then Outcome(x'.(failed := true), s', 0, Broken)
        else Outcome(x', s', 0, NoError)
      else Settled(ev, x, s', e.n, e.err)
  }

  /** validate */
  predicate Validates(x: Exact) {
    !x.failed && x.remaining == 0 && (x.requireEof ==> x.eofValidated)
  }

  // ---------------------------------------------------------------- what every read keeps

  /** The reader consumed exactly what it handed over, and trusts only an end of
      file that the source reported right behind the declared bytes. */
  predicate Accounts(x: Exact, s: Source, start: nat) {
    && x.remaining <= x.expected
    && (!x.failed ==> s.pos == start + x.expected - x.remaining)
    && (x.eofValidated && !x.failed ==> x.remaining == 0 && s.ended == Some(start + x.expected))
    && (x.remaining == 0 && x.requireEof && !x.failed ==> x.eofValidated || x.expected == 0)
  }

  lemma {:induction false} ProbeKeepsAccounts(ev: Script, x: Exact, s: Source, left: nat, start: nat)
    requires x.remaining == 0 && !x.failed && !x.eofValidated && s.pos == start + x.expected
    ensures var o := Probe(ev, x, s, left);
      && Accounts(o.x, o.s, start)
      && o.x.remaining == 0 && o.x.expected == x.expected && o.x.requireEof == x.requireEof
      && (o.x.failed <==> !o.x.eofValidated)
      && o.err == if o.x.failed then Broken else NoError
    decreases left
  {
    if left > 0 {
      var e := ev(s.calls, s.pos, 1);
      if e.n <= 0 && e.err == NoError {
        ProbeKeepsAccounts(ev, x, Advance(s, e, 1), left - 1, start);
      }
    }
  }

  lemma ReadKeepsAccounts(ev: Script, x: Exact, s: Source, len: nat, start: nat)
    requires Accounts(x, s, start) && !x.failed
    ensures var o := ReadOnce(ev, x, s, len);
      && Accounts(o.x, o.s, start)
      && o.x.expected == x.expected && o.x.requireEof == x.requireEof
      && o.n == x.remaining - o.x.remaining && o.n <= len
      && (o.err == Broken ==> o.x.failed)
      && (o.x.failed ==> o.err == Broken)
      && (o.err == Eof ==> o.x.remaining == 0)
  {
    if x.remaining > 0 {
      var m := Min(len, x.remaining);
      var e := ev(s.calls, s.pos, m);
      if 0 <= e.n <= m && !(e.n == 0 && e.err == NoError) {
        var x' := x.(emptyReads := 0, remaining := x.remaining - e.n);
        if x'.remaining == 0 && x'.requireEof && e.err == NoError {
          ProbeKeepsAccounts(ev, x', Advance(s, e, m), MAX_EMPTY, start);
        }
      }
    }
  }

  // ---------------------------------------------------------------- which sources are accepted

  predicate Empty(ev: Script, k: nat, p: nat, m: nat) {
    ev(k, p, m).n == 0 && ev(k, p, m).err == NoError
  }

  /** Read k at position p moves on or ends, whatever its buffer. */
  ghost predicate NeverEmpty(ev: Script, k: nat, p: nat) {
    forall m: nat :: m > 0 ==> !Empty(ev, k, p, m)
  }

  ghost predicate WasEmpty(ev: Script, k: nat, p: nat) {
    exists m: nat :: m > 0 && Empty(ev, k, p, m)
  }

  /** Some read among k, ..., k + 99 at position p is not empty. */
  ghost predicate SomeProgress(ev: Script, k: nat, p: nat) {
    exists j: nat :: k <= j < k + 100 && NeverEmpty(ev, j, p)
  }

  /** The answer to a buffer of m bytes at position p of a source of `length` bytes. */
  predicate Proper(e: Event, p: nat, m: nat, length: nat) {
    0 <= e.n <= m && p + e.n <= length && e.err != Broken && (e.err == Eof ==> p + e.n == length)
  }

  /** A source of `length` bytes that keeps the contract of an io.Reader and never
      makes a hundred empty reads in a row. */
  ghost predicate WellBehaved(ev: Script, length: nat) {
    && (forall k: nat, p: nat, m: nat :: m > 0 && p <= length ==> Proper(ev(k, p, m), p, m, length))
    && (forall k: nat, p: nat :: p <= length ==> SomeProgress(ev, k, p))
  }

  /** The last `n` reads were empty ones at the present position. */
  ghost predicate JustEmpty(ev: Script, s: Source, n: nat) {
    n <= s.calls && forall j: nat :: s.calls - n <= j < s.calls ==> WasEmpty(ev, j, s.pos)
  }

  /** A well-behaved source never uses up the tolerance for empty reads. */
  lemma EmptiesStayBelowLimit(ev: Script, s: Source, n: nat, length: nat)
    requires WellBehaved(ev, length) && s.pos <= length && JustEmpty(ev, s, n)
    ensures n < MAX_EMPTY
  {
    assert forall j: nat :: NeverEmpty(ev, j, s.pos) <==> !WasEmpty(ev, j, s.pos);
    assert n >= MAX_EMPTY ==> SomeProgress(ev, s.calls - MAX_EMPTY, s.pos);
  }

  lemma EmptyReadCounts(ev: Script, s: Source, n: nat, m: nat)
    requires JustEmpty(ev, s, n) && m > 0 && Empty(ev, s.calls, s.pos, m)
    ensures JustEmpty(ev, Advance(s, ev(s.calls, s.pos, m), m), n + 1)
  {
    assert WasEmpty(ev, s.calls, s.pos);
  }

  /** probeEOF on a well-behaved source finds the end exactly when it is there. */
  lemma {:induction false} ProbeFindsEnd(ev: Script, x: Exact, s: Source, left: nat, length: nat)
    requires WellBehaved(ev, length) && s.pos <= length && !x.failed && !x.eofValidated
    requires left <= MAX_EMPTY && JustEmpty(ev, s, MAX_EMPTY - left)
    ensures Probe(ev, x, s, left).x.eofValidated <==> s.pos == length
    ensures Probe(ev, x, s, left).x.failed <==> s.pos < length
    decreases left
  {
    EmptiesStayBelowLimit(ev, s, MAX_EMPTY - left, length);
    var e := ev(s.calls, s.pos, 1);
    assert Proper(e, s.pos, 1, length);
    if e.n == 0 && e.err == NoError {
      assert Empty(ev, s.calls, s.pos, 1);
      EmptyReadCounts(ev, s, MAX_EMPTY - left, 1);
      ProbeFindsEnd(ev, x, Advance(s, e, 1), left - 1, length);
    }
  }

  /** What holds of a reader over a well-behaved source until it has decided. */
  ghost predicate Tracks(ev: Script, x: Exact, s: Source, start: nat, length: nat) {
    Accounts(x, s, start) && s.pos <= length && (x.remaining > 0 ==> JustEmpty(ev, s, x.emptyReads))
  }

  /** Whether a source of `length` bytes is right for `size` bytes from `start`. */
  predicate RightSize(size: nat, requireEof: bool, start: nat, length: nat) {
    if requireEof then length == start + size else length >= start + size
  }

  /** A Read fails only over a source of the wrong size, and finishes only over one of the right size. */
  lemma ReadDecides(ev: Script, x: Exact, s: Source, len: nat, start: nat, length: nat)
    requires WellBehaved(ev, length) && Tracks(ev, x, s, start, length)
    requires !x.failed && x.remaining > 0 && len > 0
    ensures var o := ReadOnce(ev, x, s, len);
      && (o.x.failed ==> !RightSize(x.expected, x.requireEof, start, length))
      && (!o.x.failed ==> Tracks(ev, o.x, o.s, start, length))
      && (!o.x.failed && o.x.remaining == 0 ==>
            RightSize(x.expected, x.requireEof, start, length) && Validates(o.x))
  {
    ReadKeepsAccounts(ev, x, s, len, start);
    var m := Min(len, x.remaining);
    var e := ev(s.calls, s.pos, m);
    assert Proper(e, s.pos, m, length);
    if e.n == 0 && e.err == NoError {
      assert Empty(ev, s.calls, s.pos, m);
      EmptyReadCounts(ev, s, x.emptyReads, m);
      EmptiesStayBelowLimit(ev, Advance(s, e, m), x.emptyReads + 1, length);
    } else {
      var x' := x.(emptyReads := 0, remaining := x.remaining - e.n);
      if x'.remaining == 0 && x'.requireEof && e.err == NoError {
        ProbeFindsEnd(ev, x', Advance(s, e, m), MAX_EMPTY, length);
        ProbeKeepsPosition(ev, x', Advance(s, e, m), MAX_EMPTY);
      }
    }
  }

  lemma {:induction false} ProbeKeepsPosition(ev: Script, x: Exact, s: Source, left: nat)
    ensures !x.failed && !Probe(ev, x, s, left).x.failed ==> Probe(ev, x, s, left).s.pos == s.pos
    ensures Probe(ev, x, s, left).x.remaining == x.remaining && Probe(ev, x, s, left).x.emptyReads == x.emptyReads
    decreases left
  {
    if left > 0 {
      var e := ev(s.calls, s.pos, 1);
      if e.n <= 0 && e.err == NoError {
        ProbeKeepsPosition(ev, x, Advance(s, e, 1), left - 1);
      }
    }
  }

  /** How a Read, from x to y, treats the answer e of the source to a buffer of m bytes: all
      bytes are handed on; an answer that is wrong, or comes with an error, or ends too
      early fails; one that is neither stays without error, and so does the end where it
      belongs. */
  predicate PassesOn(x: Exact, y: Exact, m: nat, e: Event, n: nat, err: ReadError) {
    && (0 <= e.n <= m ==> n == e.n && y.remaining == x.remaining - n)
    && (e.n < 0 || e.n > m || e.err == Broken || (e.err == Eof && e.n < x.remaining) ==> err == Broken && y.failed)
    && (0 < e.n <= m && e.err == NoError && (e.n < x.remaining || !x.requireEof) ==> err == NoError && y.failed == x.failed)
    && (e.n == m == x.remaining && e.err == Eof ==> err == Eof && y.failed == x.failed)
  }

  lemma ReadPassesOn(ev: Script, x: Exact, s: Source, len: nat)
    requires x.remaining > 0
    ensures var m := Min(len, x.remaining); var o := ReadOnce(ev, x, s, len);
      PassesOn(x, o.x, m, ev(s.calls, s.pos, m), o.n, o.err)
  {
    var m := Min(len, x.remaining);
    var e := ev(s.calls, s.pos, m);
    if 0 <= e.n <= m && e.n == x.remaining {
      ProbeKeepsPosition(ev, x.(emptyReads := 0, remaining := 0), Advance(s, e, m), MAX_EMPTY);
    }
  }

  // ---------------------------------------------------------------- whole bodies

  /** Reads with buffers of the given lengths, one after another, until the reader has decided. */
  function Run(ev: Script, x: Exact, s: Source, lens: seq<nat>): (r: (Exact, Source))
    decreases |lens|
  {
    if lens == [] || x.failed || x.remaining == 0 then (x, s)
    else
      var o := ReadOnce(ev, x, s, lens[0]);
      Run(ev, o.x, o.s, lens[1..])
  }

  predicate Decided(x: Exact) { x.failed || x.remaining == 0 }

  ghost predicate Positive(lens: seq<nat>) { forall i :: 0 <= i < |lens| ==> lens[i] > 0 }

  lemma {:induction false} RunDecides(
    ev: Script, x: Exact, s: Source, lens: seq<nat>, start: nat, length: nat)
    requires WellBehaved(ev, length) && Tracks(ev, x, s, start, length) && Positive(lens)
    requires !Decided(x)
    ensures var (y, _) := Run(ev, x, s, lens);
      Decided(y) ==> (Validates(y) <==> RightSize(x.expected, x.requireEof, start, length))
    decreases |lens|
  {
    if lens != [] {
      ReadDecides(ev, x, s, lens[0], start, length);
      ReadKeepsAccounts(ev, x, s, lens[0], start);
      var o := ReadOnce(ev, x, s, lens[0]);
      if !Decided(o.x) {
        RunDecides(ev, o.x, o.s, lens[1..], start, length);
      }
    }
  }

  /** However a well-behaved source of `length` bytes, standing at `start`, and its reader
      cut the bytes up: once the reader has decided, it accepts the source exactly if
      `size` bytes follow and, for a final body, nothing else does. */
  lemma AcceptsExactlyTheRightSources(
    ev: Script, size: nat, requireEof: bool, calls: nat, start: nat, length: nat, lens: seq<nat>)
    requires WellBehaved(ev, length) && start <= length && size > 0 && Positive(lens)
    ensures var (y, _) := Run(ev, NewExact(size, requireEof), Source(calls, start, None), lens);
      Decided(y) ==> (Validates(y) <==> RightSize(size, requireEof, start, length))
  {
    RunDecides(ev, NewExact(size, requireEof), Source(calls, start, None), lens, start, length);
  }

  /** Reads that remain before any source at all has been decided on. */
  function Patience(x: Exact): int {
    if Decided(x) then 0 else MAX_EMPTY * x.remaining - x.emptyReads
  }

  lemma ReadUsesPatience(ev: Script, x: Exact, s: Source, len: nat)
    requires !Decided(x) && len > 0 && x.emptyReads < MAX_EMPTY
    ensures Patience(ReadOnce(ev, x, s, len).x) < Patience(x)
    ensures Decided(ReadOnce(ev, x, s, len).x) || ReadOnce(ev, x, s, len).x.emptyReads < MAX_EMPTY
  {
    var m := Min(len, x.remaining);
    var e := ev(s.calls, s.pos, m);
    if 0 <= e.n == x.remaining <= m {
      var x' := x.(emptyReads := 0, remaining := 0);
      ProbeKeepsPosition(ev, x', Advance(s, e, m), MAX_EMPTY);
    }
  }

  /** A read that reports no error brings the verdict closer. */
  lemma OkUsesPatience(ev: Script, x: Exact, s: Source, len: nat)
    requires !x.failed && len > 0 && x.emptyReads < MAX_EMPTY
    ensures var o := ReadOnce(ev, x, s, len); o.err == NoError ==> 0 <= Patience(o.x) < Patience(x)
    ensures var o := ReadOnce(ev, x, s, len); Patience(o.x) <= Patience(x)
    ensures var o := ReadOnce(ev, x, s, len); !o.x.failed ==> o.x.emptyReads < MAX_EMPTY
  {
    if x.remaining > 0 {
      ReadUsesPatience(ev, x, s, len);
      var m := Min(len, x.remaining);
      var e := ev(s.calls, s.pos, m);
      if 0 < e.n == x.remaining <= m {
        ProbeKeepsPosition(ev, x.(emptyReads := 0, remaining := 0), Advance(s, e, m), MAX_EMPTY);
      }
    }
  }

  lemma {:induction false} RunUsesPatience(ev: Script, x: Exact, s: Source, lens: seq<nat>)
    requires Positive(lens) && (!Decided(x) ==> x.emptyReads < MAX_EMPTY)
    requires |lens| >= Patience(x)
    ensures Decided(Run(ev, x, s, lens).0)
    decreases |lens|
  {
    if !Decided(x) {
      ReadUsesPatience(ev, x, s, lens[0]);
      var o := ReadOnce(ev, x, s, lens[0]);
      RunUsesPatience(ev, o.x, o.s, lens[1..]);
    }
  }

  /** Whatever the source does, a hundred reads for each declared byte decide. */
  lemma AlwaysDecides(ev: Script, size: nat, requireEof: bool, s: Source, lens: seq<nat>)
    requires Positive(lens) && |lens| >= 100 * size
    ensures Decided(Run(ev, NewExact(size, requireEof), s, lens).0)
  {
    RunUsesPatience(ev, NewExact(size, requireEof), s, lens);
  }

  lemma {:induction false} RunKeepsAccounts(ev: Script, x: Exact, s: Source, lens: seq<nat>, start: nat)
    requires x.failed || Accounts(x, s, start)
    ensures var (y, t) := Run(ev, x, s, lens);
      y.failed || (Accounts(y, t, start) && y.expected == x.expected && y.requireEof == x.requireEof)
    decreases |lens|
  {
    if lens != [] && !Decided(x) {
      ReadKeepsAccounts(ev, x, s, lens[0], start);
      var o := ReadOnce(ev, x, s, lens[0]);
      RunKeepsAccounts(ev, o.x, o.s, lens[1..], start);
    }
  }

  /** No source, however it misbehaves, is accepted unless exactly `size` of its bytes
      were taken and, for a final body, it reported its end right behind them. */
  lemma AcceptanceIsProof(
    ev: Script, size: nat, requireEof: bool, calls: nat, start: nat, lens: seq<nat>)
    requires size > 0
    ensures var (y, t) := Run(ev, NewExact(size, requireEof), Source(calls, start, None), lens);
      Validates(y) ==> t.pos == start + size && (requireEof ==> t.ended == Some(start + size))
  {
    RunKeepsAccounts(ev, NewExact(size, requireEof), Source(calls, start, None), lens, start);
  }

  /** validateReaderEOF, used when nothing is to be sent. */
  function ValidateReaderEof(ev: Script, s: Source): bool {
    Validates(Probe(ev, NewExact(0, true), s, MAX_EMPTY).x)
  }

  /** A push of an empty blob accepts exactly an empty source. */
  lemma EmptyPushNeedsEmptySource(ev: Script, s: Source, length: nat)
    requires WellBehaved(ev, length) && s.pos <= length
    ensures ValidateReaderEof(ev, s) <==> s.pos == length
  {
    ProbeFindsEnd(ev, NewExact(0, true), s, MAX_EMPTY, length);
    ProbeKeepsAccounts(ev, NewExact(0, true), s, MAX_EMPTY, s.pos);
  }

  // ---------------------------------------------------------------- the reader object

  /** The caller's io.Reader. */
  class Reader {
    const script: Script
    const content: nat -> Octet
    var calls: nat
    var pos: nat
    var ended: Option<nat>

    constructor (script: Script, content: nat -> Octet, pos: nat)
      ensures this.script == script && this.content == content
      ensures State() == Source(0, pos, None)
    {
      this.script, this.content, this.calls, this.pos, this.ended := script, content, 0, pos, None;
    }

    function State(): Source reads this { Source(calls, pos, ended) }

    /** Read into the first m bytes of p. */
    method Read(p: array<Octet>, m: nat) returns (n: int, err: ReadError)
      requires m <= p.Length
      modifies this, p
      ensures var e := script(old(calls), old(pos), m);
        n == e.n && err == e.err && State() == Advance(old(State()), e, m)
      ensures 0 <= n <= m ==> forall i :: 0 <= i < n ==> p[i] == content(old(pos) + i)
    {
      var e := script(calls, pos, m);
      n, err, calls := e.n, e.err, calls + 1;
      if 0 <= n <= m {
        forall i | 0 <= i < n { p[i] := content(pos + i); }
        pos := pos + n;
      }
      if err == Eof { ended := Some(pos); }
    }
  }

  class ExactSizeReader {
    const reader: Reader
    const expected: nat
    const requireEof: bool
    var remaining: nat
    var failed: bool
    var eofValidated: bool
    var emptyReads: nat

    constructor (reader: Reader, size: nat, requireEof: bool)
      ensures this.reader == reader && View() == NewExact(size, requireEof)
    {
      this.reader, expected, remaining, this.requireEof := reader, size, size, requireEof;
      failed, eofValidated, emptyReads := false, false, 0;
    }

    function View(): Exact reads this {
      Exact(expected, remaining, failed, requireEof, eofValidated, emptyReads)
    }

    method ProbeEof() returns (err: ReadError)
      modifies this, reader
      ensures var o := Probe(reader.script, old(View()), old(reader.State()), MAX_EMPTY);
        View() == o.x && reader.State() == o.s && err == o.err
    {
      var extra := new Octet[1];
      for i := 0 to MAX_EMPTY
        invariant Probe(reader.script, old(View()), old(reader.State()), MAX_EMPTY)
               == Probe(reader.script, View(), reader.State(), MAX_EMPTY - i)
      {
        var n, e := reader.Read(extra, 1);
        if n > 0 {
          failed := true;
          return Broken;
        }
        if e == Eof {
          eofValidated := true;
          return NoError;
        }
        if e != NoError {
          failed := true;
          return Broken;
        }
      }
      failed := true;
      err := Broken;
    }

    /** Records one non-empty answer of the source: the tail of Read. */
    method Settle(n: nat, e: ReadError) returns (err: ReadError)
      requires n <= remaining
      modifies this, reader
      ensures var o := Settled(reader.script, old(View()), old(reader.State()), n, e);
        View() == o.x && reader.State() == o.s && err == o.err
    {
      err, emptyReads, remaining := e, 0, remaining - n;
      if err == Broken {
        failed := true;
      } else if err == Eof && remaining > 0 {
        failed, err := true, Broken;
      } else if remaining == 0 && requireEof {
        if err == Eof {
          eofValidated := true;
        } else {
          var probe := ProbeEof();
          if probe != NoError { err := Broken; }
        }
      }
    }

    /** Takes the next bytes of the source, in order. */
    method Read(p: array<Octet>) returns (n: nat, err: ReadError)
      modifies this, reader, p
      ensures var o := ReadOnce(reader.script, old(View()), old(reader.State()), p.Length);
        View() == o.x && reader.State() == o.s && n == o.n && err == o.err
      ensures n <= p.Length
      ensures forall i :: 0 <= i < n ==> p[i] == reader.content(old(reader.pos) + i)
      ensures old(remaining) == 0 ==> n == 0 && err == Eof
      ensures old(remaining) > 0 ==>
        var m := Min(p.Length, old(remaining));
        PassesOn(old(View()), View(), m, reader.script(old(reader.calls), old(reader.pos), m), n, err)
    {
      hide PassesOn, Probe, Settled;
      if remaining > 0 { ReadPassesOn(reader.script, View(), reader.State(), p.Length); }
      if remaining == 0 { return 0, Eof; }
      var m := Min(p.Length, remaining);
      var got, e := reader.Read(p, m);
      if got < 0 || got > m {
        failed := true;
        return 0, Broken;
      }
      if got == 0 && e == NoError {
        emptyReads := emptyReads + 1;
        if emptyReads >= MAX_EMPTY {
          failed := true;
          return 0, Broken;
        }
        return 0, NoError;
      }
      n := got;
      err := Settle(n, e);
    }
  }
}
