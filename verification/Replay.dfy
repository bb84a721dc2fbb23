/** readerReplay: one seekable source lent to one request body after another. */
module Replay {
  import opened Basics
  import opened ExactSize
  import opened UploadBody
  import opened UploadStream
  import opened UploadGuarantees

  /** How one request body ended, once its source is free again: what the transport
      got, where the source stands, where it last reported its end, whether it was proven
      wrong, and whether validate accepts. */
  datatype Ending = Ending(delivered: seq<Octet>, pos: nat, ended: Option<nat>, failed: bool, valid: bool)

  function Slice(content: nat -> Octet, from: nat, n: nat): (r: seq<Octet>)
    ensures |r| == n && forall i :: 0 <= i < n ==> r[i] == content(from + i)
  {
    seq(n, i requires i >= 0 => content(from + i))
  }

  /** What may be relied on about a body of `expected` bytes over a source that stood at
      `from`; a final body also proves that nothing follows. */
  predicate Allowed(content: nat -> Octet, from: nat, expected: nat, final: bool, o: Ending) {
    && |o.delivered| <= expected && o.delivered == Slice(content, from, |o.delivered|)
    && (o.valid ==> !o.failed && |o.delivered| == expected && o.pos == from + expected)
    && (o.valid && final ==> o.ended == Some(from + expected))
  }

  /** Every run of the upload-body protocol ends in an allowed outcome. */
  lemma RunsAreAllowed(c: Config, run: seq<State>, acts: seq<Action>, k: nat)
    requires IsRun(c, run, acts) && k < |run| && c.expected > 0
    ensures var s := run[k];
      Allowed(c.content, c.start, c.expected, c.requireEof,
              Ending(s.reader.delivered, s.feed.source.pos, s.feed.source.ended, s.feed.exact.failed, BodyValidates(s)))
  {
    DeliveredInOrder(c, run, acts, k);
    var d := run[k].reader.delivered;
    assert Prefix(c, |d|) == Slice(c.content, c.start, |d|);
    if BodyValidates(run[k]) { ValidBodyWasExact(c, run, acts, k); }
  }

  /** The caller's reader. `owner` is the request body whose pump may be reading it. */
  class Reader {
    const content: nat -> Octet
    var pos: nat
    ghost var owner: Upload?
    /** How many seeks have failed. */
    ghost var faults: nat

    constructor (content: nat -> Octet, pos: nat)
      ensures this.content == content && this.pos == pos && owner == null
    {
      this.content, this.pos, owner, faults := content, pos, null, 0;
    }

    /** No request body can touch the reader. */
    ghost predicate Quiet()
      reads this, owner
    {
      owner == null || owner.outcome.Some?
    }

    /** An owner that is not done stands at the position it was lent the reader at. */
    ghost predicate Lent()
      reads this, owner
    {
      owner != null ==> owner.reader == this && (owner.outcome.None? ==> pos == owner.from)
    }

    /** Seek(to, io.SeekStart): only ever on a quiet reader. A failed seek may leave it anywhere. */
    method Seek(to: nat) returns (ok: bool)
      requires Quiet()
      modifies this`pos, this`faults
      ensures if ok then pos == to && faults == old(faults) else faults == old(faults) + 1
    {
      ok := *;
      if ok {
        pos := to;
      } else {
        var anywhere: int := *;
        pos, faults := if anywhere < 0 then 0 else anywhere, faults + 1;
      }
    }

    /** Seek(0, io.SeekCurrent) */
    method Tell() returns (at: Option<nat>)
      requires Quiet()
      modifies this`faults
      ensures if at.Some? then at.value == pos && faults == old(faults) else faults == old(faults) + 1
    {
      var ok: bool := *;
      if ok { return Some(pos); }
      faults := faults + 1;
      return None;
    }
  }

  /** uploadBody, seen from outside: it has an outcome once it is released. Nobody
      looks at the reader before that, so all its reading may be thought to happen there. */
  class Upload {
    const reader: Reader
    const expected: nat
    const final: bool
    var from: nat
    var outcome: Option<Ending>

    constructor (reader: Reader, expected: nat, final: bool)
      ensures this.reader == reader && this.expected == expected && this.final == final && outcome == None
    {
      this.reader, this.expected, this.final, from, outcome := reader, expected, final, 0, None;
    }

    /** The body becomes the reader's owner; its pump will read from here on. */
    method Claim()
      requires reader.Quiet() && outcome == None
      modifies this, reader`owner
      ensures reader.owner == this && from == reader.pos && outcome == None
    {
      from := reader.pos;
      reader.owner := this;
    }

    /** waitReleased, after Close or not: the transport closes the body and the source
        is free, with some outcome the protocol allows. */
    method WaitReleased()
      requires reader.owner == this && reader.Lent()
      modifies this`outcome, reader`pos
      ensures outcome.Some? && (old(outcome).Some? ==> outcome == old(outcome) && reader.pos == old(reader.pos))
      ensures old(outcome).None? ==>
        Allowed(reader.content, from, expected, final, outcome.value) && reader.pos == outcome.value.pos
    {
      if outcome.Some? { return; }
      var count: int, pos: int, ended: int, failed: bool, valid: bool := *, *, *, *, *;
      var n := if 0 <= count <= expected then count else 0;
      var end := if ended < 0 then None else Some(ended as nat);
      var o := Ending(Slice(reader.content, from, n), if pos < 0 then 0 else pos, end, failed, valid);
      if !Allowed(reader.content, from, expected, final, o) { o := o.(valid := false); }
      outcome := Some(o);
      reader.pos := o.pos;
    }

    /** sourceErrorIfReleased */
    predicate SourceError() reads this { outcome.Some? && outcome.value.failed }

    /** validate, after release */
    predicate Valid() reads this { outcome.Some? && outcome.value.valid }
  }

  class ReaderReplay {
    const reader: Reader
    const start: nat
    var current: Upload?

    /** newReaderReplay, on a reader that can seek */
    constructor (reader: Reader)
      requires reader.owner == null
      ensures this.reader == reader && start == reader.pos && current == null && Valid()
    {
      this.reader, start, current := reader, reader.pos, null;
    }

    /** The body registered last is the only one that may still use the reader. */
    ghost predicate Valid()
      reads this, reader, current
    {
      reader.owner == current && reader.Lent()
    }

    /** A proven source error: no replay will ever succeed again. */
    ghost predicate Blocked()
      reads this, current
    {
      current != null && current.SourceError()
    }

    /** waitCurrentReleased */
    method WaitCurrentReleased() returns (ok: bool)
      requires Valid()
      modifies current, reader`pos
      ensures Valid() && reader.Quiet() && (ok <==> !Blocked())
      ensures old(reader.Quiet()) ==> reader.pos == old(reader.pos) && (current != null ==> current.outcome == old(current.outcome))
      ensures current != null ==> current.from == old(current.from)
      ensures current != null && old(current.outcome).None? ==>
        Allowed(reader.content, current.from, current.expected, current.final, current.outcome.value) && reader.pos == current.outcome.value.pos
      ensures current != null && old(current.outcome).Some? ==> current.outcome == old(current.outcome)
    {
      if current == null { return true; }
      current.WaitReleased();
      return !current.SourceError();
    }

    /** rewind */
    method Rewind() returns (ok: bool)
      requires Valid()
      modifies current, reader`pos, reader`faults
      ensures Valid() && reader.Quiet() && old(reader.faults) <= reader.faults
      ensures !ok ==> Blocked() || reader.faults > old(reader.faults)
      ensures ok ==> reader.pos == start && !Blocked()
      ensures old(Blocked()) ==> !ok && reader.pos == old(reader.pos) && Blocked()
    {
      ok := WaitCurrentReleased();
      if ok { ok := reader.Seek(start); }
    }

    /** position */
    method Position() returns (at: Option<nat>)
      requires Valid()
      modifies current, reader`pos, reader`faults
      ensures Valid() && reader.Quiet() && old(reader.faults) <= reader.faults
      ensures at.None? ==> Blocked() || reader.faults > old(reader.faults)
      ensures at.Some? ==> at.value == reader.pos && !Blocked()
      ensures old(reader.Quiet()) ==> reader.pos == old(reader.pos)
      ensures old(Blocked()) ==> at.None? && Blocked()
    {
      var ok := WaitCurrentReleased();
      if !ok { return None; }
      at := reader.Tell();
    }

    /** register */
    method Register(body: Upload) returns (ok: bool)
      requires Valid() && body.reader == reader && body.outcome == None && body != current
      modifies this`current, body, current, reader`pos, reader`owner
      ensures Valid() && body.outcome == None
      ensures ok ==> current == body && body.from == reader.pos
      ensures !ok ==> current == old(current) && reader.Quiet() && Blocked()
      ensures old(reader.Quiet()) ==> reader.pos == old(reader.pos)
      ensures old(Blocked()) ==> !ok && Blocked()
    {
      ok := WaitCurrentReleased();
      if !ok { return; }
      body.Claim();
      current := body;
    }

    /** The redirect hook of getBody: the same bytes again, for the same request. */
    method GetBody(from: nat, expected: nat, final: bool) returns (body: Upload?)
      requires Valid()
      modifies this`current, current, reader`pos, reader`owner, reader`faults
      ensures Valid() && old(reader.faults) <= reader.faults
      ensures body == null ==> Blocked() || reader.faults > old(reader.faults)
      ensures body != null ==>
        && fresh(body) && current == body && body.outcome == None
        && body.from == from == reader.pos && body.expected == expected && body.final == final
      ensures body == null ==> current == old(current) && reader.Quiet()
      ensures body == null && current != null ==> current.from == old(current.from)
      ensures old(Blocked()) ==> body == null && Blocked()
    {
      var ok := WaitCurrentReleased();
      if !ok { return null; }
      ok := reader.Seek(from);
      if !ok { return null; }
      body := new Upload(reader, expected, final);
      body.Claim();
      current := body;
    }
  }
}
