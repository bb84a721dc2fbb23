/** What one push says to an upload endpoint: sessions, patches, commits and cancels,
    in an event log, and the ledger that orders them. */
module Sessions {
  import opened Basics
  import opened Wire
  import opened Registry
  import opened Progress
  import opened Replay

  /** An upload endpoint's answer: Range acknowledgement, OCI-Chunk-Min-Length, and
      whether its Location could be resolved. */
  datatype PushReply =
    | NoAnswer(retryable: bool)
    | Answer(status: int, ack: string, minChunk: int, hasLocation: bool, locationOk: bool)

  datatype Request = Post | PatchChunk(offset: nat, n: nat) | Put(n: nat)

  /** How a request went: its answer, the bytes the transport took of its body, where the
      source reported its end, whether the body validated, and whether the source was
      proven wrong. */
  datatype Sent = Sent(reply: PushReply, bytes: seq<Octet>, ended: Option<nat>, valid: bool, wrong: bool)

  /** A request and its answer; the end of a request that may have a body; a call of
      cancelUploadSession, and whether it still asked the registry. */
  datatype Event = Asked(request: Request, reply: PushReply) | Settled(sent: Sent) | Cancelled(asked: bool)

  /** Whatever the registry does: the n-th request gets the n-th reply, after so many
      redirects. The log records every request, what became of it, and every cancel. */
  class Endpoint {
    const reply: nat -> PushReply
    const hops: nat -> nat
    var count: nat
    ghost var log: seq<Event>

    constructor (reply: nat -> PushReply, hops: nat -> nat)
      ensures this.reply == reply && this.hops == hops && count == 0 && log == []
    {
      this.reply, this.hops, count, log := reply, hops, 0, [];
    }

    /** Sends a request and gets its answer. */
    method Send(request: Request) returns (r: PushReply)
      modifies this
      ensures count == old(count) + 1 && r == reply(old(count)) && log == old(log) + [Asked(request, r)]
    {
      r, count := reply(count), count + 1;
      log := log + [Asked(request, r)];
    }

    /** A redirected request whose body could not be had again has no answer. */
    method Abandon(request: Request, retryable: bool) returns (r: PushReply)
      modifies this
      ensures r == NoAnswer(retryable) && log == old(log) + [Asked(request, r)] && count == old(count)
    {
      r := NoAnswer(retryable);
      log := log + [Asked(request, r)];
    }

    /** A request is over; `last` is the body that counts, and its source is free again. */
    method Settle(r: PushReply, last: Upload?) returns (x: Sent)
      requires last != null ==> last.outcome.Some?
      modifies this`log
      ensures x == Ended(r, last) && log == old(log) + [Settled(x)]
    {
      x := Ended(r, last);
      log := log + [Settled(x)];
    }

    /** cancelUploadSession: one request, unless the context has ended. */
    method CancelSession(ctx: Context) returns (asked: bool)
      modifies this, ctx
      ensures log == old(log) + [Cancelled(asked)] && (!asked ==> ctx.done)
      ensures count == old(count) + if asked then 1 else 0
    {
      var ended := ctx.Err();
      asked := !ended;
      if asked { count := count + 1; }
      log := log + [Cancelled(asked)];
    }
  }

  /** What the ending of a body makes of its request. */
  function Ended(r: PushReply, last: Upload?): Sent
    requires last != null ==> last.outcome.Some?
    reads last
  {
    if last == null then Sent(r, [], None, true, false)
    else
      var o := last.outcome.value;
      Sent(r, o.delivered, o.ended, o.valid, o.failed)
  }

  /** Transport breaks that may pass and retryable statuses are worth a new session. */
  predicate WorthRestart(r: PushReply) {
    match r
    case NoAnswer(retryable) => retryable
    case Answer(status, _, _, _, _) => RetryableStatus(status)
  }

  /** A new session may help, and the source is not to blame. */
  predicate Recoverable(x: Sent) { WorthRestart(x.reply) && !x.wrong }

  predicate SessionOpened(r: PushReply) { r.Answer? && r.status == 202 && r.locationOk }

  /** The registry took the blob, and the body was exactly the declared bytes. */
  predicate Committed(x: Sent) { x.reply.Answer? && x.reply.status == 201 && x.valid }

  /** The registry took the chunk that ends at byte `end`, says so, and names a usable session. */
  predicate Acknowledged(x: Sent, end: int) {
    && x.reply.Answer? && x.reply.status == 202 && x.valid
    && ParseRangeAck(x.reply.ack) == (if end >= 0 then Some(end as nat) else None)
    && (x.reply.hasLocation ==> x.reply.locationOk)
  }

  /** One PATCH and its interval. */
  datatype Patch = Patch(offset: nat, n: nat, sent: Sent) {
    predicate Acked() { Acknowledged(sent, offset + n - 1) }
  }

  /** One upload attempt as its session saw it. `stuck` tells that a request body could
      not be made: the source was proven wrong before, or a seek failed. */
  datatype Attempt = Attempt(
    session: PushReply,        // the answer to POST
    chunk: nat,
    patches: seq<Patch>,
    put: Option<Sent>,         // the final PUT
    stuck: bool,
    cancel: Option<bool>)      // a call of cancelUploadSession, and whether it still asked

  predicate Succeeded(a: Attempt) { a.put.Some? && Committed(a.put.value) }

  /** Patch i begins where patch i - 1 ended, and that one had been acknowledged. */
  predicate Follows(patches: seq<Patch>, i: nat)
    requires 0 < i < |patches|
  {
    patches[i].offset == patches[i - 1].offset + patches[i - 1].n && patches[i - 1].Acked()
  }

  /** The patches lie end to end from 0, each sent after the one before was acknowledged. */
  ghost predicate Tiles(patches: seq<Patch>) {
    && (patches != [] ==> patches[0].offset == 0)
    && (forall i :: 0 < i < |patches| ==> Follows(patches, i))
  }

  /** Every patch but the last has the chunk's size. */
  ghost predicate EvenlyCut(patches: seq<Patch>, chunk: nat, size: nat) {
    forall i :: 0 <= i < |patches| ==>
      patches[i].offset < size && patches[i].n == Min(chunk, size - patches[i].offset)
  }

  /** How far the registry acknowledged. */
  function AckedEnd(patches: seq<Patch>): nat {
    if patches == [] then 0
    else
      var last := patches[|patches| - 1];
      if last.Acked() then last.offset + last.n else last.offset
  }

  /** An acknowledged patch carried the source's bytes of its interval, and the last of
      an upload found the source's end behind them. */
  predicate Carries(content: nat -> Octet, home: nat, size: nat, p: Patch) {
    p.Acked() ==>
      && p.sent.bytes == Slice(content, home + p.offset, p.n)
      && (p.offset + p.n == size ==> p.sent.ended == Some(home + size))
  }

  ghost predicate Carried(content: nat -> Octet, home: nat, size: nat, patches: seq<Patch>) {
    forall i :: 0 <= i < |patches| ==> Carries(content, home, size, patches[i])
  }

  /** Patches as a chunked upload makes them. */
  ghost predicate InLine(patches: seq<Patch>, content: nat -> Octet, home: nat, chunk: nat, size: nat) {
    Tiles(patches) && EvenlyCut(patches, chunk, size) && Carried(content, home, size, patches)
  }

  /** Whether the failure of an attempt is worth another one. */
  predicate Restartable(a: Attempt) {
    if !SessionOpened(a.session) then WorthRestart(a.session)
    else if a.stuck then false
    else if a.put.Some? then Recoverable(a.put.value)
    else a.patches != [] && Recoverable(a.patches[|a.patches| - 1].sent)
  }

  /** The requests of one attempt at pushing `size` bytes that begin at `home`. */
  ghost predicate InOrder(a: Attempt, content: nat -> Octet, home: nat, size: nat, chunked: bool) {
    if !SessionOpened(a.session) then a.patches == [] && a.put.None? && !a.stuck && a.cancel.None?
    else
      && (a.cancel.None? <==> Succeeded(a))
      && InLine(a.patches, content, home, a.chunk, size)
      && (chunked && a.put.Some? ==> AckedEnd(a.patches) == size && a.put.value.bytes == [])
      && (chunked && a.put.None? && !a.stuck ==> a.patches != [] && !a.patches[|a.patches| - 1].Acked())
      && (!chunked ==> a.patches == [] && (a.put.None? ==> a.stuck))
      && (!chunked && Succeeded(a) ==>
            a.put.value.bytes == Slice(content, home, size) && (size > 0 ==> a.put.value.ended == Some(home + size)))
  }

  // ---------------------------------------------------------------- the log of an attempt

  function PatchEvents(patches: seq<Patch>): seq<Event> {
    if patches == [] then []
    else
      var p := patches[|patches| - 1];
      PatchEvents(patches[..|patches| - 1]) + [Asked(PatchChunk(p.offset, p.n), p.sent.reply), Settled(p.sent)]
  }

  function PutEvents(put: Option<Sent>, n: nat): seq<Event> {
    if put.None? then [] else [Asked(Put(n), put.value.reply), Settled(put.value)]
  }

  function CancelEvents(cancel: Option<bool>): seq<Event> {
    if cancel.None? then [] else [Cancelled(cancel.value)]
  }

  /** Everything an attempt says to the registry, in order: one POST, its patches, at most
      one PUT, and a cancel unless it was never opened or has committed. */
  function EventsOf(a: Attempt, size: nat, chunked: bool): seq<Event> {
    [Asked(Post, a.session)] + PatchEvents(a.patches) + PutEvents(a.put, if chunked then 0 else size)
    + CancelEvents(a.cancel)
  }

  function AllEvents(attempts: seq<Attempt>, size: nat, chunked: bool): seq<Event> {
    if attempts == [] then []
    else AllEvents(attempts[..|attempts| - 1], size, chunked) + EventsOf(attempts[|attempts| - 1], size, chunked)
  }

  /** The ends of the acknowledged patches. */
  function AckedEnds(patches: seq<Patch>): seq<nat> {
    if patches == [] then []
    else
      var p := patches[|patches| - 1];
      AckedEnds(patches[..|patches| - 1]) + if p.Acked() then [p.offset + p.n] else []
  }

  /** Where an attempt stood, one position after another. */
  function Marks(a: Attempt, size: nat, chunked: bool): seq<nat> {
    if chunked then AckedEnds(a.patches) else if Succeeded(a) then [size] else []
  }

  function AllMarks(attempts: seq<Attempt>, size: nat, chunked: bool): seq<nat> {
    if attempts == [] then []
    else AllMarks(attempts[..|attempts| - 1], size, chunked) + Marks(attempts[|attempts| - 1], size, chunked)
  }

  /** The events of an attempt, one after another behind a log. */
  lemma JoinEvents(log: seq<Event>, a: Attempt, size: nat, chunked: bool)
    ensures log + EventsOf(a, size, chunked)
         == log + [Asked(Post, a.session)] + PatchEvents(a.patches)
            + PutEvents(a.put, if chunked then 0 else size) + CancelEvents(a.cancel)
  {
    hide PatchEvents, PutEvents, CancelEvents;
    var post, patches := [Asked(Post, a.session)], PatchEvents(a.patches);
    var put, cancel := PutEvents(a.put, if chunked then 0 else size), CancelEvents(a.cancel);
    Associate(log, post + patches + put, cancel);
    Associate(log, post + patches, put);
    Associate(log, post, patches);
  }

  /** The same for a monolithic attempt. */
  lemma JoinPut(log: seq<Event>, a: Attempt, size: nat)
    requires a.patches == []
    ensures log + EventsOf(a, size, false)
         == log + [Asked(Post, a.session)] + PutEvents(a.put, size) + CancelEvents(a.cancel)
  {
    JoinEvents(log, a, size, false);
    hide EventsOf, PutEvents, CancelEvents;
    assert log + [Asked(Post, a.session)] + [] == log + [Asked(Post, a.session)];
  }

  /** Only a POST: nothing moved. */
  lemma OnlyPost(a: Attempt, size: nat, chunked: bool)
    requires a.patches == [] && a.put.None? && a.cancel.None?
    ensures EventsOf(a, size, chunked) == [Asked(Post, a.session)] && Marks(a, size, chunked) == []
  {}

  lemma NoPatches(content: nat -> Octet, home: nat, chunk: nat, size: nat)
    ensures InLine([], content, home, chunk, size) && AckedEnd([]) == 0
  {}

  lemma NothingSent()
    ensures PatchEvents([]) == [] && AckedEnds([]) == []
    ensures forall calls :: Reported(calls, []) == calls
  {}

  lemma OneMore(patches: seq<Patch>, p: Patch)
    ensures PatchEvents(patches + [p]) == PatchEvents(patches) + [Asked(PatchChunk(p.offset, p.n), p.sent.reply), Settled(p.sent)]
    ensures AckedEnds(patches + [p]) == if p.Acked() then AckedEnds(patches) + [p.offset + p.n] else AckedEnds(patches)
  {
    hide Acknowledged;
    var more := patches + [p];
    assert more[..|more| - 1] == patches;
    assert AckedEnds(patches) + [] == AckedEnds(patches);
  }

  lemma OneMoreAttempt(attempts: seq<Attempt>, a: Attempt, size: nat, chunked: bool)
    ensures AllEvents(attempts + [a], size, chunked) == AllEvents(attempts, size, chunked) + EventsOf(a, size, chunked)
    ensures AllMarks(attempts + [a], size, chunked) == AllMarks(attempts, size, chunked) + Marks(a, size, chunked)
  {
    var more := attempts + [a];
    assert more[..|more| - 1] == attempts;
  }

  /** One more patch, behind acknowledged ones. */
  lemma AddPatch(patches: seq<Patch>, p: Patch, content: nat -> Octet, home: nat, chunk: nat, size: nat)
    requires InLine(patches, content, home, chunk, size)
    requires patches != [] ==> patches[|patches| - 1].Acked()
    requires p.offset == AckedEnd(patches) < size && p.n == Min(chunk, size - p.offset)
    requires Carries(content, home, size, p)
    ensures InLine(patches + [p], content, home, chunk, size)
    ensures AckedEnd(patches + [p]) == if p.Acked() then p.offset + p.n else p.offset
  {
    hide Acknowledged;
    var more := patches + [p];
    forall i | 0 < i < |more|
      ensures Follows(more, i)
    {
      if i < |patches| { assert Follows(patches, i); }
    }
  }

  /** The bytes of all patches, one after another. */
  function Joined(patches: seq<Patch>): seq<Octet> {
    if patches == [] then [] else Joined(patches[..|patches| - 1]) + patches[|patches| - 1].sent.bytes
  }

  lemma {:induction false} JoinedIsSlice(patches: seq<Patch>, content: nat -> Octet, home: nat, size: nat)
    requires Tiles(patches) && Carried(content, home, size, patches)
    requires patches != [] ==> patches[|patches| - 1].Acked()
    ensures Joined(patches) == Slice(content, home, AckedEnd(patches))
    decreases |patches|
  {
    hide Acknowledged, Slice;
    if patches != [] {
      var k := |patches| - 1;
      var init, last := patches[..k], patches[k];
      forall i | 0 < i < k
        ensures Follows(patches, i) && Follows(init, i)
      {
        assert init[i] == patches[i] && init[i - 1] == patches[i - 1];
        assert Follows(patches, i);
      }
      assert k > 0 ==> Follows(patches, k);
      assert Carries(content, home, size, last);
      JoinedIsSlice(init, content, home, size);
      assert AckedEnd(init) == last.offset;
      hide Tiles, Carried, Carries, Follows;
      SlicesJoin(content, home, last.offset, last.n);
    } else {
      NoSlice(content, home);
    }
  }

  lemma NoSlice(content: nat -> Octet, home: nat)
    ensures Slice(content, home, 0) == []
  {}

  lemma SlicesJoin(content: nat -> Octet, home: nat, n: nat, more: nat)
    ensures Slice(content, home, n) + Slice(content, home + n, more) == Slice(content, home, n + more)
  {
  }

  /** A chunked attempt that succeeded had every byte of the blob acknowledged, in order,
      before the empty PUT, and the source had no more. */
  lemma CommittedChunksAreTheBlob(a: Attempt, content: nat -> Octet, home: nat, size: nat)
    requires InOrder(a, content, home, size, true) && Succeeded(a)
    ensures SessionOpened(a.session) && Joined(a.patches) == Slice(content, home, size)
    ensures size > 0 ==> a.patches[|a.patches| - 1].sent.ended == Some(home + size)
  {
    hide Acknowledged, Committed;
    var k := |a.patches| - 1;
    assert k >= 0 ==> a.patches[k].offset < size && Carries(content, home, size, a.patches[k]);
    JoinedIsSlice(a.patches, content, home, size);
  }
}
