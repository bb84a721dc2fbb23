/** A push: upload sessions, one per attempt, each ended by the one commit or by one
    cancel call; monolithic (POST, PUT) or chunked (POST, PATCH..., empty PUT). */
module Push {
  import opened Basics
  import opened Wire
  import opened Registry
  import opened Progress
  import opened Replay
  import opened Sessions

  predicate ReplayRedirect(status: int) { status == 307 || status == 308 }

  /** One call of Push on a client. A `chunkSize` of 0 pushes monolithically; `replay`
      is null when the reader cannot seek. */
  class Pusher {
    const endpoint: Endpoint
    const ctx: Context
    const reader: Reader
    const replay: ReaderReplay?
    const size: nat
    const chunkSize: nat
    const maxAttempts: int
    const writeRedirects: bool
    const tracker: ProgressTracker?
    /** Where the pushed bytes begin, and the ledger. */
    ghost const home: nat
    ghost var attempts: seq<Attempt>

    constructor (endpoint: Endpoint, ctx: Context, reader: Reader, replay: ReaderReplay?, size: nat, chunkSize: nat,
                 maxAttempts: int, writeRedirects: bool, tracker: ProgressTracker?)
      requires reader.owner == null
      requires replay != null ==> replay.reader == reader && replay.start == reader.pos && replay.current == null
      requires tracker != null ==> tracker.Valid() && tracker.done == 0
      ensures this.endpoint == endpoint && this.ctx == ctx && this.reader == reader && this.replay == replay
      ensures this.size == size && this.chunkSize == chunkSize && this.maxAttempts == maxAttempts
      ensures this.tracker == tracker && home == reader.pos && attempts == [] && Valid()
    {
      this.endpoint, this.ctx, this.reader, this.replay := endpoint, ctx, reader, replay;
      this.size, this.chunkSize, this.maxAttempts := size, chunkSize, maxAttempts;
      this.writeRedirects, this.tracker, home, attempts := writeRedirects, tracker, reader.pos, [];
    }

    /** No request body can touch the reader, and a replay knows where to start over. */
    ghost predicate Valid()
      reads this, reader, reader.owner, replay, tracker
    {
      && Lends()
      && reader.Quiet()
      && (tracker != null ==> tracker.Valid() && tracker.done <= size)
    }

    ghost predicate Lends()
      reads this, reader, reader.owner, replay
    {
      && reader.Lent()
      && (replay != null ==> replay.reader == reader && replay.start == home && replay.current == reader.owner)
    }

    /** `body` owns the reader, which stands at `from`, and nothing of it was read yet. */
    ghost predicate Ready(body: Upload, from: nat)
      reads this, reader, reader.owner, replay, body
    {
      Lends() && reader.owner == body && body.reader == reader && body.outcome.None? && body.from == from == reader.pos
    }

    /** Nothing more can be read from the source: it was proven wrong, or a seek failed. */
    ghost predicate Broken(faults: nat)
      reads this, reader, replay, if replay != null then {replay.current} else {}
    {
      replay != null && (replay.Blocked() || reader.faults > faults)
    }

    /** A body of n bytes over the reader: newUploadBody and register. */
    method NewBody(n: nat, final: bool) returns (body: Upload?)
      requires Valid()
      modifies reader`owner, reader`pos, reader.owner, replay
      ensures Lends() && reader.pos == old(reader.pos)
      ensures body != null ==> fresh(body) && Ready(body, reader.pos) && body.expected == n && body.final == final
      ensures body == null ==> reader.Quiet() && reader.owner == old(reader.owner) && Broken(reader.faults)
    {
      body := new Upload(reader, n, final);
      if replay == null {
        body.Claim();
        return;
      }
      var ok := replay.Register(body);
      if !ok { return null; }
    }

    /** Sends a request, following redirects: each hop takes a new body from getBody.
        `last` is the body whose state counts in the end. */
    method Exchange(request: Request, body: Upload?, from: nat) returns (reply: PushReply, last: Upload?)
      requires body == null || Ready(body, from)
      modifies endpoint, reader`owner, reader`pos, reader`faults, replay, body
      ensures body == null ==> last == null && reader.owner == old(reader.owner) && reader.pos == old(reader.pos)
      ensures body == null && replay != null ==> replay.current == old(replay.current)
      ensures body != null ==> last != null && (last == body || fresh(last))
      ensures body != null ==>
        && Lends() && reader.owner == last
        && last.from == from && last.expected == body.expected && last.final == body.final
      ensures body != null && reply.Answer? ==> last.outcome.None?
      ensures endpoint.log == old(endpoint.log) + [Asked(request, reply)]
      ensures reply.Answer? ==> endpoint.count == old(endpoint.count) + 1 && reply == endpoint.reply(old(endpoint.count))
      ensures old(reader.faults) <= reader.faults
    {
      last := body;
      if body != null && replay != null {
        for hop := 0 to endpoint.hops(endpoint.count)
          invariant last != null && (last == body || fresh(last)) && Ready(last, from)
          invariant last.expected == body.expected && last.final == body.final
          invariant endpoint.count == old(endpoint.count) && endpoint.log == old(endpoint.log)
          invariant old(reader.faults) <= reader.faults
        {
          var next := replay.GetBody(from, last.expected, last.final);
          if next == null {
            var retryable: bool := *;
            reply := endpoint.Abandon(request, retryable);
            return reply, last;
          }
          last := next;
        }
      }
      reply := endpoint.Send(request);
    }

    /** The body of a request that is over, once its source is free again. */
    method Await(reply: PushReply, last: Upload?) returns (x: Sent)
      requires last != null ==> Lends() && reader.owner == last && last.reader == reader
      requires last != null && reply.Answer? ==> last.outcome.None?
      modifies last, reader`pos, endpoint`log
      ensures endpoint.log == old(endpoint.log) + [Settled(x)]
      ensures (last != null ==> last.outcome.Some?) && x == Ended(reply, last)
      ensures last == null ==> reader.pos == old(reader.pos)
      ensures last != null ==> Lends() && reader.Quiet()
      ensures last != null && reply.Answer? && x.valid ==>
        && x.bytes == Slice(reader.content, old(last.from), last.expected)
        && reader.pos == old(last.from) + last.expected
        && (last.final ==> x.ended == Some(old(last.from) + last.expected))
    {
      if last != null { last.WaitReleased(); }
      x := endpoint.Settle(reply, last);
    }

    /** openSession */
    method OpenSession() returns (ok: bool, retryable: bool, minChunk: int, ghost r: PushReply)
      modifies endpoint
      ensures endpoint.count == old(endpoint.count) + 1 && r == endpoint.reply(old(endpoint.count))
      ensures endpoint.log == old(endpoint.log) + [Asked(Post, r)]
      ensures ok == SessionOpened(r) && (!ok ==> retryable == WorthRestart(r))
      ensures ok ==> minChunk == r.minChunk
    {
      var reply := endpoint.Send(Post);
      r := reply;
      match reply
      case NoAnswer(again) => return false, again, 0, r;
      case Answer(status, _, least, _, locationOk) =>
        if status != 202 { return false, RetryableStatus(status), 0, r; }
        return locationOk, false, least, r;
    }

    /** commitUpload, of `n` bytes of the reader, or of nothing: no PUT is sent only if
        the source is unusable. */
    method CommitUpload(n: nat) returns (ok: bool, retryable: bool, ghost put: Option<Sent>)
      requires Valid() && (n > 0 ==> reader.pos == home)
      modifies endpoint, reader`owner, reader`pos, reader`faults, reader.owner, replay
      ensures Valid() && (reader.owner == old(reader.owner) || fresh(reader.owner))
      ensures old(reader.faults) <= reader.faults
      ensures endpoint.log == old(endpoint.log) + PutEvents(put, n)
      ensures put.None? ==> !ok && !retryable && n > 0 && Broken(old(reader.faults))
      ensures put.Some? ==> (ok <==> Committed(put.value)) && (!ok ==> retryable == Recoverable(put.value))
      ensures put.Some? && n > 0 ==> reader.owner != null && put.value == Ended(put.value.reply, reader.owner)
      ensures ok ==> put.value.bytes == Slice(reader.content, home, n)
      ensures ok && n > 0 ==> put.value.ended == Some(home + n)
      ensures n == 0 ==> put.Some? && put.value.bytes == [] && reader.owner == old(reader.owner)
    {
      var body: Upload? := null;
      if n > 0 {
        body := NewBody(n, true);
        if body == null { return false, false, None; }
      }
      var reply, last := Exchange(Put(n), body, if replay != null then replay.start else reader.pos);
      var x := Await(reply, last);
      put := Some(x);
      match reply
      case NoAnswer(again) => return false, !x.wrong && again, put;
      case Answer(status, _, _, _, locationOk) =>
        if ReplayRedirect(status) && (!writeRedirects || (n > 0 && replay == null)) { return false, false, put; }
        if status != 201 {
          return false, !x.wrong && (status == 202 ==> locationOk) && RetryableStatus(status), put;
        }
        if last != null && !x.valid { return false, false, put; }
        return true, false, put;
    }

    /** newPatchRequest and the exchange itself; nothing is sent only if the source is unusable. */
    method SendPatch(offset: nat, n: nat, final: bool) returns (x: Option<Sent>)
      requires Valid() && n > 0
      modifies endpoint, reader`owner, reader`pos, reader`faults, reader.owner, replay
      ensures Valid() && (reader.owner == old(reader.owner) || fresh(reader.owner))
      ensures old(reader.faults) <= reader.faults
      ensures x.None? ==> Broken(old(reader.faults)) && endpoint.log == old(endpoint.log)
      ensures x.Some? ==>
        && endpoint.log == old(endpoint.log) + [Asked(PatchChunk(offset, n), x.value.reply), Settled(x.value)]
        && reader.owner != null && x.value == Ended(x.value.reply, reader.owner)
      ensures x.Some? && x.value.reply.Answer? && x.value.valid ==>
        && x.value.bytes == Slice(reader.content, old(reader.pos), n) && reader.pos == old(reader.pos) + n
        && (final ==> x.value.ended == Some(old(reader.pos) + n))
    {
      var start := reader.pos;
      if replay != null {
        var at := replay.Position();
        if at.None? { return None; }
        start := at.value;
      }
      var body := NewBody(n, final);
      if body == null { return None; }
      var reply, last := Exchange(PatchChunk(offset, n), body, start);
      var sent := Await(reply, last);
      return Some(sent);
    }

    /** patchChunk for [offset, offset + n). */
    method SendChunk(offset: nat, n: nat, final: bool) returns (ok: bool, retryable: bool, ghost p: Option<Patch>)
      requires Valid() && n > 0 && reader.pos == home + offset
      modifies endpoint, reader`owner, reader`pos, reader`faults, reader.owner, replay
      ensures Valid() && (reader.owner == old(reader.owner) || fresh(reader.owner))
      ensures old(reader.faults) <= reader.faults
      ensures p.None? ==> !ok && !retryable && Broken(old(reader.faults)) && endpoint.log == old(endpoint.log)
      ensures p.Some? ==>
        && p.value.offset == offset && p.value.n == n
        && endpoint.log == old(endpoint.log) + [Asked(PatchChunk(offset, n), p.value.sent.reply), Settled(p.value.sent)]
        && reader.owner != null && p.value.sent == Ended(p.value.sent.reply, reader.owner)
        && (ok <==> p.value.Acked()) && (!ok ==> retryable == Recoverable(p.value.sent))
      ensures ok ==> p.value.sent.bytes == Slice(reader.content, home + offset, n) && reader.pos == home + offset + n
      ensures ok && final ==> p.value.sent.ended == Some(home + offset + n)
    {
      hide ParseRangeAck;
      var x := SendPatch(offset, n, final);
      if x.None? { return false, false, None; }
      p := Some(Patch(offset, n, x.value));
      match x.value.reply
      case NoAnswer(again) => return false, !x.value.wrong && again, p;
      case Answer(status, ack, _, hasLocation, locationOk) =>
        if ReplayRedirect(status) && (!writeRedirects || replay == null) { return false, false, p; }
        if status != 202 { return false, !x.value.wrong && RetryableStatus(status), p; }
        if !x.value.valid || ParseRangeAck(ack) != Some(offset + n - 1) { return false, false, p; }
        return !hasLocation || locationOk, false, p;
    }

    /** What one attempt leaves behind: its entry agrees with what it returned, the log
        grew by exactly its events, progress by its marks, and it was stuck only over an
        unusable source. */
    ghost predicate Recorded(a: Attempt, ok: bool, retryable: bool, log: seq<Event>, calls: seq<nat>, faults: nat)
      reads this, endpoint, tracker, reader, replay, if replay != null then {replay.current} else {}
    {
      && InOrder(a, reader.content, home, size, chunkSize > 0)
      && (ok <==> Succeeded(a))
      && (!ok ==> retryable == Restartable(a))
      && (chunkSize > 0 && SessionOpened(a.session) ==> a.chunk == Max(chunkSize, a.session.minChunk))
      && endpoint.log == log + EventsOf(a, size, chunkSize > 0)
      && (tracker != null ==> tracker.calls == Reported(calls, Marks(a, size, chunkSize > 0)))
      && (a.stuck ==> Broken(faults))
    }

    /** The positions the progress callback has seen. */
    ghost function Calls(): seq<nat>
      reads this, tracker
    {
      if tracker == null then [] else tracker.calls
    }

    /** pushOnce: POST and one PUT. */
    method PushOnce() returns (ok: bool, retryable: bool, ghost a: Attempt)
      requires Valid() && chunkSize == 0 && (size > 0 ==> reader.pos == home)
      modifies endpoint, ctx, reader`owner, reader`pos, reader`faults, reader.owner, replay, tracker
      ensures Valid() && (reader.owner == old(reader.owner) || fresh(reader.owner))
      ensures old(reader.faults) <= reader.faults
      ensures Recorded(a, ok, retryable, old(endpoint.log), old(Calls()), old(reader.faults))
      ensures ok && tracker != null ==> tracker.done == size
    {
      hide Acknowledged, Committed, WorthRestart, SessionOpened, Recoverable, Slice, PutEvents;
      hide EventsOf, PatchEvents, AckedEnds, AckedEnd, Increasing, Ended;
      var began, least;
      ghost var session;
      began, retryable, least, session := OpenSession();
      if !began {
        a := Attempt(session, 0, [], None, false, None);
        OnlyPost(a, size, false);
        NothingSent();
        return false, retryable, a;
      }
      ghost var put;
      ghost var cancel := None;
      ok, retryable, put := CommitUpload(size);
      if ok {
        if tracker != null { tracker.Set(size); }
      } else {
        var asked := endpoint.CancelSession(ctx);
        cancel := Some(asked);
      }
      a := Attempt(session, 0, [], put, put.None?, cancel);
      NoPatches(reader.content, home, 0, size);
      JoinPut(old(endpoint.log), a, size);
    }

    /** What a chunked attempt has done when `offset` bytes are acknowledged. */
    ghost predicate Reached(patches: seq<Patch>, offset: nat, chunk: nat, log: seq<Event>, calls: seq<nat>)
      reads this, endpoint, tracker
    {
      && InLine(patches, reader.content, home, chunk, size)
      && AckedEnd(patches) == offset && (patches != [] ==> patches[|patches| - 1].Acked())
      && Accounted(patches, log, calls)
      && (tracker != null && patches != [] ==> tracker.done >= offset)
    }

    /** The log and the progress are those of the patches. */
    ghost predicate Accounted(patches: seq<Patch>, log: seq<Event>, calls: seq<nat>)
      reads this, endpoint, tracker
    {
      && endpoint.log == log + PatchEvents(patches)
      && (tracker != null ==> tracker.calls == Reported(calls, AckedEnds(patches)))
    }

    /** One turn of the loop: the chunk at `offset`. */
    method NextChunk(ghost patches: seq<Patch>, offset: nat, chunk: nat, ghost log: seq<Event>, ghost calls: seq<nat>)
      returns (ok: bool, retryable: bool, ghost p: Option<Patch>)
      requires Valid() && chunk > 0 && offset < size && reader.pos == home + offset
      requires Reached(patches, offset, chunk, log, calls)
      modifies endpoint, reader`owner, reader`pos, reader`faults, reader.owner, replay, tracker
      ensures Valid() && (reader.owner == old(reader.owner) || fresh(reader.owner))
      ensures old(reader.faults) <= reader.faults
      ensures var end := offset + Min(chunk, size - offset);
        ok ==> p.Some? && reader.pos == home + end && Reached(patches + [p.value], end, chunk, log, calls)
      ensures !ok && p.None? ==> !retryable && Broken(old(reader.faults)) && Accounted(patches, log, calls)
      ensures !ok && p.Some? ==>
        && InLine(patches + [p.value], reader.content, home, chunk, size) && Accounted(patches + [p.value], log, calls)
        && !p.value.Acked() && retryable == Recoverable(p.value.sent)
    {
      hide Acknowledged, Recoverable, Slice, Ready, Ended, Reported, AckedEnds, PatchEvents, Increasing, InLine, AckedEnd;
      var n := Min(chunk, size - offset);
      ok, retryable, p := SendChunk(offset, n, offset + n == size);
      if p.Some? {
        AddPatch(patches, p.value, reader.content, home, chunk, size);
        OneMore(patches, p.value);
        Associate(log, PatchEvents(patches), [Asked(PatchChunk(offset, n), p.value.sent.reply), Settled(p.value.sent)]);
      }
      if ok && tracker != null {
        ReportedJoin(calls, AckedEnds(patches), [offset + n]);
        tracker.Set(offset + n);
      }
    }

    /** The chunks of chunkedOnce. `stuck` tells that the last one could not be sent. */
    method SendChunks(chunk: nat) returns (ok: bool, retryable: bool, ghost patches: seq<Patch>, ghost stuck: bool)
      requires Valid() && chunk > 0 && (size > 0 ==> reader.pos == home)
      modifies endpoint, reader`owner, reader`pos, reader`faults, reader.owner, replay, tracker
      ensures Valid() && (reader.owner == old(reader.owner) || fresh(reader.owner))
      ensures old(reader.faults) <= reader.faults
      ensures InLine(patches, reader.content, home, chunk, size) && Accounted(patches, old(endpoint.log), old(Calls()))
      ensures ok ==> AckedEnd(patches) == size && (tracker != null ==> tracker.done == size)
      ensures stuck ==> !ok && !retryable && Broken(old(reader.faults))
      ensures !ok && !stuck ==>
        && patches != [] && !patches[|patches| - 1].Acked()
        && retryable == Recoverable(patches[|patches| - 1].sent)
    {
      hide Acknowledged, Recoverable, Slice, Ready, Ended, Reported, AckedEnds, PatchEvents, Increasing, InLine, AckedEnd;
      NothingSent();
      NoPatches(reader.content, home, chunk, size);
      ghost var log, calls := endpoint.log, Calls();
      patches, stuck := [], false;
      var offset := 0;
      while offset < size
        invariant Valid() && (reader.owner == old(reader.owner) || fresh(reader.owner))
        invariant old(reader.faults) <= reader.faults && !stuck
        invariant offset <= size && Reached(patches, offset, chunk, log, calls)
        invariant size > 0 ==> reader.pos == home + offset
        invariant offset > 0 ==> patches != []
        decreases size - offset
      {
        var sent, again;
        ghost var p;
        sent, again, p := NextChunk(patches, offset, chunk, log, calls);
        if p.Some? { patches := patches + [p.value]; }
        if !sent { return false, again, patches, p.None?; }
        offset := offset + Min(chunk, size - offset);
      }
      return true, false, patches, false;
    }

    /** chunkedOnce: POST, one PATCH per chunk, empty PUT. */
    method ChunkedOnce() returns (ok: bool, retryable: bool, ghost a: Attempt)
      requires Valid() && chunkSize > 0 && (size > 0 ==> reader.pos == home)
      modifies endpoint, ctx, reader`owner, reader`pos, reader`faults, reader.owner, replay, tracker
      ensures Valid() && (reader.owner == old(reader.owner) || fresh(reader.owner))
      ensures old(reader.faults) <= reader.faults
      ensures Recorded(a, ok, retryable, old(endpoint.log), old(Calls()), old(reader.faults))
      ensures ok && tracker != null ==> tracker.done == size
    {
      hide Acknowledged, InLine, Committed, WorthRestart, SessionOpened, Recoverable, Slice, Ended;
      hide PatchEvents, Reported, AckedEnds, AckedEnd, Increasing;
      var began, least;
      ghost var session;
      began, retryable, least, session := OpenSession();
      if !began {
        a := Attempt(session, 0, [], None, false, None);
        OnlyPost(a, size, true);
        NothingSent();
        return false, retryable, a;
      }
      ghost var patches, stuck, put, cancel := [], false, None, None;
      // The registry's stated minimum wins over a smaller configured chunk.
      ok, retryable, patches, stuck := SendChunks(Max(chunkSize, least));
      if ok { ok, retryable, put := CommitUpload(0); }
      if !ok {
        var asked := endpoint.CancelSession(ctx);
        cancel := Some(asked);
      }
      a := Attempt(session, Max(chunkSize, least), patches, put, stuck, cancel);
      JoinEvents(old(endpoint.log), a, size, true);
    }

    /** The attempts so far account for the whole log and for all progress; each is in
        order, and all but the last failed in a way worth another one. */
    ghost predicate Ledger(log: seq<Event>, calls: seq<nat>)
      reads this, endpoint, tracker
    {
      && (forall i :: 0 <= i < |attempts| ==> InOrder(attempts[i], reader.content, home, size, chunkSize > 0))
      && (forall i :: 0 <= i < |attempts| - 1 ==> !Succeeded(attempts[i]) && Restartable(attempts[i]))
      && endpoint.log == log + AllEvents(attempts, size, chunkSize > 0)
      && (tracker != null ==> tracker.calls == Reported(calls, AllMarks(attempts, size, chunkSize > 0)))
    }

    /** The latest attempt. */
    ghost function Latest(): Attempt
      requires attempts != []
      reads this
    {
      attempts[|attempts| - 1]
    }

    /** One more attempt, of either kind, after attempts that were worth it. */
    method UploadOnce(ghost log: seq<Event>, ghost calls: seq<nat>, ghost faults: nat) returns (ok: bool, retryable: bool)
      requires faults <= reader.faults
      requires Valid() && (size > 0 ==> reader.pos == home)
      requires Ledger(log, calls) && (attempts != [] ==> !Succeeded(Latest()) && Restartable(Latest()))
      modifies this`attempts, endpoint, ctx, reader`owner, reader`pos, reader`faults, reader.owner, replay, tracker
      ensures Valid() && (reader.owner == old(reader.owner) || fresh(reader.owner))
      ensures old(reader.faults) <= reader.faults
      ensures |attempts| == |old(attempts)| + 1 && Ledger(log, calls)
      ensures (ok <==> Succeeded(Latest())) && (!ok ==> retryable == Restartable(Latest()))
      ensures Latest().stuck ==> Broken(faults)
      ensures ok && tracker != null ==> tracker.done == size
    {
      hide InOrder, Succeeded, Restartable, EventsOf, Marks, Reported, AllEvents, AllMarks, Increasing;
      ghost var before := attempts;
      ghost var a;
      if chunkSize > 0 { ok, retryable, a := ChunkedOnce(); } else { ok, retryable, a := PushOnce(); }
      attempts := attempts + [a];
      assert forall i :: 0 <= i < |before| ==> attempts[i] == before[i];
      OneMoreAttempt(before, a, size, chunkSize > 0);
      ReportedJoin(calls, AllMarks(before, size, chunkSize > 0), Marks(a, size, chunkSize > 0));
    }

    /** rewind before the next attempt; without a seekable reader only an empty push can go on. */
    method StartOver(ghost faults: nat) returns (ok: bool)
      requires Valid() && faults <= reader.faults
      modifies reader`pos, reader`faults, reader.owner
      ensures Valid() && (ok ==> size == 0 || (replay != null && reader.pos == home))
      ensures old(reader.faults) <= reader.faults
      ensures !ok ==> size > 0 && (replay == null || Broken(faults))
    {
      if size == 0 { return true; }
      if replay == null { return false; }
      ok := replay.Rewind();
    }

    /** Between two attempts: whether another one is made, the reader being back at its start. */
    method MayRetry(retryable: bool, last: bool, ghost faults: nat) returns (again: bool)
      requires Valid() && faults <= reader.faults
      modifies ctx, reader`pos, reader`faults, reader.owner
      ensures Valid() && old(reader.faults) <= reader.faults
      ensures !retryable && old(Broken(faults)) ==> Broken(faults)
      ensures again ==> retryable && !last && (size == 0 || (replay != null && reader.pos == home))
      ensures !again ==> ctx.done || !retryable || last || (size > 0 && (replay == null || Broken(faults)))
    {
      var ended := ctx.Err();
      if ended || !retryable || last { return false; }
      again := StartOver(faults);
      if !again { return false; }
      ended := ctx.Err();  // the backoff wait
      return !ended;
    }

    lemma NoAttempts()
      requires attempts == []
      ensures Ledger(endpoint.log, Calls())
    {}

    lemma LatestIsNotStuck(log: seq<Event>, calls: seq<nat>)
      requires Ledger(log, calls) && attempts != [] && Restartable(Latest())
      ensures !Latest().stuck
    {}

    /** pushWithRetry: attempts until one commits, the failure is final, or the policy or
        the context is exhausted; the reader starts over before each. Everything said to
        the registry and everything reported is accounted for by these attempts. */
    method PushWithRetry() returns (ok: bool)
      requires Valid() && attempts == [] && reader.pos == home
      modifies this`attempts, endpoint, ctx, reader`owner, reader`pos, reader`faults, reader.owner, replay, tracker
      ensures Valid() && 1 <= |attempts| <= Attempts(maxAttempts)
      ensures Ledger(old(endpoint.log), old(Calls())) && (ok <==> Succeeded(Latest()))
      ensures !ok ==>
        || ctx.done || |attempts| == Attempts(maxAttempts) || !Restartable(Latest())
        || (size > 0 && (replay == null || Broken(old(reader.faults))))
      ensures Latest().stuck ==> Broken(old(reader.faults))
      ensures |attempts| > 1 ==> size == 0 || replay != null
      ensures ok && tracker != null ==> tracker.done == size
    {
      hide InOrder, Succeeded, Restartable, Recorded, Ready, Ledger, Increasing, Last, Broken, Lends;
      NoAttempts();
      ghost var log, calls, faults := endpoint.log, Calls(), reader.faults;
      var budget := Attempts(maxAttempts);
      var attempt := 1;
      while true
        invariant Valid() && (reader.owner == old(reader.owner) || fresh(reader.owner))
        invariant faults <= reader.faults
        invariant 1 <= attempt <= budget && |attempts| == attempt - 1
        invariant size > 0 ==> reader.pos == home
        invariant attempt > 1 ==> size == 0 || replay != null
        invariant Ledger(log, calls) && (attempts != [] ==> !Succeeded(Latest()) && Restartable(Latest()))
        decreases budget - attempt
      {
        var retryable;
        ok, retryable := UploadOnce(log, calls, faults);
        if ok { return true; }
        if retryable { LatestIsNotStuck(log, calls); }
        var again := MayRetry(retryable, attempt == budget, faults);
        if !again { return false; }
        attempt := attempt + 1;
      }
    }
  }
}
