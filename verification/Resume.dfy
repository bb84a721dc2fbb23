/** resumeReader: a blob download that survives broken streams. On a break it asks
    for the bytes from its offset on, and continues a 206, a 200 or a proven end. */
module Resume {
  import opened Basics
  import opened Wire
  import opened Registry
  import opened Requests

  datatype ReadError = Success | EndOfBlob | ClosedPipe | Ended | Failed

  /** classifyResumeReadError: what Read does with the error of the current body, or
      None to reconnect. `total` is -1 while unknown. */
  function Classify(err: StreamError, offset: nat, total: int): (r: Option<ReadError>)
    ensures r.None? <==> err != Fine && (total < 0 ==> err != Eof) && (total >= 0 ==> offset < total)
    ensures r == Some(EndOfBlob) <==> err != Fine && (if total < 0 then err == Eof else offset >= total)
    ensures err == Fine ==> r == Some(Success)
  {
    if err == Fine then Some(Success)
    else if total >= 0 && offset >= total then Some(EndOfBlob)
    else if err != Eof then None
    else if total < 0 then Some(EndOfBlob)
    else None
  }

  /** A validated replacement: the stream, and the bounds its response proved. */
  datatype Replacement = Replacement(body: Stream, total: int, end: int)

  /** What a stream is to a server that tells the truth about `blob`. */
  ghost predicate Truthful(blob: seq<Octet>, s: Stream) {
    s.Serves(blob) && (s.cap.None? && s.clean ==> s.data == blob)
  }

  /** The stream continues at byte `at` within the bounds (end, total). */
  ghost predicate Continues(s: Stream, at: nat, end: int, total: int)
    reads s
  {
    && s.Valid() && s.base + s.pos == at
    && if end < 0 then s.cap.None? && s.base == 0
       else at <= end <= total && s.cap.Some? && s.base + s.cap.value == end
  }

  /** A reply to a request for the bytes from `at` on, and the stream made of it. */
  lemma TruthfulPart(blob: seq<Octet>, reply: Reply, s: Stream, at: nat, parsed: ContentRange)
    requires Honest(blob, reply) && reply.Response? && reply.status == 206
    requires ParseContentRange(reply.contentRange) == Some(parsed) && parsed.start == at
    requires s.data == reply.body && s.base == at && s.cap == Some(parsed.end - at + 1)
    ensures parsed.total == |blob| && Truthful(blob, s)
  {
    hide ParseContentRange, UnsatisfiedRangeTotal;
    assert forall i :: 0 <= i < s.Bound() ==> s.data[i] == blob[at + i];
  }

  lemma TruthfulEnd(blob: seq<Octet>, reply: Reply)
    requires Honest(blob, reply) && reply.Response? && reply.status == 416
    ensures UnsatisfiedRangeTotal(reply.contentRange).Some? ==>
              UnsatisfiedRangeTotal(reply.contentRange).value == |blob|
  {
    hide ParseContentRange, UnsatisfiedRangeTotal;
  }

  lemma TruthfulWhole(blob: seq<Octet>, reply: Reply, s: Stream)
    requires Honest(blob, reply) && reply.Response? && reply.status == 200
    requires s.data == reply.body && s.clean == reply.clean && s.base == 0
    ensures Truthful(blob, s)
  {
    hide ParseContentRange, UnsatisfiedRangeTotal;
    assert s.data[..s.Bound()] == blob[..s.Bound()];
  }

  /** A reply that continues a transfer at byte `at`, given the total known before: a
      partial response from there, the proof that the blob ends there, or the whole blob
      again, as far as there at least. */
  predicate ContinuesAt(reply: Reply, at: nat, total: int) {
    reply.Response? &&
    match reply.status
    case 206 =>
      var parsed := ParseContentRange(reply.contentRange);
      parsed.Some? && parsed.value.start == at && (total >= 0 ==> parsed.value.total == total)
    case 416 => UnsatisfiedRangeTotal(reply.contentRange) == Some(at) && (total >= 0 ==> at == total)
    case 200 => |reply.body| >= at
    case _ => false
  }

  /** The stream made of a reply to a request for the bytes from `at` on: its body, or
      nothing behind a proven end. */
  ghost predicate MadeOf(s: Stream, reply: Reply, at: nat)
    reads s
  {
    && reply.Response? && s.calls == 0
    && match reply.status
       case 206 => s.data == reply.body && s.clean == reply.clean && s.pace == reply.pace && s.base == at && s.pos == 0
       case 200 => s.data == reply.body && s.clean == reply.clean && s.pace == reply.pace && s.base == 0 && s.pos == at
       case 416 => s.data == [] && s.clean && s.base == at && s.pace == NO_BODY
       case _ => false
  }

  // ---------------------------------------------------------------- registries that come through

  /** The whole blob from its start, as far as the transport gets: over an honest registry
      `body` is a head of the blob, and all of it if `clean`. */
  ghost predicate IsWhole(r: Reply) { r.Response? && r.status == 200 && Lively(r.pace) }

  /** The replies from number `from` to `goal` are worth a retry or bring the whole blob,
      as far as byte `least` and never less far than the ones before; number `goal` brings
      all of it. */
  ghost predicate ComesThrough(reply: nat -> Reply, from: nat, goal: nat, least: nat) {
    && from <= goal && IsWhole(reply(goal)) && reply(goal).clean
    && (forall k :: from <= k <= goal ==> WorthRetry(reply(k)) || (IsWhole(reply(k)) && |reply(k).body| >= least))
    && (forall k, l :: from <= k < l <= goal && IsWhole(reply(k)) && IsWhole(reply(l)) ==>
          |reply(k).body| <= |reply(l).body|)
  }

  /** Behind a reply that is not the goal yet. */
  lemma StillComesThrough(reply: nat -> Reply, from: nat, k: nat, goal: nat, least: nat)
    requires ComesThrough(reply, from, goal, least) && from <= k < goal
    ensures ComesThrough(reply, k + 1, goal, if IsWhole(reply(k)) then |reply(k).body| else least)
  {
    forall l | k + 1 <= l <= goal
      ensures WorthRetry(reply(l)) || (IsWhole(reply(l)) && |reply(l).body| >= (if IsWhole(reply(k)) then |reply(k).body| else least))
    {}
  }

  lemma NoContinuation(reply: Reply, at: nat, total: int)
    requires reply.Broken?
    ensures !ContinuesAt(reply, at, total)
  {}

  class ResumeReader {
    const server: Server
    const ctx: Context
    const maxAttempts: int
    /** Whether another goroutine may call Close at any moment. */
    const contested: bool
    var body: Stream?
    var offset: nat
    var attempts: nat
    var bodyEnd: int
    var total: int
    var closed: bool
    /** Every byte handed over so far, and the requests sent before this transfer. */
    ghost var delivered: seq<Octet>
    ghost const origin: nat
    /** What the content statements are about: `honest` servers of `blob`. */
    ghost const blob: seq<Octet>
    ghost const honest: bool
    /** What the progress statements are about: the number of a reply with all of the blob. */
    ghost const goal: nat

    /** newResumeReader */
    constructor (server: Server, ctx: Context, maxAttempts: int, contested: bool, body: Stream, spent: nat,
                 ghost origin: nat, ghost blob: seq<Octet>, ghost honest: bool, ghost goal: nat)
      requires Continues(body, 0, -1, -1)
      requires origin <= server.count <= origin + Max(spent, 1) && spent <= Attempts(maxAttempts)
      requires honest ==> server.HonestAbout(blob) && Truthful(blob, body)
      ensures this.server == server && this.ctx == ctx && this.maxAttempts == maxAttempts && this.body == body
      ensures this.origin == origin && this.blob == blob && this.honest == honest && this.goal == goal
      ensures this.contested == contested && attempts == Max(spent, 1)
      ensures Valid() && !closed && delivered == [] && total == -1
    {
      this.server, this.ctx, this.maxAttempts, this.contested := server, ctx, maxAttempts, contested;
      this.body, this.attempts := body, Max(spent, 1);
      this.offset, this.bodyEnd, this.total, this.closed := 0, -1, -1, false;
      this.delivered, this.origin, this.blob, this.honest, this.goal := [], origin, blob, honest, goal;
    }

    /** The current body continues exactly where the delivered bytes end, within the
        bounds the responses proved; the requests stay within the one budget; over an
        honest server the delivered bytes are the head of the blob. */
    ghost predicate Valid()
      reads this, body, server
    {
      && |delivered| == offset
      && (closed <==> body == null)
      && (body != null ==> Continues(body, offset, bodyEnd, total))
      && (bodyEnd < 0 <==> total < 0) && (total >= 0 ==> offset <= bodyEnd <= total)
      && origin <= server.count <= origin + attempts && attempts <= Attempts(maxAttempts)
      && (honest ==> Faithful())
    }

    ghost predicate Faithful()
      reads this, body
    {
      && server.HonestAbout(blob)
      && offset <= |blob| && delivered == blob[..offset]
      && (total >= 0 ==> total == |blob|)
      && (body != null ==> Truthful(blob, body))
    }

    /** Close and cancellation are reported only where they happened. */
    ghost predicate Justified(err: ReadError)
      reads this, ctx
    {
      (err == ClosedPipe ==> closed) && (err == Ended ==> ctx.done)
    }

    /** Only another goroutine closes this reader while it reads. */
    predicate Unbidden(before: bool)
      reads this
    {
      contested || closed == before
    }

    /** Why a transfer gives up: the budget is spent, or the latest reply was neither
        worth a retry nor a continuation. */
    ghost predicate Final(from: nat)
      reads this, server
    {
      || attempts == Attempts(maxAttempts)
      || (server.count > from && !WorthRetry(server.reply(server.count - 1))
          && !ContinuesAt(server.reply(server.count - 1), offset, total))
    }

    /** Nobody closes this reader or ends its context. */
    ghost predicate Undisturbed()
      reads this, ctx
    {
      !closed && !contested && ctx.Calm()
    }

    /** The budget reaches a reply with all of the blob, and every one before it goes on
        behind byte `least`. */
    ghost predicate Hopeful(least: nat)
      reads this, server, ctx
    {
      && Undisturbed() && total < 0 && attempts == server.count - origin && goal < origin + Attempts(maxAttempts)
      && ComesThrough(server.reply, server.count, goal, least)
    }

    /** The current body is a whole response, and if it breaks there is hope. */
    ghost predicate OnCourse()
      reads this, body, server, ctx
    {
      && Valid() && honest && Undisturbed() && total < 0
      && body.base == 0 && body.cap.None? && Lively(body.pace)
      && (body.clean || Hopeful(|body.data|))
    }

    /** Another goroutine's Close may happen here. */
    method Interfere()
      requires Valid()
      modifies this`closed, this`body
      ensures Valid()
      ensures (closed == old(closed) && body == old(body)) || (contested && closed && body == null)
    {
      var strikes: bool := *;
      if contested && strikes {
        closed, body := true, null;
      }
    }

    /** Close */
    method Close()
      requires Valid()
      modifies this`closed, this`body
      ensures Valid() && closed
    {
      if closed { return; }
      closed, body := true, null;
    }

    // -------------------------------------------------------------- replacing a broken body

    /** reserveResumeAttempt and the backoff wait. */
    method WaitForAttempt() returns (at: nat, err: ReadError)
      requires Valid()
      modifies this`closed, this`body, this`attempts, ctx
      ensures Unbidden(old(closed))
      ensures Valid() && (body == old(body) || body == null)
      ensures old(attempts) <= attempts <= old(attempts) + 1
      ensures err == Success ==> attempts == old(attempts) + 1 && at == offset
      ensures err == Success ==> server.count < origin + attempts
      ensures err != EndOfBlob && Justified(err)
      ensures err == Failed ==> attempts == old(attempts) == Attempts(maxAttempts)
      ensures old(closed) ==> err == ClosedPipe
      ensures old(Undisturbed()) ==>
        Undisturbed() && body == old(body) && err == if old(attempts) < Attempts(maxAttempts) then Success else Failed
    {
      Interfere();
      at, err := offset, Success;
      if closed { return at, ClosedPipe; }
      var ended := ctx.Err();
      if ended { return at, Ended; }
      if attempts >= Attempts(maxAttempts) { return at, Failed; }
      attempts := attempts + 1;
      ended := ctx.Err();
      if ended {
        Interfere();
        return at, if closed then ClosedPipe else Ended;
      }
    }

    /** stateError */
    method StateError() returns (err: ReadError)
      requires Valid()
      modifies this`closed, this`body, ctx
      ensures Unbidden(old(closed))
      ensures Valid() && (body == old(body) || body == null) && Justified(err)
      ensures err == Success || err == ClosedPipe || err == Ended
      ensures old(closed) ==> err == ClosedPipe
      ensures old(Undisturbed()) ==> Undisturbed() && body == old(body) && err == Success
    {
      Interfere();
      if closed { return ClosedPipe; }
      var ended := ctx.Err();
      return if ended then Ended else Success;
    }

    /** What a validated replacement promises. */
    ghost predicate Replaces(r: Replacement, at: nat)
      reads this, r.body
    {
      && Continues(r.body, at, r.end, r.total)
      && (r.end < 0 <==> r.total < 0) && (total >= 0 ==> r.total == total)
      && (honest ==> Truthful(blob, r.body) && (r.total >= 0 ==> r.total == |blob|))
    }

    /** The full-body fallback of validateResumeResponse: the delivered head is discarded. */
    method ReplayedFromStart(reply: Reply, at: nat) returns (r: Option<Replacement>, err: ReadError)
      requires Valid() && reply.Response? && reply.status == 200 && at == offset
      requires honest ==> Honest(blob, reply)
      modifies this`closed, this`body, ctx
      ensures Unbidden(old(closed))
      ensures Valid() && (body == old(body) || body == null) && Justified(err) && err != EndOfBlob
      ensures r.Some? <==> err == Success
      ensures r.Some? ==> fresh(r.value.body) && Replaces(r.value, at) && MadeOf(r.value.body, reply, at)
      ensures r.Some? ==> r.value.total == total
      ensures err == Failed ==> |reply.body| < at
      ensures old(Undisturbed()) ==> Undisturbed() && body == old(body) && (|reply.body| >= at ==> r.Some?)
    {
      hide Honest, Truthful;
      err := StateError();
      if err != Success { return None, err; }
      if |reply.body| < at { return None, Failed; }
      var cap := if total >= 0 then Some(total as nat) else None;
      var whole := new Stream(reply.body, reply.clean, 0, at, cap, reply.pace);
      if honest { TruthfulWhole(blob, reply, whole); }
      return Some(Replacement(whole, total, total)), Success;
    }

    /** validateResumeResponse, for a status that is not worth a retry. */
    method ValidateResponse(reply: Reply, at: nat) returns (r: Option<Replacement>, err: ReadError)
      requires Valid() && reply.Response? && at == offset
      requires honest ==> Honest(blob, reply)
      modifies this`closed, this`body, ctx
      ensures Unbidden(old(closed))
      ensures Valid() && (body == old(body) || body == null) && Justified(err) && err != EndOfBlob
      ensures r.Some? <==> err == Success
      ensures r.Some? ==> fresh(r.value.body) && Replaces(r.value, at) && MadeOf(r.value.body, reply, at)
      ensures r.Some? && reply.status == 200 ==> r.value.total == total
      ensures ContinuesAt(reply, at, total) ==> r.Some? || (reply.status == 200 && err != Failed)
      ensures old(Undisturbed()) ==> Undisturbed() && body == old(body) && (r.Some? <==> ContinuesAt(reply, at, total))
    {
      hide ParseContentRange, UnsatisfiedRangeTotal, Honest;
      match reply.status
      case 206 =>
        var parsed := ParseContentRange(reply.contentRange);
        if parsed.None? || parsed.value.start != at { return None, Failed; }
        if total >= 0 && parsed.value.total != total { return None, Failed; }
        var length := parsed.value.end - parsed.value.start + 1;
        var stream := new Stream(reply.body, reply.clean, at, 0, Some(length), reply.pace);
        if honest { TruthfulPart(blob, reply, stream, at, parsed.value); }
        return Some(Replacement(stream, parsed.value.total, parsed.value.end + 1)), Success;
      case 416 =>
        var end := UnsatisfiedRangeTotal(reply.contentRange);
        if end.None? || end.value != at || (total >= 0 && end.value != total) { return None, Failed; }
        var nothing := new Stream([], true, at, 0, Some(0), NO_BODY);
        if honest { TruthfulEnd(blob, reply); }
        return Some(Replacement(nothing, at, at)), Success;
      case 200 =>
        r, err := ReplayedFromStart(reply, at);
      case _ => return None, Failed;
    }

    /** replaceBody */
    method ReplaceBody(r: Replacement) returns (err: ReadError)
      requires Valid() && Replaces(r, offset)
      modifies this`closed, this`body, this`bodyEnd, this`total, ctx
      ensures Unbidden(old(closed))
      ensures Valid() && (body == old(body) || body == null || body == r.body)
      ensures err == Success ==> body == r.body
      ensures old(total) >= 0 ==> total == old(total)
      ensures err != EndOfBlob && err != Failed && Justified(err)
      ensures err != Success ==> total == old(total)
      ensures err == Success ==> !closed && total == if r.total >= 0 then r.total else old(total)
      ensures old(Undisturbed()) ==> Undisturbed() && err == Success
    {
      Interfere();
      if closed { return ClosedPipe; }
      var ended := ctx.Err();
      if ended { return Ended; }
      body, bodyEnd := r.body, r.end;
      if r.total >= 0 { total := r.total; }
      return Success;
    }

    /** executeResumeAttempt: one request, and what to do with its outcome. */
    method ExecuteAttempt(at: nat) returns (r: Option<Replacement>, retry: bool, err: ReadError)
      requires Valid() && at == offset && server.count < origin + attempts
      modifies this`closed, this`body, server, ctx
      ensures Unbidden(old(closed))
      ensures Valid() && (body == old(body) || body == null)
      ensures server.count == old(server.count) + 1
      ensures retry ==> r.None? && WorthRetry(server.reply(old(server.count)))
      ensures !retry ==> Justified(err) && err != EndOfBlob && (r.Some? <==> err == Success)
      ensures !retry && err == Failed ==>
        var reply := server.reply(old(server.count)); !WorthRetry(reply) && !ContinuesAt(reply, at, total)
      ensures r.Some? ==> fresh(r.value.body) && Replaces(r.value, at)
      ensures r.Some? ==> var reply := server.reply(old(server.count));
        MadeOf(r.value.body, reply, at) && (reply.status == 200 ==> r.value.total == total)
      ensures old(Undisturbed()) ==> Undisturbed() && body == old(body) && var reply := server.reply(old(server.count));
        && (retry <==> WorthRetry(reply)) && (!WorthRetry(reply) && ContinuesAt(reply, at, total) ==> r.Some?)
    {
      hide Honest, Truthful, Replaces, ContinuesAt, MadeOf;
      var reply := server.Send();
      assert honest ==> Honest(blob, reply);
      if reply.Broken? {
        NoContinuation(reply, at, total);
        err := StateError();
        if err != Success { return None, false, err; }
        return None, reply.retryable, Failed;
      }
      if RetryableStatus(reply.status) { return None, true, Failed; }
      r, err := ValidateResponse(reply, at);
      return r, false, err;
    }

    /** One turn of reestablish's loop. */
    method TryAgain() returns (again: bool, err: ReadError)
      requires Valid()
      modifies this`closed, this`body, this`attempts, this`bodyEnd, this`total, ctx, server
      ensures Unbidden(old(closed))
      ensures Valid() && (body == old(body) || body == null || fresh(body))
      ensures old(attempts) <= attempts && old(server.count) <= server.count
      ensures again ==> old(attempts) < attempts && WorthRetry(server.reply(old(server.count))) && body == (if closed then null else old(body))
      ensures again || err == Failed ==> total == old(total)
      ensures again || err == Failed || err == Success ==> attempts - old(attempts) == server.count - old(server.count) <= 1
      ensures again || err == Success ==> server.count == old(server.count) + 1
      ensures old(total) >= 0 ==> total == old(total)
      ensures !again ==> err != EndOfBlob && Justified(err) && (err == Failed ==> Final(old(server.count)))
      ensures !again ==> server.count <= old(server.count) + 1
      ensures !again && err == Success ==> body != null && MadeOf(body, server.reply(old(server.count)), offset)
      ensures old(closed) ==> !again && err == ClosedPipe
      ensures old(Undisturbed()) ==> Undisturbed() && (again || err == Success || err == Failed)
      ensures old(Hopeful(offset)) && honest ==> if again then Hopeful(offset) else err == Success && OnCourse()
    {
      hide Continues, Truthful, ContinuesAt, MadeOf, ComesThrough, Lively, Replaces;
      ghost var from := server.count;
      if Hopeful(offset) { NextMayCome(); }
      var at, stop := WaitForAttempt();
      if stop != Success { return false, stop; }
      var r, retry;
      r, retry, err := ExecuteAttempt(at);
      if r.Some? {
        err := ReplaceBody(r.value);
        if old(Hopeful(offset)) && honest { BackOnCourse(from); }
        return false, err;
      }
      if old(Hopeful(offset)) && honest { StillComesThrough(server.reply, from, from, goal, offset); }
      return retry, err;
    }

    /** reestablish */
    method Reestablish() returns (err: ReadError)
      requires Valid()
      modifies this`closed, this`body, this`attempts, this`bodyEnd, this`total, ctx, server
      ensures Unbidden(old(closed))
      ensures Valid() && (body == old(body) || body == null || fresh(body))
      ensures old(attempts) <= attempts && (err == Success ==> old(attempts) < attempts)
      ensures old(total) >= 0 ==> total == old(total)
      ensures err != EndOfBlob && Justified(err) && old(server.count) <= server.count
      ensures err == Failed ==> Final(old(server.count))
      ensures err == Failed || err == Success ==> attempts - old(attempts) == server.count - old(server.count)
      ensures forall k :: old(server.count) <= k < server.count - 1 ==> WorthRetry(server.reply(k))
      ensures err == Success ==>
        server.count > old(server.count) && body != null && MadeOf(body, server.reply(server.count - 1), offset)
      ensures old(closed) ==> err == ClosedPipe
      ensures old(Undisturbed()) ==> Undisturbed() && (err == Success || err == Failed)
      ensures old(Hopeful(offset)) && honest ==> err == Success && OnCourse()
    {
      hide Continues, ContinuesAt, MadeOf, Valid, Hopeful, OnCourse;
      var again;
      again, err := TryAgain();
      while again
        invariant Valid() && (body == old(body) || body == null || fresh(body)) && Unbidden(old(closed))
        invariant again ==> body == old(body) || body == null
        invariant old(attempts) <= attempts && old(server.count) <= server.count
        invariant again || err == Success ==> old(attempts) < attempts && old(server.count) < server.count
        invariant again || err == Failed || err == Success ==> attempts - old(attempts) == server.count - old(server.count)
        invariant old(total) >= 0 ==> total == old(total)
        invariant again ==> forall k :: old(server.count) <= k < server.count ==> WorthRetry(server.reply(k))
        invariant forall k :: old(server.count) <= k < server.count - 1 ==> WorthRetry(server.reply(k))
        invariant !again ==> err != EndOfBlob && Justified(err) && (err == Failed ==> Final(old(server.count)))
        invariant !again && err == Success ==> body != null && MadeOf(body, server.reply(server.count - 1), offset)
        invariant old(closed) ==> !again && err == ClosedPipe
        invariant old(Undisturbed()) ==> Undisturbed() && (again || err == Success || err == Failed)
        invariant old(Hopeful(offset)) && honest ==> if again then Hopeful(offset) else err == Success && OnCourse()
        decreases Attempts(maxAttempts) - attempts, if again then 1 else 0
      {
        WithinBudget();
        again, err := TryAgain();
        WithinBudget();
      }
    }

    lemma WithinBudget()
      requires Valid()
      ensures attempts <= Attempts(maxAttempts)
    {}

    /** While there is hope the budget is not spent, and the next reply continues or is
        worth a retry. */
    lemma NextMayCome()
      requires Hopeful(offset)
      ensures attempts < Attempts(maxAttempts) && var reply := server.reply(server.count);
        WorthRetry(reply) || (!WorthRetry(reply) && ContinuesAt(reply, offset, total) && reply.status == 200 && reply.Response?)
      ensures WorthRetry(server.reply(server.count)) ==> server.count < goal
    {}

    /** A whole response that replaced the body keeps the hope. */
    lemma BackOnCourse(from: nat)
      requires Valid() && honest && Undisturbed() && total < 0 && body != null
      requires server.count == from + 1 && attempts == server.count - origin && goal < origin + Attempts(maxAttempts)
      requires ComesThrough(server.reply, from, goal, offset) && !WorthRetry(server.reply(from))
      requires MadeOf(body, server.reply(from), offset)
      ensures OnCourse()
    {
      hide Truthful;
      assert IsWhole(server.reply(from));
      if from < goal { StillComesThrough(server.reply, from, from, goal, offset); }
    }

    // -------------------------------------------------------------- reading

    /** The current body was asked for bytes, and answered with none and no error. */
    ghost predicate Stalled()
      reads this, body
    {
      body != null && body.calls > 0 && body.pace(body.calls - 1).give == 0
    }

    /** readableBody, one read of the body, and recordRead. `stop` is set when Close or
        the context won. */
    method ReadBody(p: array<Octet>) returns (n: nat, broke: StreamError, stop: ReadError)
      requires Valid()
      modifies this`closed, this`body, this`offset, this`delivered, body, ctx, p
      ensures Unbidden(old(closed))
      ensures Valid() && (body == old(body) || body == null)
      ensures n <= p.Length && offset == old(offset) + n && delivered == old(delivered) + p[..n]
      ensures stop == Success || stop == ClosedPipe || stop == Ended
      ensures Justified(stop)
      ensures stop == Success && broke == Eof && total < 0 && honest ==> offset == |blob|
      ensures old(closed) ==> n == 0 && stop == ClosedPipe
      ensures stop == Success ==>
        !old(closed) && body == old(body) && n == old(body.Gives(p.Length)) && broke == old(body.Reports(p.Length))
        && body.pos == old(body.pos) + n
      ensures stop == Success && n == 0 && broke == Fine && p.Length > 0 ==> Stalled()
      ensures old(Undisturbed()) ==> Undisturbed() && stop == Success
    {
      hide Continues, Faithful, ComesThrough, Lively;
      Interfere();
      n, broke := 0, Fine;
      assert delivered == delivered + p[..n];
      if closed { return n, broke, ClosedPipe; }
      var ended := ctx.Err();
      if ended { return n, broke, Ended; }
      n, broke := Deliver(p);
      Interfere();
      if closed { return n, broke, ClosedPipe; }
      ended := ctx.Err();
      return n, broke, if ended then Ended else Success;
    }

    /** One read of the body, and its bytes recorded. */
    method Deliver(p: array<Octet>) returns (n: nat, broke: StreamError)
      requires Valid() && body != null
      modifies this`offset, this`delivered, body, p
      ensures Valid() && n == old(body.Gives(p.Length)) && broke == old(body.Reports(p.Length))
      ensures body.pos == old(body.pos) + n
      ensures n <= p.Length && offset == old(offset) + n && delivered == old(delivered) + p[..n]
      ensures broke == Eof && total < 0 && honest ==> offset == |blob|
      ensures n == 0 && broke == Fine && p.Length > 0 ==> Stalled()
    {
      hide Stream.Serves;
      if p.Length > 0 { body.NothingMeansStalled(p.Length); }
      ghost var at := body.pos;
      n, broke := body.Read(p, p.Length);
      if honest { ServedBytes(blob, body, at); }
      offset, delivered := offset + n, delivered + p[..n];
    }

    /** Nothing but the body has moved on. */
    twostate lemma StaysOnCourse()
      requires old(OnCourse()) && Valid() && Undisturbed() && body == old(body)
      requires attempts == old(attempts) && total == old(total) && server.count == old(server.count)
      ensures OnCourse()
    {
      hide Truthful, Continues, ComesThrough, Lively;
    }

    /** One turn of Read's loop; `done` tells that Read returns. */
    method Turn(p: array<Octet>) returns (n: nat, done: bool, err: ReadError)
      requires Valid() && p.Length > 0
      modifies this`closed, this`body, this`attempts, this`bodyEnd, this`total, this`offset, this`delivered
      modifies body, ctx, server, p
      ensures Unbidden(old(closed))
      ensures Valid() && (body == old(body) || body == null || fresh(body))
      ensures n <= p.Length && offset == old(offset) + n && delivered == old(delivered) + p[..n]
      ensures old(total) >= 0 ==> total == old(total)
      ensures !done ==> n == 0 && old(attempts) < attempts && old(server.count) < server.count
      ensures old(attempts) <= attempts
      ensures done && err == EndOfBlob && total >= 0 ==> offset == total
      ensures done && err == EndOfBlob && honest ==> offset == |blob|
      ensures done ==> Justified(err) && (err == Failed ==> Final(old(server.count))) && old(server.count) <= server.count
      ensures old(closed) ==> done && n == 0 && err == ClosedPipe
      ensures done && err == Success && n == 0 ==> Stalled()
      ensures old(Undisturbed()) ==> Undisturbed()
      ensures old(Undisturbed()) ==>
        var m := old(body.Gives(p.Length));
        n == m && match Classify(old(body.Reports(p.Length)), old(offset) + m, old(total))
                  case Some(verdict) => done && err == verdict && server.count == old(server.count)
                  case None => (m > 0 ==> done) && (server.count > old(server.count) || old(attempts) == Attempts(maxAttempts))
      ensures old(OnCourse()) ==> OnCourse() && (done ==> err == EndOfBlob || (err == Success && n > 0))
    {
      hide Continues, Truthful, Hopeful, Lively, MadeOf, OnCourse;
      if OnCourse() { LivelyRead(p.Length); }
      var broke, stop;
      n, broke, stop := ReadBody(p);
      if old(OnCourse()) { StaysOnCourse(); }
      if stop != Success { return n, true, stop; }
      var verdict := Classify(broke, offset, total);
      if verdict.Some? { return n, true, verdict.value; }
      if old(OnCourse()) { StillHopeful(); }
      var failure := Reestablish();
      if failure != Success { return n, true, failure; }
      return n, n > 0, Success;
    }

    /** A body that broke on course. */
    lemma StillHopeful()
      requires OnCourse() && body.pos == |body.data| && !body.clean
      ensures Hopeful(offset) && honest
    {
      hide Truthful, ComesThrough;
    }

    /** Read. Bytes come in order, from the one blob; the end is reported only where
        the total, or a clean full response, proves it. Undisturbed, it returns what its
        body answers, as classified, or reconnects; and it ends a blob that some reply
        within the budget brings in whole. */
    method Read(p: array<Octet>) returns (n: nat, err: ReadError)
      requires Valid()
      modifies this`closed, this`body, this`attempts, this`bodyEnd, this`total, this`offset, this`delivered
      modifies body, ctx, server, p
      ensures Unbidden(old(closed))
      ensures Valid() && (body == old(body) || body == null || fresh(body))
      ensures n <= p.Length && offset == old(offset) + n && delivered == old(delivered) + p[..n]
      ensures old(total) >= 0 ==> total == old(total)
      ensures err == EndOfBlob && total >= 0 ==> offset == total
      ensures err == EndOfBlob && honest ==> offset == |blob|
      ensures Justified(err) && (err == Failed ==> Final(old(server.count)))
      ensures old(closed) ==> n == 0 && err == ClosedPipe
      ensures p.Length > 0 && err == Success && n == 0 ==> Stalled()
      ensures old(Undisturbed()) ==> Undisturbed() && (p.Length == 0 ==> err == Success)
      ensures old(Undisturbed()) && p.Length > 0 ==>
        var m := old(body.Gives(p.Length));
        match Classify(old(body.Reports(p.Length)), old(offset) + m, old(total))
        case Some(verdict) => n == m && err == verdict && server.count == old(server.count)
        case None => (m > 0 ==> n == m) && (server.count > old(server.count) || old(attempts) == Attempts(maxAttempts))
      ensures old(OnCourse()) ==> OnCourse() && (p.Length > 0 ==> err == EndOfBlob || (err == Success && n > 0))
    {
      hide Continues, Truthful, Hopeful, Lively, MadeOf, OnCourse, Stalled, Faithful;
      n := 0;
      if p.Length == 0 {
        if OnCourse() { LivelyRead(1); }
        err := StateError();
        if old(OnCourse()) { StaysOnCourse(); }
        return;
      }
      var done;
      n, done, err := Turn(p);
      while !done
        invariant n <= p.Length
        invariant Valid() && offset == old(offset) + n && delivered == old(delivered) + p[..n] && Unbidden(old(closed))
        invariant body == old(body) || body == null || fresh(body)
        invariant old(total) >= 0 ==> total == old(total)
        invariant old(server.count) <= server.count
        invariant !done ==> n == 0 && old(server.count) < server.count
        invariant done && err == EndOfBlob ==> (total >= 0 ==> offset == total) && (honest ==> offset == |blob|)
        invariant done ==> Justified(err) && (err == Failed ==> Final(old(server.count)))
        invariant done && err == Success && n == 0 ==> Stalled()
        invariant old(closed) ==> done && n == 0 && err == ClosedPipe
        invariant old(Undisturbed()) ==> Undisturbed()
        invariant old(Undisturbed()) ==>
          var m := old(body.Gives(p.Length));
          match Classify(old(body.Reports(p.Length)), old(offset) + m, old(total))
          case Some(verdict) => done && n == m && err == verdict && server.count == old(server.count)
          case None => (m > 0 ==> n == m && done) && (server.count > old(server.count) || old(attempts) == Attempts(maxAttempts))
        invariant old(OnCourse()) ==> OnCourse() && (done ==> err == EndOfBlob || (err == Success && n > 0))
        decreases Attempts(maxAttempts) - attempts, if done then 0 else 1
      {
        WithinBudget();
        n, done, err := Turn(p);
        WithinBudget();
      }
    }

    /** On course a read gives bytes, ends at the blob's end, or breaks where there is hope. */
    lemma LivelyRead(m: nat)
      requires OnCourse() && m > 0
      ensures Undisturbed() && total < 0 && body != null && body.Valid()
      ensures body.Gives(m) > 0 || body.Reports(m) != Fine
      ensures body.Reports(m) == Broke ==> body.Gives(m) == 0 && body.pos == |body.data| && !body.clean
    {
      hide ComesThrough, Truthful;
      body.LivelyGoesOn(m);
    }
  }

  /** The bytes a truthful stream gives are the blob's at its position. */
  lemma ServedBytes(blob: seq<Octet>, s: Stream, from: nat)
    requires s.Valid() && from <= s.pos && Truthful(blob, s)
    ensures s.base + s.pos <= |blob|
    ensures blob[..s.base + from] + s.data[from..s.pos] == blob[..s.base + s.pos]
    ensures s.cap.None? && s.EndsAt(s.pos) ==> s.base + s.pos == s.base + |blob|
  {
    assert s.data[from..s.pos] == s.data[..s.Bound()][from..s.pos];
  }
}
