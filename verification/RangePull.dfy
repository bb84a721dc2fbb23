/** PullRange: one requested byte window, carved out of a full response or stitched
    together from at most sixteen partial ones. */
module RangePull {
  import opened Basics
  import opened Wire
  import opened Registry
  import opened Requests
  import opened RangeRace

  /** maxRangeParts */
  const MAX_PARTS: nat := 16

  datatype ReadError = Success | EndOfRange | ClosedPipe | Ended | Failed | NilReader

  /** validateContentRange */
  predicate Within(parsed: ContentRange, start: nat, end: nat) { parsed.start == start && parsed.end <= end }

  /** The stream still has the blob's bytes up to index `upto` of its data, if it has any there. */
  ghost predicate Agrees(blob: seq<Octet>, s: Stream, upto: nat) {
    s.cap.None? && AgreesFrom(blob, s.base, s.data, upto)
  }

  lemma AgreeingBytes(blob: seq<Octet>, s: Stream, upto: nat, from: nat, to: nat)
    requires Agrees(blob, s, upto) && from <= to <= upto && to <= |s.data| && s.base + to <= |blob|
    ensures s.data[from..to] == blob[s.base + from..s.base + to]
  {}

  /** What a truthful partial response brings. */
  lemma HonestPart(blob: seq<Octet>, r: Reply, parsed: ContentRange, s: Stream)
    requires Honest(blob, r) && r.Response? && r.status == 206 && ParseContentRange(r.contentRange) == Some(parsed)
    requires s.data == r.body && s.base == parsed.start && s.cap.None?
    ensures parsed.total == |blob| && Agrees(blob, s, parsed.end - parsed.start + 1)
  {
    hide ParseContentRange, UnsatisfiedRangeTotal;
  }

  /** A truthful full response is a head of the blob. */
  lemma HonestWhole(blob: seq<Octet>, r: Reply)
    requires Honest(blob, r) && r.Response? && r.status == 200
    ensures r.body <= blob
  {
    hide ParseContentRange, UnsatisfiedRangeTotal;
  }

  /** A partial response for a window that starts at `start`, of a blob of `total` bytes. */
  predicate IsPart(reply: Reply, start: nat, end: nat, total: int) {
    && reply.Response? && reply.status == 206
    && var parsed := ParseContentRange(reply.contentRange);
       parsed.Some? && parsed.value.start == start && parsed.value.end <= end
       && (total >= 0 ==> parsed.value.total == total)
  }

  /** The replies from number k on bring the window [next, end] part by part, each body
      whole and lively, with at most sixteen parts in all. */
  ghost predicate Stitches(reply: nat -> Reply, k: nat, next: nat, end: nat, total: int, parts: nat)
    decreases 16 - parts
  {
    && parts < 16 && IsPart(reply(k), next, end, total) && Lively(reply(k).pace)
    && var parsed := ParseContentRange(reply(k).contentRange).value;
       && |reply(k).body| >= parsed.end - next + 1
       && (parsed.end < end ==> Stitches(reply, k + 1, parsed.end + 1, end, parsed.total, parts + 1))
  }

  /** A full response that reaches as far as the window. */
  ghost predicate Covers(reply: Reply, end: nat) {
    reply.Response? && reply.status == 200 && Lively(reply.pace) && |reply.body| > end
  }

  class RangeReader {
    const server: Server
    const ctx: Context
    const maxAttempts: int
    /** Before which of the mutex sections of Read another goroutine calls Close, and how
        many have begun. */
    const strikes: nat -> bool
    var sections: nat
    var body: Stream?
    var remaining: nat
    var next: nat
    const end: nat
    const total: int
    var parts: nat
    var closed: bool
    /** The window's first byte, every byte handed over so far, and what the content
        statements are about. */
    ghost const offset: nat
    ghost var delivered: seq<Octet>
    ghost const blob: seq<Octet>
    ghost const honest: bool

    /** newRangeReader for the partial response `parsed`. */
    constructor OverPart(server: Server, ctx: Context, maxAttempts: int, strikes: nat -> bool, body: Stream,
                         parsed: ContentRange, end: nat, ghost blob: seq<Octet>, ghost honest: bool)
      requires body.Valid() && body.pos == 0 && body.base == parsed.start && body.cap.None?
      requires parsed.start <= parsed.end <= end && parsed.end < parsed.total
      requires honest ==> server.HonestAbout(blob) && parsed.total == |blob|
      requires honest ==> Agrees(blob, body, parsed.end - parsed.start + 1)
      ensures Valid() && !closed && delivered == [] && offset == parsed.start && total == parsed.total
      ensures remaining == parsed.end - parsed.start + 1 && next == parsed.end + 1
      ensures this.server == server && this.ctx == ctx && this.body == body && this.end == end && parts == 1
      ensures this.blob == blob && this.honest == honest && this.maxAttempts == maxAttempts && this.strikes == strikes && sections == 0
    {
      this.server, this.ctx, this.maxAttempts, this.strikes, sections := server, ctx, maxAttempts, strikes, 0;
      this.body, remaining, next, this.end := body, parsed.end - parsed.start + 1, parsed.end + 1, end;
      total, parts, closed := parsed.total, 1, false;
      offset, delivered, this.blob, this.honest := parsed.start, [], blob, honest;
    }

    /** newRangeReader for a full response that has been read up to `offset`. */
    constructor OverWhole(server: Server, ctx: Context, maxAttempts: int, strikes: nat -> bool, body: Stream,
                          offset: nat, end: nat, ghost blob: seq<Octet>, ghost honest: bool)
      requires body.Valid() && body.pos == offset <= end && body.base == 0 && body.cap.None?
      requires honest ==> server.HonestAbout(blob) && body.data <= blob
      ensures Valid() && !closed && delivered == [] && this.offset == offset && total == -1
      ensures remaining == end - offset + 1
      ensures this.server == server && this.ctx == ctx && this.body == body && this.end == end && parts == 0
      ensures this.blob == blob && this.honest == honest && this.maxAttempts == maxAttempts && this.strikes == strikes && sections == 0
    {
      this.server, this.ctx, this.maxAttempts, this.strikes, sections := server, ctx, maxAttempts, strikes, 0;
      this.body, remaining, next, this.end := body, end - offset + 1, 0, end;
      total, parts, closed := -1, 0, false;
      this.offset, delivered, this.blob, this.honest := offset, [], blob, honest;
    }

    /** On the partial path delivered + remaining == next - offset; on the other one
        they make up the window. The body continues right behind the delivered bytes. */
    ghost predicate Valid()
      reads this, body, server
    {
      && offset <= end
      && (if total >= 0 then |delivered| + remaining == next - offset && next <= end + 1 && next <= total && 1 <= parts <= MAX_PARTS
          else |delivered| + remaining == end - offset + 1 && parts == 0)
      && (body != null ==> body.Valid() && body.cap.None? && body.base + body.pos == offset + |delivered|)
      && (remaining > 0 && !closed ==> body != null)
      && (closed ==> body == null)
      && (honest ==> Faithful())
    }

    ghost predicate Faithful()
      reads this, body
    {
      && server.HonestAbout(blob)
      && offset + |delivered| <= |blob| && delivered == blob[offset..offset + |delivered|]
      && (total >= 0 ==> total == |blob|)
      && (body != null ==> Agrees(blob, body, body.pos + remaining))
      && (body != null && total < 0 ==> body.base + |body.data| <= |blob|)
    }

    /** Nobody closes this reader or ends its context. */
    ghost predicate Undisturbed()
      reads this, ctx
    {
      !closed && ctx.Calm() && forall k: nat :: !strikes(k)
    }

    /** The current body has all of its part, and the replies to come bring the rest. */
    ghost predicate OnCourse()
      reads this, body, server, ctx
    {
      && Valid() && Undisturbed()
      && (remaining > 0 ==> body.cap.None? && Lively(body.pace) && |body.data| - body.pos >= remaining)
      && (total >= 0 && next <= end ==> Stitches(server.reply, server.count, next, end, total, parts))
    }

    /** The current body was asked for bytes, and answered with none and no error. */
    ghost predicate Stalled()
      reads this, body
    {
      body != null && body.calls > 0 && body.pace(body.calls - 1).give == 0
    }

    /** The latest read of the current body broke, or came to the end of a body that is
        shorter than its part. */
    ghost predicate BrokeOff()
      reads this, body
    {
      && body != null && body.calls > 0
      && (body.pace(body.calls - 1).err == Broke || (remaining > 0 && body.pos == |body.data|))
    }

    /** Close and cancellation are reported only where they happened. */
    ghost predicate Justified(err: ReadError)
      reads this, ctx
    {
      (err == ClosedPipe ==> closed) && (err == Ended ==> ctx.done)
    }

    /** Why the window cannot go on: the blob ends before it, sixteen parts were not
        enough, or the latest reply is not the next part. */
    ghost predicate Stuck(from: nat)
      reads this, server
    {
      || (remaining == 0 && next >= total)
      || parts == MAX_PARTS
      || (server.count > from && !IsPart(server.reply(server.count - 1), next, end, total))
    }

    /** Requests are sent only for a part that is adopted, or in vain; never for a
        seventeenth part, nor behind a full response. */
    predicate Spends(before: nat, from: nat, to: nat, stopped: bool)
      reads this
    {
      before <= parts && (from == to || (total >= 0 && before < MAX_PARTS && (parts == before + 1 || stopped)))
    }

    /** The reader as the race between Read and Close sees it. */
    function See(at: Point): View
      reads this
    {
      View(closed, body != null, remaining, at)
    }

    /** What a Close between two states of this reader was. */
    function Struck(before: bool): seq<Act>
      reads this
    {
      if closed && !before then [CloseNow] else []
    }

    /** The moment before a mutex section: another goroutine's Close may come first. */
    method Interfere(ghost at: Point) returns (ghost acts: seq<Act>)
      requires Valid() && !at.Crashed?
      modifies this`closed, this`body, this`sections
      ensures Valid()
      ensures sections == old(sections) + 1 && closed == (old(closed) || strikes(old(sections)))
      ensures body == if closed && !old(closed) then null else old(body)
      ensures After(old(See(at)), acts) == Some(See(at)) && acts == Struck(old(closed))
      ensures old(Undisturbed()) ==> Undisturbed() && body == old(body) && !closed
      ensures old(OnCourse()) ==> OnCourse()
    {
      hide Stitches, Lively, Agrees;
      acts := [];
      if strikes(sections) && !closed {
        closed, body := true, null;
        acts := [CloseNow];
        OneMore(old(See(at)), [], CloseNow);
      }
      sections := sections + 1;
    }

    /** Close */
    method Close()
      requires Valid()
      modifies this`closed, this`body
      ensures Valid() && closed
      ensures !old(closed) ==> See(Outside) == Next(old(See(Outside)), CloseNow)
    {
      if closed { return; }
      closed, body := true, null;
    }

    /** The checks that a follow-up response must pass before it is installed. */
    method FollowUp() returns (r: Option<ContentRange>, fetched: Stream?)
      requires Valid() && total >= 0 && remaining == 0 && next <= end && next < total
      modifies server, ctx
      ensures Valid() && server.count <= old(server.count) + Attempts(maxAttempts)
      ensures r.Some? ==>
        && Within(r.value, next, end) && InBounds(r.value) && r.value.total == total
        && fetched != null && fresh(fetched) && fetched.Valid()
        && fetched.base == next && fetched.pos == 0 && fetched.cap.None?
        && (honest ==> Agrees(blob, fetched, r.value.end - next + 1))
      ensures old(server.count) <= server.count
      ensures r.None? && !ctx.done ==>
        server.count > old(server.count) && !IsPart(server.reply(server.count - 1), next, end, total)
      ensures r.Some? ==> server.count > 0 && var reply := server.reply(server.count - 1);
        reply.Response? && ParseContentRange(reply.contentRange) == r
        && fetched.data == reply.body && fetched.pace == reply.pace && fetched.clean == reply.clean && fetched.calls == 0
      ensures old(Undisturbed()) ==> Undisturbed()
      ensures old(ctx.Calm()) && IsPart(server.reply(old(server.count)), next, end, total) ==>
        r.Some? && server.count == old(server.count) + 1
    {
      hide ParseContentRange, UnsatisfiedRangeTotal, Honest, Agrees, AgreesFrom;
      ghost var first := server.reply(server.count);
      var got := GetAfterAttempts(server, ctx, maxAttempts, true, 0);
      if got.None? || got.value.reply.status != 206 { return None, null; }
      var reply := got.value.reply;
      assert honest ==> Honest(blob, reply);
      var parsed := ParseContentRange(reply.contentRange);
      if parsed.None? || !Within(parsed.value, next, end) || parsed.value.total != total { return None, null; }
      fetched := new Stream(reply.body, reply.clean, next, 0, None, reply.pace);
      if honest { HonestPart(blob, reply, parsed.value, fetched); }
      return parsed, fetched;
    }

    /** The second half of advance: one more partial response, unless Close wins. */
    method Continue() returns (err: ReadError, ghost acts: seq<Act>)
      requires Valid() && !closed && body == null
      requires total >= 0 && remaining == 0 && next <= end && next < total && parts < MAX_PARTS
      modifies this`closed, this`body, this`remaining, this`next, this`parts, this`sections, server, ctx
      ensures Valid() && (body == old(body) || body == null || fresh(body))
      ensures parts <= old(parts) + 1 && server.count <= old(server.count) + Attempts(maxAttempts)
      ensures Spends(old(parts), old(server.count), server.count, err != Success)
      ensures err == Success ==> remaining > 0 && !closed
      ensures err == Success || err == ClosedPipe || err == Ended || err == Failed
      ensures Justified(err) && (err == Failed ==> Stuck(old(server.count)))
      ensures old(OnCourse()) ==> OnCourse() && err == Success
      ensures old(sections) <= sections
      ensures After(old(See(Fetching)), acts) == Some(See(if err == Success then Through else Outside))
    {
      hide IsPart, Agrees, AgreesFrom, After, Lively, ParseContentRange, OnCourse, Undisturbed, Stitches, Valid, Faithful;
      ghost var v := See(Fetching);
      if OnCourse() { NextPartComes(); }
      var r, fetched := FollowUp();
      acts := Interfere(Fetching);
      if r.None? || closed {
        var ended := ctx.Err();
        OneMore(v, acts, RangeRace.Stop);
        acts := acts + [RangeRace.Stop];
        return if closed then ClosedPipe else if ended then Ended else Failed, acts;
      }
      OneMore(v, acts, Install(r.value.end - r.value.start + 1));
      acts := acts + [Install(r.value.end - r.value.start + 1)];
      Adopt(r.value, fetched);
      if old(OnCourse()) { AdoptedOnCourse(); }
      return Success, acts;
    }

    /** installRangeContinuation, unless Close won. */
    method Adopt(part: ContentRange, fetched: Stream)
      requires Valid() && !closed && total >= 0 && remaining == 0 && next <= end && parts < MAX_PARTS
      requires Within(part, next, end) && InBounds(part) && part.total == total
      requires fetched.Valid() && fetched.base == next && fetched.pos == 0 && fetched.cap.None?
      requires honest ==> Agrees(blob, fetched, part.end - next + 1)
      modifies this`body, this`remaining, this`next, this`parts
      ensures Valid() && body == fetched && remaining == part.end - part.start + 1 && next == part.end + 1
      ensures parts == old(parts) + 1 && (old(Undisturbed()) ==> Undisturbed())
    {
      body, remaining, next, parts := fetched, part.end - part.start + 1, part.end + 1, parts + 1;
    }

    lemma AdoptedOnCourse()
      requires Valid() && Undisturbed() && remaining > 0 && body.cap.None? && Lively(body.pace)
      requires |body.data| - body.pos >= remaining
      requires next <= end ==> Stitches(server.reply, server.count, next, end, total, parts)
      ensures OnCourse()
    {}

    /** On course the next reply is the next part, and the ones behind it go on. */
    lemma NextPartComes()
      requires OnCourse() && total >= 0 && next <= end
      ensures Undisturbed() && ctx.Calm()
      ensures var reply := server.reply(server.count);
        && IsPart(reply, next, end, total) && Lively(reply.pace) && parts < 16
        && var parsed := ParseContentRange(reply.contentRange);
           && parsed.Some? && |reply.body| >= parsed.value.end - next + 1
           && (parsed.value.end < end ==>
                 Stitches(server.reply, server.count + 1, parsed.value.end + 1, end, parsed.value.total, parts + 1))
    {
      hide Lively, ParseContentRange;
    }

    /** advance */
    method Advance() returns (err: ReadError, ghost acts: seq<Act>)
      requires Valid()
      modifies this`closed, this`body, this`remaining, this`next, this`parts, this`sections, server, ctx
      ensures Valid() && (body == old(body) || body == null || fresh(body))
      ensures parts <= old(parts) + 1 && server.count <= old(server.count) + Attempts(maxAttempts)
      ensures Spends(old(parts), old(server.count), server.count, err != Success)
      ensures err == Success ==> remaining > 0 && !closed
      ensures err == EndOfRange ==> |delivered| == end - offset + 1
      ensures err != NilReader && Justified(err) && (err == Failed ==> Stuck(old(server.count)))
      ensures old(remaining) > 0 ==>
        (err == Success <==> !old(closed) && !strikes(old(sections)) && !old(ctx.WillBeDone()))
      ensures err == Success && old(remaining) > 0 ==> sections == old(sections) + 1
      ensures old(sections) < sections
      ensures old(closed) ==> err == ClosedPipe
      ensures old(Undisturbed()) && old(remaining) > 0 ==>
        Undisturbed() && body == old(body) && remaining == old(remaining) && err == Success
      ensures old(OnCourse()) ==> OnCourse() && (err == Success || err == EndOfRange)
      ensures After(old(See(Entered)), acts) == Some(See(if err == Success then Through else Outside))
    {
      hide IsPart, Agrees, AgreesFrom, After, Lively, OnCourse, Undisturbed, Stitches, ParseContentRange, Faithful;
      if OnCourse() { CourseIsUndisturbed(); }
      ghost var v := See(Entered);
      acts := Interfere(Entered);
      ghost var more := acts;
      err := Check();
      if err != Success {
        OneMore(v, acts, RangeRace.Stop);
        return err, acts + [RangeRace.Stop];
      }
      if remaining > 0 {
        OneMore(v, acts, Pass);
        return Success, acts + [Pass];
      }
      err, more := Refill();
      Join(v, acts, more);
      acts := acts + more;
    }

    /** The rest of advance, behind a drained part. */
    method Refill() returns (err: ReadError, ghost acts: seq<Act>)
      requires Valid() && !closed && remaining == 0
      modifies this`closed, this`body, this`remaining, this`next, this`parts, this`sections, server, ctx
      ensures Valid() && (body == old(body) || body == null || fresh(body))
      ensures parts <= old(parts) + 1 && server.count <= old(server.count) + Attempts(maxAttempts)
      ensures Spends(old(parts), old(server.count), server.count, err != Success)
      ensures err == Success ==> remaining > 0 && !closed
      ensures err == EndOfRange ==> |delivered| == end - offset + 1
      ensures err != NilReader && Justified(err) && (err == Failed ==> Stuck(old(server.count)))
      ensures old(sections) <= sections
      ensures old(OnCourse()) ==> OnCourse() && (err == Success || err == EndOfRange)
      ensures After(old(See(Entered)), acts) == Some(See(if err == Success then Through else Outside))
    {
      hide IsPart, Agrees, AgreesFrom, After, Lively, OnCourse, Undisturbed, Stitches, ParseContentRange, Faithful;
      if OnCourse() && total >= 0 && next <= end { CourseHasNext(); }
      ghost var v := See(Entered);
      NothingYet(v);
      OneMore(v, [], Drain);
      acts := [] + [Drain];
      Drained();
      if total < 0 || next > end || next >= total || parts == MAX_PARTS {
        OneMore(v, acts, RangeRace.Stop);
        return if total < 0 || next > end then EndOfRange else Failed, acts + [RangeRace.Stop];
      }
      ghost var more;
      err, more := Continue();
      Join(v, acts, more);
      acts := acts + more;
    }

    /** advance gives the drained body up. */
    method Drained()
      requires Valid() && remaining == 0
      modifies this`body
      ensures Valid() && body == null && (old(OnCourse()) ==> OnCourse())
    {
      body := null;
    }

    lemma CourseIsUndisturbed()
      requires OnCourse()
      ensures Undisturbed()
    {}

    /** On course there is a next part, unless the window is at its end. */
    lemma CourseHasNext()
      requires OnCourse() && total >= 0 && next <= end
      ensures parts < MAX_PARTS && next < total
    {
      hide ParseContentRange;
    }

    /** Closed, or the context has ended. */
    method Check() returns (err: ReadError)
      requires Valid()
      modifies ctx
      ensures Valid() && Justified(err) && (err == Success || err == ClosedPipe || err == Ended)
      ensures err == Success <==> !closed && !old(ctx.WillBeDone())
      ensures old(Undisturbed()) ==> Undisturbed() && err == Success
      ensures old(OnCourse()) ==> OnCourse()
      ensures closed ==> err == ClosedPipe
    {
      hide Stitches, Lively, Agrees;
      if closed { return ClosedPipe; }
      var ended := ctx.Err();
      return if ended then Ended else Success;
    }

    /** Reads from the current part, never past it, and counts the bytes. */
    method TakeBytes(p: array<Octet>) returns (n: nat, broke: StreamError)
      requires Valid() && remaining > 0 && body != null
      modifies this`remaining, this`delivered, body, p
      ensures body.calls == old(body.calls) + 1
      ensures Valid() && n <= p.Length && delivered == old(delivered) + p[..n]
      ensures var m := Min(p.Length, old(remaining)); n == old(body.Gives(m)) && broke == old(body.Reports(m))
      ensures remaining == old(remaining) - n && body.pos == old(body.pos) + n
      ensures n == 0 && broke == Fine && p.Length > 0 ==> Stalled()
      ensures broke == Broke || (broke == Eof && remaining > 0) ==> BrokeOff()
    {
      hide Agrees, AgreesFrom;
      if p.Length > 0 { body.NothingMeansStalled(Min(p.Length, remaining)); }
      var stream := body;
      var m := Min(p.Length, remaining);
      ghost var at := stream.pos;
      ghost var upto := stream.pos + remaining;
      n, broke := stream.Read(p, m);
      if honest { DeliveredAgrees(stream, at, upto); }
      remaining, delivered := remaining - n, delivered + p[..n];
    }

    /** What a Read that nobody disturbed makes of the error beside its bytes. */
    function Verdict(broke: StreamError, remaining: nat): ReadError {
      if broke == Broke || (broke == Eof && remaining > 0) then Failed else Success
    }

    /** readCurrent. It reads from the field `reader`, which Close clears, without asking
        whether it is still there. */
    method ReadCurrent(p: array<Octet>) returns (n: nat, err: ReadError, ghost broke: StreamError, ghost acts: seq<Act>)
      requires Valid() && remaining > 0
      modifies this`closed, this`body, this`remaining, this`delivered, this`sections, body, ctx, p
      ensures Valid() && (body == old(body) || body == null)
      ensures n <= p.Length && delivered == old(delivered) + p[..n]
      ensures err == NilReader <==> old(body) == null
      ensures err != EndOfRange && Justified(err) && old(sections) <= sections
      ensures err == NilReader ==> sections == old(sections)
      ensures err == Failed ==> broke == Broke || (broke == Eof && remaining > 0)
      ensures err == Success ==> broke == Fine || (broke == Eof && remaining == 0)
      ensures old(body) != null ==> var m := Min(p.Length, old(remaining));
        n == old(body.Gives(m)) && broke == old(body.Reports(m)) && remaining == old(remaining) - n
      ensures err == Success && n == 0 && broke == Fine && p.Length > 0 ==> Stalled()
      ensures err == Failed ==> BrokeOff()
      ensures old(Undisturbed()) ==> Undisturbed() && body == old(body) && body.pos == old(body.pos) + n && err == Verdict(broke, remaining)
      ensures After(old(See(Through)), acts) == Some(See(if err == NilReader then Crashed else Outside))
    {
      hide Agrees, AgreesFrom, Faithful, After;
      ghost var v := See(Through);
      NothingYet(v);
      OneMore(v, [], Take);
      acts := [] + [Take];
      if body == null { return 0, NilReader, Fine, acts; }
      var failure;
      n, failure := TakeBytes(p);
      OneMore(v, acts, Finish(n));
      acts := acts + [Finish(n)];
      broke := failure;
      assert honest ==> Faithful();
      ghost var more;
      err, more := AfterRead(failure);
      Join(v, acts, more);
      acts := acts + more;
    }

    /** How readCurrent ends after the read. */
    method AfterRead(failure: StreamError) returns (err: ReadError, ghost acts: seq<Act>)
      requires Valid()
      modifies this`closed, this`body, this`sections, ctx
      ensures Valid() && (body == old(body) || body == null) && Justified(err) && old(sections) <= sections
      ensures err != EndOfRange && err != NilReader
      ensures err == Failed ==> failure == Broke || (failure == Eof && remaining > 0)
      ensures err == Success ==> failure == Fine || (failure == Eof && remaining == 0)
      ensures err == Success || err == Failed ==> body == old(body)
      ensures old(Undisturbed()) ==> Undisturbed() && body == old(body) && err == Verdict(failure, remaining)
      ensures After(old(See(Outside)), acts) == Some(See(Outside))
    {
      hide Agrees, AgreesFrom, After;
      acts := Interfere(Outside);
      err := Check();
      if err != Success { return err, acts; }
      if failure == Broke || (failure == Eof && remaining > 0) { return Failed, acts; }
      return Success, acts;
    }

    lemma DeliveredAgrees(s: Stream, from: nat, upto: nat)
      requires Agrees(blob, s, upto) && from <= s.pos <= upto && s.Valid() && s.base + s.pos <= |blob|
      ensures s.data[from..s.pos] == blob[s.base + from..s.base + s.pos]
    {
      AgreeingBytes(blob, s, upto, from, s.pos);
    }

    /** What is left of a Read that advance let through. */
    method GoOn(p: array<Octet>) returns (n: nat, err: ReadError, ghost acts: seq<Act>)
      requires Valid() && remaining > 0 && !closed
      modifies this`closed, this`body, this`remaining, this`delivered, this`sections, body, ctx, p
      ensures Valid() && (body == old(body) || body == null)
      ensures n <= p.Length && delivered == old(delivered) + p[..n]
      ensures err != EndOfRange && Justified(err)
      ensures err == NilReader <==> strikes(old(sections))
      ensures err == NilReader ==> sections == old(sections) + 1
      ensures err == Success && n == 0 && p.Length > 0 ==> Stalled()
      ensures err == Failed ==> BrokeOff()
      ensures old(Undisturbed()) ==> Undisturbed() && var m := Min(p.Length, old(remaining));
        n == old(body.Gives(m)) && remaining == old(remaining) - n && err == Verdict(old(body.Reports(m)), remaining)
      ensures old(OnCourse()) && p.Length > 0 ==> OnCourse() && n > 0 && err == Success
      ensures After(old(See(Through)), acts) == Some(See(if err == NilReader then Crashed else Outside))
    {
      hide After, Agrees, AgreesFrom, Faithful, Stitches, Lively;
      ghost var v := See(Through);
      if OnCourse() && p.Length > 0 { CourseGives(Min(p.Length, remaining)); }
      acts := Interfere(Through);
      ghost var more;
      ghost var broke;
      n, err, broke, more := ReadCurrent(p);
      Join(v, acts, more);
      acts := acts + more;
    }

    /** On course a read gives a byte, and its end is that of the part. */
    lemma CourseGives(m: nat)
      requires OnCourse() && 0 < m <= remaining
      ensures body.Gives(m) > 0 && Verdict(body.Reports(m), remaining - body.Gives(m)) == Success
    {
      hide Stitches, Agrees, AgreesFrom;
      body.LivelyGoesOn(m);
    }

    /** Read. The window's bytes come in order and never more of them than asked for; the
        end is reported only after the last one. `acts` are the sections that ran, its own
        and Close's: they tell exactly when it calls a nil reader. The source's loop never
        turns twice: advance leaves bytes to read, and an empty read does not drain them. */
    method Read(p: array<Octet>) returns (n: nat, err: ReadError, ghost acts: seq<Act>)
      requires Valid()
      modifies this`closed, this`body, this`remaining, this`next, this`parts, this`delivered, this`sections
      modifies body, server, ctx, p
      ensures Valid() && (body == old(body) || body == null || fresh(body))
      ensures n <= p.Length && delivered == old(delivered) + p[..n] && |delivered| <= end - offset + 1
      ensures parts <= old(parts) + 1 && server.count <= old(server.count) + Attempts(maxAttempts)
      ensures Spends(old(parts), old(server.count), server.count, err != Success)
      ensures err == EndOfRange ==> |delivered| == end - offset + 1
      ensures Justified(err)
      ensures After(old(See(Outside)), acts) == Some(See(if err == NilReader then Crashed else Outside))
      ensures err == NilReader <==> ClosedInTheGap(acts)
      ensures err == NilReader ==> old(sections) < sections && strikes(sections - 1)
      ensures p.Length > 0 && old(remaining) > 0 ==>
        (err == NilReader <==> !old(closed) && !strikes(old(sections)) && !old(ctx.WillBeDone())
                               && strikes(old(sections) + 1))
      ensures old(closed) ==> n == 0 && err == ClosedPipe
      ensures p.Length > 0 && err == Success && n == 0 ==> Stalled()
      ensures err == Failed ==> BrokeOff() || Stuck(old(server.count))
      ensures old(Undisturbed()) && p.Length > 0 && old(remaining) > 0 ==>
        var m := Min(p.Length, old(remaining));
        n == old(body.Gives(m)) && err == Verdict(old(body.Reports(m)), old(remaining) - n)
      ensures old(OnCourse()) ==> OnCourse() && (p.Length > 0 ==> err == EndOfRange || (err == Success && n > 0))
    {
      hide After, Faithful, ClosedInTheGap, Stuck, OnCourse, Undisturbed, Stalled, Verdict, Justified, Valid, BrokeOff, Sane;
      ghost var v := See(Outside);
      LooksSane();
      if p.Length == 0 {
        acts := Interfere(Outside);
        CrashesExactlyInTheGap(v, acts);
        err := Check();
        LooksSane();
        return 0, err, acts;
      }
      NothingYet(v);
      OneMore(v, [], Call);
      acts := [] + [Call];
      ghost var more;
      err, more := Advance();
      Join(v, acts, more);
      acts := acts + more;
      if err != Success {
        CrashesExactlyInTheGap(v, acts);
        LooksSane();
        return 0, err, acts;
      }
      n, err, more := GoOn(p);
      Join(v, acts, more);
      acts := acts + more;
      CrashesExactlyInTheGap(v, acts);
      LooksSane();
    }

    lemma LooksSane()
      requires Valid()
      ensures Sane(See(Outside)) && |delivered| <= end - offset + 1
      ensures Undisturbed() && remaining > 0 ==> body != null && body.Valid()
    {
      hide Faithful;
    }

    lemma NothingYet(v: View)
      ensures After(v, []) == Some(v)
    {}
  }

  /** A Read that crashes: one byte is left to read, and Close runs between the first and
      the second section. */
  method CloseInTheGap() returns (err: ReadError)
    ensures err == NilReader
  {
    var server := new Server(k => Broken(false));
    var ctx := new Context(k => false);
    var stream := new Stream([7], true, 0, 0, None, NO_BODY);
    var r := new RangeReader.OverPart(server, ctx, 1, k => k == 1, stream, ContentRange(0, 0, 1), 0, [], false);
    var p := new Octet[1];
    var n;
    ghost var acts;
    n, err, acts := r.Read(p);
  }

  // ---------------------------------------------------------------- opening the window

  /** A ranged reader just opened over the window [offset, end]. */
  ghost predicate Serves(r: RangeReader, server: Server, offset: nat, end: nat, blob: seq<Octet>, honest: bool)
    reads r, r.body, r.server
  {
    && r.Valid() && !r.closed && r.delivered == [] && r.offset == offset && r.end == end
    && r.server == server && r.blob == blob && r.honest == honest
  }

  /** Whether the window's last byte has an int64 position; Go's own test, free of overflow. */
  predicate WindowFits(offset: int, length: int) {
    offset >= 0 && length > 0 && !(length - 1 > MAX_INT64 - offset)
  }

  /** The registry brings the window in whole parts, or a full response that covers it. */
  ghost predicate Serviceable(reply: nat -> Reply, k: nat, offset: nat, end: nat) {
    Stitches(reply, k, offset, end, -1, 0) || Covers(reply(k), end)
  }

  lemma FirstIsUsable(reply: nat -> Reply, k: nat, offset: nat, end: nat)
    requires Serviceable(reply, k, offset, end) && offset <= end
    ensures Usable(reply(k), true) && !WorthRetry(reply(k)) && Lively(reply(k).pace)
    ensures reply(k).status == 206 ==>
      && IsPart(reply(k), offset, end, -1)
      && var parsed := ParseContentRange(reply(k).contentRange).value;
         && |reply(k).body| >= parsed.end - offset + 1
         && (parsed.end < end ==> Stitches(reply, k + 1, parsed.end + 1, end, parsed.total, 1))
    ensures reply(k).status == 200 ==> |reply(k).body| > end
  {
    hide ParseContentRange;
  }

  /** A reader just opened is on course. */
  lemma OpensOnCourse(r: RangeReader)
    requires r.Valid() && r.Undisturbed() && r.remaining > 0 && r.body.cap.None? && Lively(r.body.pace)
    requires |r.body.data| - r.body.pos >= r.remaining
    requires r.total >= 0 && r.next <= r.end ==> Stitches(r.server.reply, r.server.count, r.next, r.end, r.total, r.parts)
    ensures r.OnCourse()
  {}

  /** The reader over a partial response that begins the window. */
  method OpenPart(server: Server, ctx: Context, maxAttempts: int, strikes: nat -> bool, reply: Reply,
                  offset: nat, end: nat, ghost blob: seq<Octet>, ghost honest: bool)
    returns (r: RangeReader?)
    requires reply.Response? && reply.status == 206 && offset <= end
    requires honest ==> server.HonestAbout(blob) && Honest(blob, reply)
    ensures r == null <==> !IsPart(reply, offset, end, -1)
    ensures r != null ==>
      && fresh(r) && r.body != null && fresh(r.body) && r.ctx == ctx && r.maxAttempts == maxAttempts
      && r.strikes == strikes && r.sections == 0 && r.parts <= 1
      && Serves(r, server, offset, end, blob, honest) && (honest ==> offset < |blob|)
    ensures ctx.Calm() && (forall k: nat :: !strikes(k)) && Lively(reply.pace) && r != null ==>
      var parsed := ParseContentRange(reply.contentRange).value;
      |reply.body| >= parsed.end - offset + 1
      && (parsed.end < end ==> Stitches(server.reply, server.count, parsed.end + 1, end, parsed.total, 1))
      ==> r.OnCourse()
  {
    hide ParseContentRange, UnsatisfiedRangeTotal, Lively, RangeReader.OnCourse, Stitches, Honest, Agrees, AgreesFrom;
    var parsed := ParseContentRange(reply.contentRange);
    if parsed.None? || !Within(parsed.value, offset, end) { return null; }
    var part := new Stream(reply.body, reply.clean, offset, 0, None, reply.pace);
    if honest { HonestPart(blob, reply, parsed.value, part); }
    r := new RangeReader.OverPart(server, ctx, maxAttempts, strikes, part, parsed.value, end, blob, honest);
    if r.Undisturbed() && Lively(reply.pace) && |reply.body| >= parsed.value.end - offset + 1
       && (parsed.value.end < end ==>
             Stitches(server.reply, server.count, parsed.value.end + 1, end, parsed.value.total, 1)) {
      OpensOnCourse(r);
    }
  }

  /** The reader over a full response, which has been read up to the window. */
  method OpenWhole(server: Server, ctx: Context, maxAttempts: int, strikes: nat -> bool, reply: Reply,
                   offset: nat, end: nat, ghost blob: seq<Octet>, ghost honest: bool)
    returns (r: RangeReader)
    requires reply.Response? && reply.status == 200 && offset <= end && |reply.body| > offset
    requires honest ==> server.HonestAbout(blob) && Honest(blob, reply)
    ensures fresh(r) && r.body != null && fresh(r.body) && r.ctx == ctx && r.maxAttempts == maxAttempts
    ensures r.strikes == strikes && r.sections == 0 && r.parts <= 1
    ensures Serves(r, server, offset, end, blob, honest) && (honest ==> offset < |blob|)
    ensures ctx.Calm() && (forall k: nat :: !strikes(k)) && Covers(reply, end) ==> r.OnCourse()
  {
    hide Lively, RangeReader.OnCourse, Honest;
    if honest { HonestWhole(blob, reply); }
    var whole := new Stream(reply.body, reply.clean, 0, offset, None, reply.pace);
    r := new RangeReader.OverWhole(server, ctx, maxAttempts, strikes, whole, offset, end, blob, honest);
    if r.Undisturbed() && Covers(reply, end) { OpensOnCourse(r); }
  }

  /** PullRange */
  method Open(server: Server, ctx: Context, maxAttempts: int, strikes: nat -> bool, offset: int, length: int,
              ghost blob: seq<Octet>, ghost honest: bool)
    returns (r: RangeReader?)
    requires honest ==> server.HonestAbout(blob)
    modifies server, ctx
    ensures server.count <= old(server.count) + Attempts(maxAttempts)
    ensures !WindowFits(offset, length) ==> r == null && server.count == old(server.count)
    ensures r != null ==>
      && fresh(r) && r.body != null && fresh(r.body) && r.ctx == ctx && r.maxAttempts == maxAttempts
      && r.strikes == strikes && r.sections == 0 && r.parts <= 1
      && offset + length - 1 <= MAX_INT64
      && Serves(r, server, offset, offset + length - 1, blob, honest)
      && (honest ==> offset < |blob|)
    ensures r == null && WindowFits(offset, length) && !ctx.done ==>
      && server.count > old(server.count)
      && !IsPart(server.reply(server.count - 1), offset, offset + length - 1, -1)
      && !(server.reply(server.count - 1).Response? && server.reply(server.count - 1).status == 200
           && |server.reply(server.count - 1).body| > offset)
    ensures old(ctx.Calm()) && (forall k: nat :: !strikes(k)) && WindowFits(offset, length)
            && Serviceable(server.reply, old(server.count), offset, offset + length - 1)
            ==> r != null && r.OnCourse()
  {
    hide ParseContentRange, UnsatisfiedRangeTotal, Lively, RangeReader.OnCourse, Stitches, Honest, Agrees, AgreesFrom;
    if offset < 0 || length <= 0 || length - 1 > MAX_INT64 - offset { return null; }
    var end := offset + length - 1;
    ghost var good := ctx.Calm() && (forall k: nat :: !strikes(k)) && Serviceable(server.reply, server.count, offset, end);
    if good { FirstIsUsable(server.reply, server.count, offset, end); }
    var got := GetAfterAttempts(server, ctx, maxAttempts, true, 0);
    if got.None? { return null; }
    var reply := got.value.reply;
    assert honest ==> Honest(blob, reply);
    if reply.status == 206 {
      r := OpenPart(server, ctx, maxAttempts, strikes, reply, offset, end, blob, honest);
      return r;
    }
    if |reply.body| <= offset { return null; }         // CopyN and Peek need a byte more
    var ended := ctx.Err();
    if ended { return null; }
    r := OpenWhole(server, ctx, maxAttempts, strikes, reply, offset, end, blob, honest);
  }

  /** One more part costs at most one more budget, and there are at most sixteen. */
  lemma MoreParts(parts: nat, maxAttempts: int)
    requires parts <= MAX_PARTS
    ensures var a := Attempts(maxAttempts);
      && Max(parts - 1, 0) * a <= (MAX_PARTS - 1) * a
      && (1 <= parts < MAX_PARTS ==> parts * a == (parts - 1) * a + a && parts * a <= (MAX_PARTS - 1) * a)
  {
    var a := Attempts(maxAttempts);
    var b := Max(parts - 1, 0);
    assert (MAX_PARTS - 1) * a == b * a + (MAX_PARTS - 1 - b) * a;
    if 1 <= parts < MAX_PARTS {
      assert (MAX_PARTS - 1) * a == parts * a + (MAX_PARTS - 1 - parts) * a;
      assert parts * a == (parts - 1) * a + a;
    }
  }

  /** A caller that reads a window with buffers of the given sizes: whatever the
      registry answers it gets at most `length` bytes, over at most sixteen partial
      responses; over an honest registry they are the blob's from `offset` on; and the
      end is reported only after all of them. If nobody interferes, and the registry
      brings the window in at most sixteen whole parts or in one full response, the pull
      ends with all of it. */
  method PullWindow(server: Server, ctx: Context, maxAttempts: int, strikes: nat -> bool, offset: int, length: int,
                    sizes: seq<nat>, ghost blob: seq<Octet>, ghost honest: bool)
    returns (got: seq<Octet>, err: ReadError)
    requires honest ==> server.HonestAbout(blob)
    modifies server, ctx
    ensures got != [] || err == EndOfRange ==> offset >= 0 && |got| <= length
    ensures err == EndOfRange ==> |got| == length
    ensures honest && got != [] ==> offset + |got| <= |blob| && got == blob[offset..offset + |got|]
    ensures err == NilReader ==> exists k :: strikes(k)
    ensures server.count <= old(server.count) + 16 * Attempts(maxAttempts)
    ensures old(ctx.Calm()) && (forall k: nat :: !strikes(k)) && WindowFits(offset, length) && Enough(sizes, length)
            && Serviceable(server.reply, old(server.count), offset, offset + length - 1)
            ==> err == EndOfRange && |got| == length
  {
    hide RangeReader.OnCourse, Serviceable, Enough;
    var r := Open(server, ctx, maxAttempts, strikes, offset, length, blob, honest);
    if r == null { return [], Failed; }
    got, err := ReadToEnd(r, sizes);
    hide Agrees, AgreesFrom, IsPart;
  }

  /** Reads with buffers of the given sizes until Read reports an error. */
  method ReadToEnd(r: RangeReader, sizes: seq<nat>) returns (got: seq<Octet>, err: ReadError)
    requires r.Valid() && r.delivered == [] && r.parts <= 1
    modifies r, r.body, r.server, r.ctx
    ensures r.Valid() && got == r.delivered && |got| <= r.end - r.offset + 1
    ensures err == EndOfRange ==> |got| == r.end - r.offset + 1
    ensures err == NilReader ==> exists k :: r.strikes(k)
    ensures r.server.count <= old(r.server.count) + (MAX_PARTS - 1) * Attempts(r.maxAttempts)
    ensures old(r.OnCourse()) && Enough(sizes, r.end - r.offset + 1) ==> err == EndOfRange
  {
    hide Agrees, AgreesFrom, IsPart, RangeReader.OnCourse;
    got, err := [], Success;
    var k := 0;
    while k < |sizes|
      invariant 0 <= k <= |sizes|
      invariant r.Valid() && got == r.delivered && err == Success && |got| <= r.end - r.offset + 1
      invariant r.body == old(r.body) || r.body == null || fresh(r.body)
      invariant r.server.count <= old(r.server.count) + Max(r.parts - 1, 0) * Attempts(r.maxAttempts)
      invariant old(r.OnCourse()) ==> r.OnCourse() && (Enough(sizes, r.end - r.offset + 1) ==> k <= |got|)
    {
      ghost var parts := r.parts;
      MoreParts(parts, r.maxAttempts);
      var p := new Octet[sizes[k]];
      ghost var acts;
      var n;
      n, err, acts := r.Read(p);
      got := got + p[..n];
      k := k + 1;
      if err != Success { break; }
    }
    MoreParts(r.parts, r.maxAttempts);
  }
}
