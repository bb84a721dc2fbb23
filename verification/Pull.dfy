/** The three ways a whole-blob pull gets its stream, and the one request budget
    that the opening and every later reconnection share. */
module Pull {
  import opened Basics
  import opened Wire
  import opened Registry
  import opened Requests
  import opened Resume

  /** parallelPull's outcome: a resumable single stream, or the probe of a ranged pull. */
  datatype Opening =
    | NoStream
    | Single(reader: ResumeReader)
    | Ranged(probe: Reply, parsed: ContentRange, attempts: nat)

  /** A stream just opened: nothing read, and its budget counts every request since `origin`. */
  ghost predicate Started(r: ResumeReader, server: Server, maxAttempts: int, origin: nat, blob: seq<Octet>, honest: bool)
    reads r, r.body, r.server
  {
    && r.Valid() && r.delivered == [] && !r.closed
    && r.server == server && r.maxAttempts == maxAttempts && r.origin == origin
    && r.blob == blob && r.honest == honest
  }

  /** The first reply that is not worth a retry brings the blob, or a head of it and hope. */
  lemma FirstWhole(reply: nat -> Reply, from: nat, count: nat, goal: nat, limit: nat)
    requires ComesThrough(reply, from, goal, 0) && goal < from + limit && from < count <= from + limit
    requires forall k :: from <= k < count - 1 ==> WorthRetry(reply(k))
    requires WorthRetry(reply(count - 1)) ==> count == from + limit
    ensures count - 1 <= goal && IsWhole(reply(count - 1)) && Follows(reply, count, goal)
  {
    hide Lively;
    assert !WorthRetry(reply(goal));
    if count - 1 < goal { StillComesThrough(reply, from, count - 1, goal, 0); }
  }

  /** The reply just received has all of the blob, or those behind it go on. */
  ghost predicate Follows(reply: nat -> Reply, count: nat, goal: nat) {
    && count > 0 && reply(count - 1).Response?
    && (reply(count - 1).clean || ComesThrough(reply, count, goal, |reply(count - 1).body|))
  }

  /** The resumable stream over a 200 reply. */
  method OverReply(server: Server, ctx: Context, maxAttempts: int, contested: bool, o: Opened,
                   ghost origin: nat, ghost blob: seq<Octet>, ghost honest: bool, ghost goal: nat)
    returns (r: ResumeReader)
    requires o.reply.Response? && o.reply.status == 200
    requires origin <= server.count <= origin + o.attempts && o.attempts <= Attempts(maxAttempts)
    requires honest ==> server.HonestAbout(blob) && Honest(blob, o.reply)
    ensures fresh(r) && fresh(r.body) && Started(r, server, maxAttempts, origin, blob, honest) && r.ctx == ctx
    ensures MadeOf(r.body, o.reply, 0)
    ensures honest && !contested && ctx.Calm() && 0 < o.attempts == server.count - origin && goal < origin + Attempts(maxAttempts)
            && o.reply == server.reply(server.count - 1) && IsWhole(o.reply) && Follows(server.reply, server.count, goal)
            ==> r.OnCourse()
  {
    hide ParseContentRange, UnsatisfiedRangeTotal, ComesThrough, Lively, Honest;
    var stream := new Stream(o.reply.body, o.reply.clean, 0, 0, None, o.reply.pace);
    if honest { TruthfulWhole(blob, o.reply, stream); }
    r := new ResumeReader(server, ctx, maxAttempts, contested, stream, o.attempts, origin, blob, honest, goal);
  }

  /** Pull without workers, and singleStreamAfterAttempts: a GET within what `spent`
      earlier requests left of the budget. */
  method OpenSingle(server: Server, ctx: Context, maxAttempts: int, contested: bool, spent: nat,
                    ghost blob: seq<Octet>, ghost honest: bool, ghost goal: nat)
    returns (r: ResumeReader?)
    requires spent <= server.count && spent <= Attempts(maxAttempts)
    requires honest ==> server.HonestAbout(blob)
    modifies server, ctx
    ensures old(server.count) <= server.count <= old(server.count) - spent + Attempts(maxAttempts)
    ensures r != null ==> fresh(r) && fresh(r.body) && r.ctx == ctx
    ensures r != null ==> Started(r, server, maxAttempts, old(server.count) - spent, blob, honest)
    ensures r != null ==> server.count > 0 && MadeOf(r.body, server.reply(server.count - 1), 0)
    ensures r == null && !ctx.done && spent < Attempts(maxAttempts) ==>
      server.count > old(server.count) && !Usable(server.reply(server.count - 1), false)
    ensures honest && !contested && old(ctx.Calm()) && goal < old(server.count) - spent + Attempts(maxAttempts)
            && ComesThrough(server.reply, old(server.count), goal, 0)
            ==> r != null && r.OnCourse()
  {
    hide ComesThrough, Honest, ResumeReader.OnCourse, IsWhole;
    ghost var origin := server.count - spent;
    var got := GetAfterAttempts(server, ctx, maxAttempts, false, spent);
    if old(ctx.Calm()) && goal < old(server.count) - spent + Attempts(maxAttempts)
       && ComesThrough(server.reply, old(server.count), goal, 0) {
      GoalIsUsable(server.reply, old(server.count), goal);
      FirstWhole(server.reply, old(server.count), server.count, goal, Attempts(maxAttempts) - spent);
      WholeIsUsable(server.reply(server.count - 1));
    }
    if got.None? { return null; }
    assert honest ==> Honest(blob, server.reply(server.count - 1));
    r := OverReply(server, ctx, maxAttempts, contested, got.value, origin, blob, honest, goal);
  }

  /** A partial response to the probe for the first `chunk` bytes. */
  predicate FirstPart(r: Reply, chunk: nat) {
    && r.Response? && r.status == 206
    && var parsed := ParseContentRange(r.contentRange);
       parsed.Some? && parsed.value.start == 0 && parsed.value.end < chunk
  }

  /** The registry says that the blob has no bytes at all. */
  predicate ProvesEmpty(r: Reply) {
    r.Response? && r.status == 416 && UnsatisfiedRangeTotal(r.contentRange) == Some(0)
  }

  /** parallelPull up to the start of the dispatcher, and the probe's reply. */
  method OpenParallel(server: Server, ctx: Context, maxAttempts: int, contested: bool, chunk: nat,
                      ghost blob: seq<Octet>, ghost honest: bool, ghost goal: nat)
    returns (o: Opening, ghost probe: Option<Reply>)
    requires honest ==> server.HonestAbout(blob)
    modifies server, ctx
    ensures old(server.count) <= server.count <= old(server.count) + Attempts(maxAttempts)
    ensures o.Single? ==>
      && fresh(o.reader) && fresh(o.reader.body) && o.reader.ctx == ctx
      && Started(o.reader, server, maxAttempts, old(server.count), blob, honest)
    ensures o.Ranged? ==>
      && o.attempts == server.count - old(server.count) && o.probe.Response?
      && o.parsed.start == 0 && o.parsed.end < chunk && InBounds(o.parsed)
      && (honest ==> o.parsed.total == |blob| && AgreesFrom(blob, 0, o.probe.body, o.parsed.end + 1))
    ensures probe.None? ==> o.NoStream? && (ctx.done || GaveUp(server, old(server.count), Attempts(maxAttempts)))
    ensures probe.Some? ==>
      && (o.Ranged? <==> FirstPart(probe.value, chunk)) && (o.Ranged? ==> o.probe == probe.value)
      && (Usable(probe.value, false) || ProvesEmpty(probe.value) ==> o.Single?)
      && (o.Single? ==> probe.value.Response? && (probe.value.status == 200 || probe.value.status == 416))
      && (Usable(probe.value, false) ==> MadeOf(o.reader.body, probe.value, 0))
      && (ProvesEmpty(probe.value) ==> o.reader.body.data == [] && o.reader.body.clean && o.reader.body.pace == NO_BODY)
    ensures honest && !contested && old(ctx.Calm()) && goal < old(server.count) + Attempts(maxAttempts)
            && ComesThrough(server.reply, old(server.count), goal, 0)
            ==> o.Single? && o.reader.OnCourse()
  {
    hide ParseContentRange, UnsatisfiedRangeTotal, Started, Truthful, ComesThrough, ResumeReader.OnCourse, IsWhole;
    ghost var origin := server.count;
    var got := ParallelProbe(server, ctx, maxAttempts);
    if old(ctx.Calm()) && goal < old(server.count) + Attempts(maxAttempts)
       && ComesThrough(server.reply, old(server.count), goal, 0) {
      FirstWhole(server.reply, old(server.count), server.count, goal, Attempts(maxAttempts));
      WholeIsUsable(server.reply(server.count - 1));
    }
    if got.None? { return NoStream, None; }
    var reply, attempts := got.value.reply, got.value.attempts;
    probe := Some(reply);
    assert honest ==> Honest(blob, reply);
    if reply.status == 416 {
      var total := UnsatisfiedRangeTotal(reply.contentRange);
      if total == Some(0) {
        if honest { TruthfulEnd(blob, reply); }
        var r := OverNothing(server, ctx, maxAttempts, contested, attempts, origin, blob, honest, goal);
        return Single(r), probe;
      }
      var r := OpenSingle(server, ctx, maxAttempts, contested, attempts, blob, honest, goal);
      return if r == null then NoStream else Single(r), probe;
    }
    if reply.status == 200 {
      var r := OverReply(server, ctx, maxAttempts, contested, got.value, origin, blob, honest, goal);
      return Single(r), probe;
    }
    if reply.status != 206 { return NoStream, probe; }
    var parsed := ParseContentRange(reply.contentRange);
    if parsed.None? || parsed.value.start != 0 || parsed.value.end >= chunk { return NoStream, probe; }
    return Ranged(reply, parsed.value, attempts), probe;
  }

  /** A 416 whose total is zero proves an empty blob: an empty body stands for it. */
  method OverNothing(server: Server, ctx: Context, maxAttempts: int, contested: bool, attempts: nat,
                     ghost origin: nat, ghost blob: seq<Octet>, ghost honest: bool, ghost goal: nat)
    returns (r: ResumeReader)
    requires origin <= server.count <= origin + attempts && attempts <= Attempts(maxAttempts)
    requires honest ==> server.HonestAbout(blob) && blob == []
    ensures fresh(r) && fresh(r.body) && Started(r, server, maxAttempts, origin, blob, honest) && r.ctx == ctx
    ensures r.body.data == [] && r.body.clean && r.body.pace == NO_BODY
  {
    var stream := new Stream([], true, 0, 0, None, NO_BODY);
    r := new ResumeReader(server, ctx, maxAttempts, contested, stream, attempts, origin, blob, honest, goal);
  }

  /** A caller that reads with buffers of the given sizes until Read reports an error,
      or gives up after the last of them. */
  method ReadToEnd(r: ResumeReader, sizes: seq<nat>) returns (got: seq<Octet>, err: ReadError)
    requires r.Valid() && r.delivered == []
    modifies r, r.body, r.ctx, r.server
    ensures r.Valid() && got == r.delivered
    ensures r.honest ==> got <= r.blob
    ensures r.honest && err == EndOfBlob ==> got == r.blob
    ensures old(r.OnCourse()) && Enough(sizes, |r.blob|) ==> err == EndOfBlob
  {
    hide ResumeReader.OnCourse;
    if r.OnCourse() { CourseIsHonest(r); }
    got, err := [], Success;
    var k := 0;
    while k < |sizes|
      invariant r.Valid() && got == r.delivered && 0 <= k <= |sizes|
      invariant err == Success
      invariant r.body == old(r.body) || r.body == null || fresh(r.body)
      invariant old(r.OnCourse()) ==> r.OnCourse() && (Enough(sizes, |r.blob|) ==> k <= |got|)
    {
      var p := new Octet[sizes[k]];
      var n;
      n, err := r.Read(p);
      got := got + p[..n];
      k := k + 1;
      if err != Success { break; }
    }
  }

  lemma CourseIsHonest(r: ResumeReader)
    requires r.OnCourse()
    ensures r.honest
  {}

  lemma WholeIsUsable(reply: Reply)
    requires IsWhole(reply)
    ensures Usable(reply, false) && !WorthRetry(reply)
  {}

  lemma GoalIsUsable(reply: nat -> Reply, from: nat, goal: nat)
    requires ComesThrough(reply, from, goal, 0)
    ensures from <= goal
  {}

  /** A whole pull over a single stream, whatever the registry answers, wherever bodies
      break and whenever the caller gives up: at most max(MaxAttempts, 1) requests are
      sent; the bytes are the head of the blob, and all of it if the end is reported. If
      nobody interferes and some reply within the budget brings all of the blob, the ones
      before it being worth a retry or bringing a head of it never shorter than earlier
      ones, the pull ends with all of the blob. */
  method PullWhole(server: Server, ctx: Context, maxAttempts: int, contested: bool, parallel: bool, chunk: nat,
                   sizes: seq<nat>, ghost blob: seq<Octet>, ghost honest: bool, ghost goal: nat)
    returns (got: seq<Octet>, err: ReadError)
    requires honest ==> server.HonestAbout(blob)
    modifies server, ctx
    ensures server.count <= old(server.count) + Attempts(maxAttempts)
    ensures honest ==> got <= blob && (err == EndOfBlob ==> got == blob)
    ensures honest && !contested && old(ctx.Calm()) && Enough(sizes, |blob|)
            && goal < old(server.count) + Attempts(maxAttempts) && ComesThrough(server.reply, old(server.count), goal, 0)
            ==> err == EndOfBlob && got == blob
  {
    hide ComesThrough, ResumeReader.OnCourse, Enough;
    var r: ResumeReader?;
    if parallel {
      var o;
      ghost var probe;
      o, probe := OpenParallel(server, ctx, maxAttempts, contested, chunk, blob, honest, goal);
      if !o.Single? { return [], Failed; }
      r := o.reader;
    } else {
      r := OpenSingle(server, ctx, maxAttempts, contested, 0, blob, honest, goal);
      if r == null { return [], Failed; }
    }
    got, err := ReadToEnd(r, sizes);
  }
}
