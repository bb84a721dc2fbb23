/** Fetching one chunk of a parallel pull: short partial responses are continued,
    broken ones are rolled back to the bytes of earlier parts and retried. */
module ChunkFetch {
  import opened Basics
  import opened Wire
  import opened Registry
  import opened Buffers
  import opened Bodies

  /** maxRangeParts */
  const MAX_PARTS := 16

  datatype Part = Fetched(next: nat) | Failed(retryable: bool)

  /** Appends the first `length` bytes of a response body, all or nothing: after a
      break only the bytes of earlier parts stay, also when they had been moved. */
  method ReadPart(data: Slice, body: seq<Octet>, length: nat) returns (out: Slice, ok: bool)
    requires Valid(data) && length <= MAX_INT
    modifies data.store
    ensures Valid(out) && (out.store == data.store || fresh(out.store)) && data.store.Length <= out.store.Length
    ensures !ok ==> Contents(out) == old(Contents(data))
    ensures ok ==> length <= |body| && Contents(out) == old(Contents(data)) + body[..length]
    ensures data.len + length <= MAX_INT ==> (ok <==> length <= |body|)
  {
    var stream := new Body(body);
    ghost var before := Contents(data);
    var grown, full, copied := AppendExactly(data, stream, length);
    if full {
      assert body[0..length] == body[..length];
      return grown, true;
    }
    out := Slice(grown.store, data.len);
    assert Contents(out) == Contents(grown)[..data.len];
    return out, false;
  }

  /** The interval a partial response must report for a request of [start, end]. */
  predicate Fits(parsed: ContentRange, start: nat, end: nat, total: nat) {
    parsed.start == start && parsed.end <= end && parsed.total == total
  }

  /** An honest partial response agrees with the blob inside its interval. */
  lemma HonestPart(blob: seq<Octet>, r: Reply, parsed: ContentRange)
    requires Honest(blob, r) && r.Response? && r.status == 206 && ParseContentRange(r.contentRange) == Some(parsed)
    ensures parsed.total == |blob| && AgreesFrom(blob, parsed.start, r.body, parsed.end - parsed.start + 1)
  {
    hide ParseContentRange, UnsatisfiedRangeTotal;
  }

  /** What one reply to a request for [start, end] comes to: the next byte to ask for,
      or a failure and whether another attempt may help. */
  function Judge(reply: Reply, start: nat, end: nat, total: nat): Part {
    match reply
    case Broken(retryable) => Failed(retryable)
    case Response(status, header, body, _, _) =>
      if status != 206 then Failed(!(200 <= status < 300) && RetryableStatus(status))
      else
        var parsed := ParseContentRange(header);
        if parsed.None? || !Fits(parsed.value, start, end, total) then Failed(false)
        else if |body| < parsed.value.end - parsed.value.start + 1 then Failed(true)
        else Fetched(parsed.value.end + 1)
  }

  /** The header of a partial response is a text of [start, e] out of `total`, for some e
      up to `end`. */
  ghost predicate Reports(header: string, start: nat, e: nat, total: nat) { Denotes(header, ContentRange(start, e, total)) }

  /** What a reply to a request for [start, end] deserves, said without reading it: a
      partial response that reports a head of the interval is a part if it brings all of
      that, and worth another attempt if it breaks; one that reports anything else is
      final. So is any other status but 429 and the server errors. */
  ghost predicate Deserves(reply: Reply, part: Part, start: nat, end: nat, total: nat) {
    match reply
    case Broken(retryable) => part == Failed(retryable)
    case Response(status, header, body, _, _) =>
      && (status != 206 ==> part == Failed(status == 429 || 500 <= status <= 599))
      && (status == 206 ==> forall e :: start <= e <= end && Reports(header, start, e, total) ==>
            part == if |body| >= e - start + 1 then Fetched(e + 1) else Failed(true))
      && (status == 206 && (forall e :: start <= e <= end ==> !Reports(header, start, e, total)) ==>
            part == Failed(false))
  }

  lemma JudgeIsDeserved(reply: Reply, start: nat, end: nat, total: nat)
    requires start <= end < total <= MAX_INT64
    ensures Deserves(reply, Judge(reply, start, end, total), start, end, total)
  {
    if reply.Response? && reply.status == 206 {
      JudgePart(reply, start, end, total);
    }
  }

  lemma JudgePart(reply: Reply, start: nat, end: nat, total: nat)
    requires start <= end < total <= MAX_INT64 && reply.Response? && reply.status == 206
    ensures Deserves(reply, Judge(reply, start, end, total), start, end, total)
  {
    hide ParseContentRange, Denotes;
    var parsed := ParseContentRange(reply.contentRange);
    forall e | start <= e <= end
      ensures Reports(reply.contentRange, start, e, total) <==> parsed == Some(ContentRange(start, e, total))
    {
      ParseContentRangeIsExact(reply.contentRange, ContentRange(start, e, total));
    }
    if parsed.Some? && Fits(parsed.value, start, end, total) {
      assert Reports(reply.contentRange, start, parsed.value.end, total);
    }
  }

  /** A header as registries print it reports what was printed, and nothing else. */
  lemma PrintedIsReported(start: nat, e: nat, total: nat)
    requires start <= e < total <= MAX_INT64
    ensures Reports(PrintContentRange(ContentRange(start, e, total)), start, e, total)
  {
    ParsePrintedContentRange(ContentRange(start, e, total));
    ParseContentRangeIsExact(PrintContentRange(ContentRange(start, e, total)), ContentRange(start, e, total));
  }

  /** A partial response as registries print it, short ones included: with all its bytes
      it is a part, and the next byte is the one behind it; with fewer it is worth another
      attempt. */
  ghost predicate GoesOn(reply: Reply, part: Part, start: nat, end: nat, total: nat) {
    forall e :: start <= e <= end && reply.Response? && reply.status == 206
                && reply.contentRange == PrintContentRange(ContentRange(start, e, total)) ==>
      part == if |reply.body| >= e - start + 1 then Fetched(e + 1) else Failed(true)
  }

  lemma ShortPartsGoOn(reply: Reply, start: nat, end: nat, total: nat)
    requires start <= end < total <= MAX_INT64
    ensures GoesOn(reply, Judge(reply, start, end, total), start, end, total)
  {
    hide Judge, Reports, PrintContentRange;
    JudgeIsDeserved(reply, start, end, total);
    forall e | start <= e <= end && reply.Response? && reply.status == 206
               && reply.contentRange == PrintContentRange(ContentRange(start, e, total))
      ensures Judge(reply, start, end, total) == if |reply.body| >= e - start + 1 then Fetched(e + 1) else Failed(true)
    {
      PrintedIsReported(start, e, total);
    }
  }

  /** `more` holds what `had` held and then the bytes [from, to), of the blob if `honest`. */
  ghost predicate Extends(had: seq<Octet>, more: seq<Octet>, from: nat, to: nat, blob: seq<Octet>, honest: bool) {
    && from <= to && |more| == |had| + to - from && had <= more
    && (honest ==> to <= |blob| && more == had + blob[from..to])
  }

  /** Reads the part a partial response announces; if its body agrees with the blob these
      are the blob's bytes. */
  method ReadAnnounced(data: Slice, body: seq<Octet>, from: nat, length: nat, ghost blob: seq<Octet>, ghost honest: bool)
    returns (out: Slice, ok: bool)
    requires Valid(data) && data.len <= from && from + length <= MAX_INT
    requires honest ==> from + length <= |blob| && AgreesFrom(blob, from, body, length)
    modifies data.store
    ensures Valid(out) && (out.store == data.store || fresh(out.store)) && data.store.Length <= out.store.Length
    ensures !ok ==> Contents(out) == old(Contents(data))
    ensures ok ==> Extends(old(Contents(data)), Contents(out), from, from + length, blob, honest)
    ensures ok <==> length <= |body|
  {
    out, ok := ReadPart(data, body, length);
    assert ok && honest ==> body[..length] == blob[from..from + length];
  }

  /** One request for [start, end]. A failed attempt keeps only the bytes of earlier
      parts. The outcome is the one the reply deserves, unless the context or Close
      came first. */
  method FetchRangePartOnce(server: Server, ctx: Context, bodies: BodySet, start: nat, end: nat, total: nat, data: Slice,
                            ghost blob: seq<Octet>, ghost honest: bool)
    returns (out: Slice, part: Part)
    requires Valid(data) && start <= end < total <= MAX_INT64 && data.len <= start && bodies.Valid()
    requires honest ==> server.HonestAbout(blob) && total == |blob|
    modifies server, ctx, data.store, bodies, bodies.given
    ensures server.count == old(server.count) + 1
    ensures bodies.Valid() && old(bodies.given) <= bodies.given && fresh(bodies.given - old(bodies.given))
    ensures forall b :: b in old(bodies.given) && old(b.closed) ==> b.closed
    ensures (old(ctx.done) ==> ctx.done) && (old(bodies.closed) ==> bodies.closed)
    ensures Valid(out) && (out.store == data.store || fresh(out.store)) && data.store.Length <= out.store.Length
    ensures part.Failed? ==> Contents(out) == old(Contents(data))
    ensures part.Fetched? ==>
      start < part.next <= end + 1 && Extends(old(Contents(data)), Contents(out), start, part.next, blob, honest)
    ensures part == Judge(server.reply(old(server.count)), start, end, total)
            || (part == Failed(false) && (ctx.done || bodies.closed))
    ensures !ctx.done && !bodies.closed ==> Deserves(server.reply(old(server.count)), part, start, end, total)
    ensures !ctx.done && !bodies.closed ==> GoesOn(server.reply(old(server.count)), part, start, end, total)
  {
    hide Honest, ParseContentRange, UnsatisfiedRangeTotal, AgreesFrom, Extends, Deserves, GoesOn;
    JudgeIsDeserved(server.reply(server.count), start, end, total);
    ShortPartsGoOn(server.reply(server.count), start, end, total);
    var reply := server.Send();
    assert honest ==> Honest(blob, reply);
    if reply.Broken? {
      var ended := ctx.Err();
      return data, Failed(!ended && reply.retryable);
    }
    bodies.Others();
    var body;
    ghost var made;
    body, made := bodies.TrackBody();
    if body == null {
      return data, Failed(false);
    }
    out, part := data, Failed(false);
    if reply.status != 206 {
      part := Failed(!(200 <= reply.status < 300) && RetryableStatus(reply.status));
    } else {
      var parsed := ParseContentRange(reply.contentRange);
      if parsed.Some? && Fits(parsed.value, start, end, total) {
        var ok;
        if honest { HonestPart(blob, reply, parsed.value); }
        out, ok := ReadAnnounced(data, reply.body, start, parsed.value.end - start + 1, blob, honest);
        part := if ok then Fetched(parsed.value.end + 1) else Failed(true);
      }
    }
    bodies.Others();
    bodies.UntrackAndClose(body);
  }

  /** Why a part could not be had: its budget is spent, or its last reply is one that no
      other attempt would better. */
  ghost predicate Hopeless(server: Server, from: nat, attempts: nat, start: nat, end: nat, total: nat)
    reads server
  {
    || server.count == from + attempts
    || (server.count > from && Judge(server.reply(server.count - 1), start, end, total) == Failed(false))
  }

  /** Fetches a part within `attempts` requests. */
  method FetchRangePart(server: Server, ctx: Context, bodies: BodySet, start: nat, end: nat, total: nat, data: Slice,
                        attempts: nat, ghost blob: seq<Octet>, ghost honest: bool)
    returns (out: Slice, next: nat, ok: bool)
    requires Valid(data) && start <= end < total <= MAX_INT64 && attempts >= 1 && data.len <= start && bodies.Valid()
    requires honest ==> server.HonestAbout(blob) && total == |blob|
    modifies server, ctx, data.store, bodies, bodies.given
    ensures old(server.count) < server.count <= old(server.count) + attempts
    ensures bodies.Valid() && old(bodies.given) <= bodies.given && fresh(bodies.given - old(bodies.given))
    ensures forall b :: b in old(bodies.given) && old(b.closed) ==> b.closed
    ensures (old(ctx.done) ==> ctx.done) && (old(bodies.closed) ==> bodies.closed)
    ensures Valid(out) && (out.store == data.store || fresh(out.store)) && data.store.Length <= out.store.Length
    ensures !ok ==> Contents(out) == old(Contents(data))
    ensures !ok ==> ctx.done || bodies.closed || Hopeless(server, old(server.count), attempts, start, end, total)
    ensures ok ==> start < next <= end + 1 && Extends(old(Contents(data)), Contents(out), start, next, blob, honest)
    ensures ok ==> Judge(server.reply(server.count - 1), start, end, total) == Fetched(next)
    ensures forall k :: old(server.count) <= k < server.count - 1 ==>
              Judge(server.reply(k), start, end, total) == Failed(true)
    ensures Judge(server.reply(old(server.count)), start, end, total).Fetched? ==>
              ctx.done || bodies.closed || (ok && server.count == old(server.count) + 1)
  {
    hide Judge, Extends, Honest, Deserves, GoesOn;
    out, next := data, start;
    var attempt := 1;
    while true
      invariant 1 <= attempt <= attempts && server.count == old(server.count) + attempt - 1
      invariant bodies.Valid() && old(bodies.given) <= bodies.given && fresh(bodies.given - old(bodies.given))
      invariant forall b :: b in old(bodies.given) && old(b.closed) ==> b.closed
      invariant (old(ctx.done) ==> ctx.done) && (old(bodies.closed) ==> bodies.closed)
      invariant Valid(out) && out.len <= start && (out.store == data.store || fresh(out.store))
      invariant data.store.Length <= out.store.Length
      invariant Contents(out) == old(Contents(data))
      invariant forall k :: old(server.count) <= k < server.count ==>
                  Judge(server.reply(k), start, end, total) == Failed(true)
      decreases attempts - attempt
    {
      var part;
      out, part := FetchRangePartOnce(server, ctx, bodies, start, end, total, out, blob, honest);
      if part.Fetched? {
        return out, part.next, true;
      }
      var ended := ctx.Err();
      if ended || !part.retryable || attempt == attempts {
        return out, start, false;
      }
      ended := ctx.Err();  // the backoff wait
      if ended {
        return out, start, false;
      }
      attempt := attempt + 1;
    }
  }

  // ---------------------------------------------------------------- a whole chunk

  /** One part: the byte asked for, the number of the reply that brought it, the next byte. */
  datatype Hop = Hop(from: nat, reply: nat, next: nat)

  /** The parts adopted since request number `first`, each from a reply of its own that
      deserved it, lead from `start` to `at`. */
  ghost predicate Walks(reply: nat -> Reply, hops: seq<Hop>, first: nat, start: nat, at: nat, end: nat, total: nat) {
    Arrived(hops, start) == at && forall i :: 0 <= i < |hops| ==> Steps(reply, hops, i, first, start, end, total)
  }

  ghost predicate Steps(reply: nat -> Reply, hops: seq<Hop>, i: nat, first: nat, start: nat, end: nat, total: nat)
    requires i < |hops|
  {
    && hops[i].from == Arrived(hops[..i], start)
    && Asked(hops[..i], first) <= hops[i].reply
    && Judge(reply(hops[i].reply), hops[i].from, end, total) == Fetched(hops[i].next)
  }

  /** The next byte after these parts. */
  function Arrived(hops: seq<Hop>, start: nat): nat { if hops == [] then start else hops[|hops| - 1].next }

  /** The number of the first request after these parts. */
  function Asked(hops: seq<Hop>, first: nat): nat { if hops == [] then first else hops[|hops| - 1].reply + 1 }

  lemma OneMoreHop(reply: nat -> Reply, hops: seq<Hop>, h: Hop, first: nat, start: nat, at: nat, end: nat, total: nat)
    requires Walks(reply, hops, first, start, at, end, total)
    requires h.from == at && Asked(hops, first) <= h.reply
    requires Judge(reply(h.reply), at, end, total) == Fetched(h.next)
    ensures Walks(reply, hops + [h], first, start, h.next, end, total)
  {
    hide Judge;
    var more := hops + [h];
    forall i | 0 <= i < |more|
      ensures Steps(reply, more, i, first, start, end, total)
    {
      if i < |hops| {
        assert more[..i] == hops[..i] && Steps(reply, hops, i, first, start, end, total);
      } else {
        assert more[..i] == hops;
      }
    }
  }

  /** What is left of the reserve after taking a buffer. */
  function Rest(free: seq<array<Octet>>): seq<array<Octet>> { if free == [] then [] else free[1..] }

  /** The reserve after a buffer came back. */
  function PutInto(rest: seq<array<Octet>>, cap: nat, store: array<Octet>): seq<array<Octet>> {
    if store.Length > 0 && |rest| < cap then rest + [store] else rest
  }

  /** The replies from number k on bring [start, end] part by part, in at most sixteen parts. */
  ghost predicate Delivers(reply: nat -> Reply, k: nat, start: nat, end: nat, total: nat, parts: nat)
    decreases 16 - parts
  {
    && parts < 16
    && var part := Judge(reply(k), start, end, total);
       part.Fetched? && (part.next <= end ==> Delivers(reply, k + 1, part.next, end, total, parts + 1))
  }

  lemma NextIsDelivered(reply: nat -> Reply, k: nat, start: nat, end: nat, total: nat, parts: nat)
    requires Delivers(reply, k, start, end, total, parts)
    ensures parts < 16 && var part := Judge(reply(k), start, end, total);
      part.Fetched? && (part.next <= end ==> Delivers(reply, k + 1, part.next, end, total, parts + 1))
  {
    hide Judge;
  }

  /** Fetches exactly [start, start + want), in at most sixteen parts. A failed fetch has
      used them all, or its last part was hopeless, unless the context or Close came
      first; it offers its buffer back. */
  method FetchChunk(server: Server, ctx: Context, bodies: BodySet, pool: Pool, start: nat, want: nat, total: nat,
                    attempts: nat, ghost blob: seq<Octet>, ghost honest: bool)
    returns (chunk: Option<Slice>, ghost hops: seq<Hop>, ghost spare: array<Octet>)
    requires want > 0 && start + want <= total <= MAX_INT64 && attempts >= 1 && bodies.Valid()
    requires honest ==> server.HonestAbout(blob) && total == |blob|
    modifies server, ctx, pool, pool.free, bodies, bodies.given
    ensures old(server.count) < server.count <= old(server.count) + 16 * attempts
    ensures bodies.Valid() && old(bodies.given) <= bodies.given && fresh(bodies.given - old(bodies.given))
    ensures forall b :: b in old(bodies.given) && old(b.closed) ==> b.closed
    ensures |hops| <= 16
    ensures Walks(server.reply, hops, old(server.count), start, Arrived(hops, start), start + want - 1, total)
    ensures Asked(hops, old(server.count)) <= server.count
    ensures chunk.Some? ==>
      && Valid(chunk.value) && chunk.value.store == spare && |Contents(chunk.value)| == want
      && Arrived(hops, start) == start + want && pool.free == Rest(old(pool.free))
      && (honest ==> Contents(chunk.value) == blob[start..start + want])
    ensures chunk.None? ==>
      || ctx.done || bodies.closed || |hops| == 16
      || Hopeless(server, Asked(hops, old(server.count)), attempts, Arrived(hops, start), start + want - 1, total)
    ensures chunk.None? ==> pool.free == PutInto(Rest(old(pool.free)), pool.cap, spare)
    ensures old(pool.free) != [] ==>
      (spare == old(pool.free)[0] || fresh(spare)) && spare.Length >= old(pool.free)[0].Length
    ensures old(pool.free) == [] ==> fresh(spare)
    ensures hops != [] ==> spare.Length > 0
    ensures Delivers(server.reply, old(server.count), start, start + want - 1, total, 0) ==>
              ctx.done || bodies.closed || chunk.Some?
  {
    hide Judge, Honest, Walks, Delivers, Hopeless;
    var data := pool.Take();
    var ok;
    data, ok, hops := FetchParts(server, ctx, bodies, start, start + want - 1, total, data, attempts, blob, honest);
    if !ok {
      pool.Put(data);
      return None, hops, data.store;
    }
    return Some(data), hops, data.store;
  }

  /** The loop of fetchChunk: part after part until [start, end] is there. */
  method FetchParts(server: Server, ctx: Context, bodies: BodySet, start: nat, end: nat, total: nat, empty: Slice,
                    attempts: nat, ghost blob: seq<Octet>, ghost honest: bool)
    returns (data: Slice, ok: bool, ghost hops: seq<Hop>)
    requires Valid(empty) && empty.len == 0 && start <= end < total <= MAX_INT64 && attempts >= 1 && bodies.Valid()
    requires honest ==> server.HonestAbout(blob) && total == |blob|
    modifies server, ctx, empty.store, bodies, bodies.given
    ensures old(server.count) < server.count <= old(server.count) + 16 * attempts
    ensures bodies.Valid() && old(bodies.given) <= bodies.given && fresh(bodies.given - old(bodies.given))
    ensures forall b :: b in old(bodies.given) && old(b.closed) ==> b.closed
    ensures |hops| <= 16 && Walks(server.reply, hops, old(server.count), start, Arrived(hops, start), end, total)
    ensures Asked(hops, old(server.count)) <= server.count
    ensures Valid(data) && (data.store == empty.store || fresh(data.store)) && data.store.Length >= empty.store.Length
    ensures ok ==> data.len == end + 1 - start && Arrived(hops, start) == end + 1
    ensures ok && honest ==> Contents(data) == blob[start..end + 1]
    ensures !ok ==>
      || ctx.done || bodies.closed || |hops| == 16
      || Hopeless(server, Asked(hops, old(server.count)), attempts, Arrived(hops, start), end, total)
    ensures hops != [] ==> data.store.Length > 0
    ensures Delivers(server.reply, old(server.count), start, end, total, 0) ==> ctx.done || bodies.closed || ok
  {
    hide Judge, Honest, Walks, Delivers, Hopeless, OnTheWay, Extends;
    data := empty;
    var parts := 0;
    var cursor := start;
    hops := [];
    NoHops(server.reply, server.count, start, end, total);
    while cursor <= end
      invariant start <= cursor <= end + 1 && parts == |hops| <= MAX_PARTS && (cursor > start <==> parts > 0)
      invariant old(server.count) + parts <= server.count <= old(server.count) + parts * attempts
      invariant bodies.Valid() && old(bodies.given) <= bodies.given && fresh(bodies.given - old(bodies.given))
      invariant forall b :: b in old(bodies.given) && old(b.closed) ==> b.closed
      invariant Valid(data) && (data.store == empty.store || fresh(data.store)) && data.store.Length >= empty.store.Length
      invariant data.len == cursor - start && (honest ==> Contents(data) == blob[start..cursor])
      invariant OnTheWay(server.reply, hops, old(server.count), server.count, start, cursor, end, total)
      invariant Delivers(server.reply, old(server.count), start, end, total, 0) ==>
        ctx.done || bodies.closed || cursor > end || Delivers(server.reply, server.count, cursor, end, total, parts)
      decreases end + 1 - cursor
    {
      WayParts(server.reply, hops, old(server.count), server.count, start, cursor, end, total);
      MoreParts(parts, attempts);
      if Delivers(server.reply, server.count, cursor, end, total, parts) {
        NextIsDelivered(server.reply, server.count, cursor, end, total, parts);
      }
      if parts == MAX_PARTS { return data, false, hops; }
      var next;
      ghost var had := Contents(data);
      data, next, ok := FetchRangePart(server, ctx, bodies, cursor, end, total, data, attempts, blob, honest);
      if !ok { return data, false, hops; }
      GoOn(server.reply, hops, old(server.count), server.count, start, cursor, next, end, total);
      hops := hops + [Hop(cursor, server.count - 1, next)];
      Grown(had, Contents(data), start, cursor, next, blob, honest);
      cursor := next;
      parts := parts + 1;
    }
    WayParts(server.reply, hops, old(server.count), server.count, start, cursor, end, total);
    MoreParts(parts, attempts);
    return data, true, hops;
  }

  /** The parts adopted so far lead to `at`, and the next request has number `count`. */
  ghost predicate OnTheWay(reply: nat -> Reply, hops: seq<Hop>, first: nat, count: nat, start: nat, at: nat, end: nat, total: nat) {
    Walks(reply, hops, first, start, at, end, total) && Arrived(hops, start) == at && Asked(hops, first) == count
  }

  lemma WayParts(reply: nat -> Reply, hops: seq<Hop>, first: nat, count: nat, start: nat, at: nat, end: nat, total: nat)
    requires OnTheWay(reply, hops, first, count, start, at, end, total)
    ensures Walks(reply, hops, first, start, at, end, total) && Arrived(hops, start) == at && Asked(hops, first) == count
  {
    hide Walks;
  }

  lemma GoOn(reply: nat -> Reply, hops: seq<Hop>, first: nat, count: nat, start: nat, at: nat, next: nat, end: nat, total: nat)
    requires Walks(reply, hops, first, start, at, end, total) && Asked(hops, first) < count
    requires Judge(reply(count - 1), at, end, total) == Fetched(next)
    ensures OnTheWay(reply, hops + [Hop(at, count - 1, next)], first, count, start, next, end, total)
  {
    hide Judge, Walks;
    OneMoreHop(reply, hops, Hop(at, count - 1, next), first, start, at, end, total);
  }

  lemma Grown(had: seq<Octet>, more: seq<Octet>, start: nat, from: nat, to: nat, blob: seq<Octet>, honest: bool)
    requires Extends(had, more, from, to, blob, honest) && start <= from && |had| == from - start
    requires honest ==> from <= |blob| && had == blob[start..from]
    ensures from <= to && |more| == to - start && (honest ==> to <= |blob| && more == blob[start..to])
  {
    assert honest ==> blob[start..from] + blob[from..to] == blob[start..to];
  }

  lemma NoHops(reply: nat -> Reply, first: nat, start: nat, end: nat, total: nat)
    ensures Walks(reply, [], first, start, start, end, total) && OnTheWay(reply, [], first, first, start, start, end, total)
  {}

  lemma MoreParts(parts: nat, attempts: nat)
    requires parts <= MAX_PARTS
    ensures parts * attempts <= 16 * attempts
    ensures parts < MAX_PARTS ==> (parts + 1) * attempts == parts * attempts + attempts <= 16 * attempts
  {
    assert MAX_PARTS * attempts == parts * attempts + (MAX_PARTS - parts) * attempts;
    if parts < MAX_PARTS {
      assert MAX_PARTS * attempts == (parts + 1) * attempts + (MAX_PARTS - (parts + 1)) * attempts;
    }
  }

  lemma ProbeAgrees(blob: seq<Octet>, body: seq<Octet>, want: nat)
    requires AgreesFrom(blob, 0, body, want) && want <= |body| && want <= |blob|
    ensures body[..want] == blob[..want]
  {}

  /** readChunkInto: the whole of an open response into a reusable buffer, which goes back
      if the response is too short. */
  method ReadInto(pool: Pool, probe: Body, want: nat) returns (data: Slice, ok: bool)
    requires 0 < want <= MAX_INT64 && probe.pos == 0
    modifies pool, pool.free, probe
    ensures Valid(data) && (fresh(data.store) || data.store in old(pool.free))
    ensures ok <==> want <= |probe.data|
    ensures ok ==> Contents(data) == probe.data[..want] && pool.free == Rest(old(pool.free))
    ensures !ok ==> pool.free == PutInto(Rest(old(pool.free)), pool.cap, data.store)
    ensures data.store.Length >= Min(want, |probe.data|)
  {
    data := pool.Take();
    ghost var none := Contents(data);
    assert none == [];
    var copied;
    data, ok, copied := AppendExactly(data, probe, want);
    assert probe.data[0..Min(want, |probe.data|)] == probe.data[..Min(want, |probe.data|)];
    if !ok { pool.Put(data); }
  }

  /** The probe task reads the response that is already open, and falls back to
      ranged requests with what the probe left of the attempt budget. */
  method FetchProbe(server: Server, ctx: Context, bodies: BodySet, pool: Pool, probe: Body, tracked: TrackedBody,
                    want: nat, total: nat, attempts: nat, probeAttempts: nat, ghost blob: seq<Octet>, ghost honest: bool)
    returns (chunk: Option<Slice>, ghost hops: seq<Hop>, ghost first: array<Octet>, ghost spare: array<Octet>)
    requires 0 < want <= total <= MAX_INT64 && probe.pos == 0 && bodies.Valid() && tracked in bodies.given
    requires honest ==> server.HonestAbout(blob) && total == |blob| && AgreesFrom(blob, 0, probe.data, want)
    modifies server, ctx, pool, pool.free, probe, bodies, bodies.given
    ensures old(server.count) <= server.count <= old(server.count) + 16 * Max(attempts - probeAttempts, 0)
    ensures bodies.Valid() && tracked.closed
    ensures chunk.Some? ==> Valid(chunk.value) && |Contents(chunk.value)| == want
    ensures chunk.Some? && honest ==> Contents(chunk.value) == blob[..want]
    ensures want <= |probe.data| ==> chunk.Some? && server.count == old(server.count)
    ensures want > |probe.data| ==>
      && first.Length >= |probe.data|
      && var back := PutInto(Rest(old(pool.free)), pool.cap, first);
         pool.free == if chunk.Some? then Rest(back)
                      else if server.count == old(server.count) then back
                      else PutInto(Rest(back), pool.cap, spare)
    ensures chunk.None? ==>
      || ctx.done || bodies.closed || attempts <= probeAttempts || |hops| == 16
      || Hopeless(server, Asked(hops, old(server.count)), attempts - probeAttempts, Arrived(hops, 0), want - 1, total)
    ensures Walks(server.reply, hops, old(server.count), 0, Arrived(hops, 0), want - 1, total)
  {
    hide Honest, Judge, Walks, Hopeless, AgreesFrom;
    hops := [];
    NoHops(server.reply, server.count, 0, want - 1, total);
    var data, ok := ReadInto(pool, probe, want);
    bodies.UntrackAndClose(tracked);
    first, spare := data.store, data.store;
    if ok {
      if honest { ProbeAgrees(blob, probe.data, want); }
      return Some(data), hops, first, spare;
    }
    var ended := ctx.Err();
    var remaining := attempts - probeAttempts;
    if ended || remaining <= 0 {
      return None, hops, first, spare;
    }
    chunk, hops, spare := FetchChunk(server, ctx, bodies, pool, 0, want, total, remaining, blob, honest);
  }
}
