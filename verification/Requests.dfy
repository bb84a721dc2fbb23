/** Response bodies, and the loops that spend the retry policy's attempts on
    opening one: doRetry, getAfterAttempts and parallelProbe. */
module Requests {
  import opened Basics
  import opened Wire
  import opened Registry

  /** A response body. `data` arrives and then ends (`clean`) or breaks; a bounded
      body ends at index `cap` of it. Byte data[0] is byte `base` of the blob. */
  class Stream {
    const data: seq<Octet>
    const clean: bool
    const base: nat
    const cap: Option<nat>
    const pace: nat -> Answer
    var pos: nat
    /** Reads so far. */
    var calls: nat

    constructor (data: seq<Octet>, clean: bool, base: nat, pos: nat, cap: Option<nat>, pace: nat -> Answer)
      requires pos <= (if cap.Some? then Min(cap.value, |data|) else |data|)
      ensures this.data == data && this.clean == clean && this.base == base && this.cap == cap && this.pos == pos
      ensures Valid() && this.pace == pace && calls == 0
    {
      this.data, this.clean, this.base, this.cap, this.pos := data, clean, base, cap, pos;
      this.pace, calls := pace, 0;
    }

    /** How much of data can be read. */
    function Bound(): nat { if cap.Some? then Min(cap.value, |data|) else |data| }

    ghost predicate Valid() reads this { pos <= Bound() }

    /** What can be read is part of the blob. */
    ghost predicate Serves(blob: seq<Octet>) {
      base + Bound() <= |blob| && data[..Bound()] == blob[base..base + Bound()]
    }

    /** At the end of file: of a bounded body at its bound, of any body after its last byte. */
    predicate EndsAt(pos: nat) { (cap.Some? && pos == cap.value) || (clean && pos == |data|) }

    /** How many bytes the next Read of up to m bytes gives. */
    function Gives(m: nat): (n: nat)
      requires Valid()
      reads this
      ensures n <= m && pos + n <= Bound()
      ensures pace(calls).give > 0 && m > 0 && pos < Bound() ==> n > 0
    {
      var give := pace(calls).give;
      if 0 <= give <= m && pos + give <= Bound() then give else Min(m, Bound() - pos)
    }

    /** What it reports beside them. The transport may break at any time, and may report
        the end beside the last bytes or after them; behind the last byte of a body that
        was cut short it breaks, unless it stalls. */
    function Reports(m: nat): (err: StreamError)
      requires Valid()
      reads this
      ensures err == Eof ==> EndsAt(pos + Gives(m))
    {
      var answer, after := pace(calls), pos + Gives(m);
      var idle := Gives(m) == 0 && m > 0 && answer.give != 0;
      if answer.err == Broke then Broke
      else if EndsAt(after) then (if answer.err == Eof || idle then Eof else Fine)
      else if idle && after == Bound() then Broke
      else Fine
    }

    /** Reads up to m bytes into p. */
    method Read(p: array<Octet>, m: nat) returns (n: nat, err: StreamError)
      requires Valid() && m <= p.Length
      modifies this, p
      ensures Valid() && n == old(Gives(m)) && err == old(Reports(m))
      ensures pos == old(pos) + n && calls == old(calls) + 1
      ensures p[..n] == data[old(pos)..pos]
    {
      n, err := Gives(m), Reports(m);
      forall i | 0 <= i < n { p[i] := data[pos + i]; }
      assert p[..n] == data[pos..pos + n];
      pos, calls := pos + n, calls + 1;
    }

    /** A Read that gives nothing and reports nothing was answered so. */
    lemma NothingMeansStalled(m: nat)
      requires Valid() && m > 0
      ensures Gives(m) == 0 && Reports(m) == Fine ==> pace(calls).give == 0
    {}

    /** A lively body gives a byte, or has none left and reports it. */
    lemma LivelyGoesOn(m: nat)
      requires Valid() && m > 0 && Lively(pace)
      ensures pos < Bound() ==> Gives(m) > 0
      ensures pos == Bound() ==> Reports(m) == if EndsAt(pos) then Eof else Broke
      ensures Reports(m) == Broke ==> pos == Bound()
    {}
  }

  /** Buffers with which `n` bytes and the end behind them can be read, one byte at least at a time. */
  ghost predicate Enough(sizes: seq<nat>, n: nat) {
    |sizes| > n && forall k :: 0 <= k < |sizes| ==> sizes[k] > 0
  }

  // ---------------------------------------------------------------- retry loops

  /** doRetry: the first reply that is not worth a retry, or the last one. */
  method DoRetry(server: Server, ctx: Context, maxAttempts: int) returns (reply: Option<Reply>)
    modifies server, ctx
    ensures old(server.count) <= server.count <= old(server.count) + Attempts(maxAttempts)
    ensures reply.Some? ==>
      && server.count > old(server.count)
      && reply.value.Response? && reply.value == server.reply(server.count - 1)
      && (reply.value.status == 429 || 500 <= reply.value.status <= 599 ==>
            server.count == old(server.count) + Attempts(maxAttempts))
      && forall k :: old(server.count) <= k < server.count - 1 ==> WorthRetry(server.reply(k))
    ensures reply.None? ==> ctx.done || GaveUp(server, old(server.count), Attempts(maxAttempts))
    ensures forall k :: old(server.count) <= k < server.count - 1 ==> WorthRetry(server.reply(k))
    ensures old(ctx.Calm()) ==> ctx.Calm()
  {
    var attempts := Attempts(maxAttempts);
    var attempt := 1;
    while true
      invariant 1 <= attempt <= attempts && server.count == old(server.count) + attempt - 1
      invariant forall k :: old(server.count) <= k < server.count ==> WorthRetry(server.reply(k))
      invariant old(ctx.Calm()) ==> ctx.Calm()
      decreases attempts - attempt
    {
      var ended := ctx.Err();
      if ended { return None; }
      var r := server.Send();
      if r.Broken? {
        ended := ctx.Err();
        if ended || !r.retryable || attempt == attempts { return None; }
      } else if !RetryableStatus(r.status) || attempt == attempts {
        return Some(r);
      }
      ended := ctx.Err();  // the backoff wait
      if ended { return None; }
      attempt := attempt + 1;
    }
  }

  /** The last request since `from` went unanswered, and the policy allows no other. */
  ghost predicate GaveUp(server: Server, from: nat, attempts: nat)
    reads server
  {
    && server.count > from && server.reply(server.count - 1).Broken?
    && (server.count == from + attempts || !WorthRetry(server.reply(server.count - 1)))
  }

  /** A reply after which the policy allows another attempt. */
  predicate WorthRetry(r: Reply): (yes: bool)
    ensures r.Response? ==> (yes <==> r.status == 429 || 500 <= r.status <= 599)
  {
    match r
    case Broken(retryable) => retryable
    case Response(status, _, _, _, _) => RetryableStatus(status)
  }

  /** A usable body's reply and the requests spent on the transfer so far. */
  datatype Opened = Opened(reply: Reply, attempts: nat)

  /** A full response, or a partial one to a ranged request. */
  predicate Usable(r: Reply, ranged: bool) {
    r.Response? && (r.status == 200 || (ranged && r.status == 206))
  }

  /** getAfterAttempts: a GET with the attempts that `spent` earlier ones left. */
  method GetAfterAttempts(server: Server, ctx: Context, maxAttempts: int, ranged: bool, spent: nat)
    returns (got: Option<Opened>)
    modifies server, ctx
    ensures old(server.count) <= server.count
    ensures server.count == old(server.count) || spent + server.count - old(server.count) <= Attempts(maxAttempts)
    ensures got.Some? ==>
      && got.value.attempts == spent + server.count - old(server.count)
      && spent < got.value.attempts <= Attempts(maxAttempts)
      && got.value.reply == server.reply(server.count - 1)
      && Usable(got.value.reply, ranged)
    ensures forall k :: old(server.count) <= k < server.count - 1 ==> WorthRetry(server.reply(k))
    ensures old(ctx.Calm()) ==> ctx.Calm()
    ensures got.None? ==>
      || ctx.done || spent >= Attempts(maxAttempts)
      || (server.count > old(server.count) && !Usable(server.reply(server.count - 1), ranged)
          && (server.count == old(server.count) + Attempts(maxAttempts) - spent || !WorthRetry(server.reply(server.count - 1))))
  {
    var remaining := Attempts(maxAttempts) - spent;
    if remaining <= 0 { return None; }
    var before := server.count;
    var reply := DoRetry(server, ctx, remaining);
    if reply.None? { return None; }
    var status := reply.value.status;
    if status != 200 && !(ranged && status == 206) { return None; }
    return Some(Opened(reply.value, spent + server.count - before));
  }

  /** parallelProbe: like doRetry, but it tells how many attempts it used. */
  method ParallelProbe(server: Server, ctx: Context, maxAttempts: int) returns (got: Option<Opened>)
    modifies server, ctx
    ensures old(server.count) < server.count <= old(server.count) + Attempts(maxAttempts)
    ensures got.Some? ==>
      && got.value.attempts == server.count - old(server.count)
      && got.value.reply.Response? && got.value.reply == server.reply(server.count - 1)
      && (got.value.reply.status == 429 || 500 <= got.value.reply.status <= 599 ==>
            got.value.attempts == Attempts(maxAttempts))
    ensures got.None? ==> ctx.done || GaveUp(server, old(server.count), Attempts(maxAttempts))
    ensures old(ctx.Calm()) ==> ctx.Calm()
    ensures forall k :: old(server.count) <= k < server.count - 1 ==> WorthRetry(server.reply(k))
  {
    var attempts := Attempts(maxAttempts);
    var attempt := 1;
    while true
      invariant 1 <= attempt <= attempts && server.count == old(server.count) + attempt - 1
      invariant forall k :: old(server.count) <= k < server.count ==> WorthRetry(server.reply(k))
      invariant old(ctx.Calm()) ==> ctx.Calm()
      decreases attempts - attempt
    {
      var r := server.Send();
      if r.Broken? {
        var ended := ctx.Err();
        if ended || !r.retryable || attempt == attempts { return None; }
      } else if !RetryableStatus(r.status) || attempt == attempts {
        return Some(Opened(r, attempt));
      }
      var ended := ctx.Err();  // the backoff wait
      if ended { return None; }
      attempt := attempt + 1;
    }
  }
}
