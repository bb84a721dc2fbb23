/** The world outside the client: a registry that may answer anything, a context
    that may end at any time, and the retry policy. The n-th request of a run gets
    the n-th reply, whatever it asks; a statement over every reply sequence covers
    every server, adaptive ones included. */
module Registry {
  import opened Basics
  import opened Wire

  datatype StreamError = Fine | Eof | Broke

  /** What the transport does at one Read of a body: how many bytes it gives, if there are
      so many, and whether it breaks, or tells at once of an end it has reached. */
  datatype Answer = Answer(give: int, err: StreamError)

  /** `body` are the bytes that arrive; `clean` tells an end of file from a break; the
      n-th Read of the body gets the n-th answer of `pace`. */
  datatype Reply =
    | Broken(retryable: bool)
    | Response(status: int, contentRange: string, body: seq<Octet>, clean: bool, pace: nat -> Answer)

  /** A transport that gives something at every Read and breaks only behind the last byte. */
  ghost predicate Lively(pace: nat -> Answer) {
    forall k: nat :: pace(k).give > 0 && pace(k).err != Broke
  }

  /** http.NoBody ends at once. */
  const NO_BODY: nat -> Answer := k => Answer(1, Eof)

  /** The body of a partial response agrees with the blob inside its interval. It
      may be cut short, and it may run past the interval with anything. */
  ghost predicate AgreesFrom(blob: seq<Octet>, start: nat, body: seq<Octet>, length: nat) {
    forall i :: 0 <= i < |body| && i < length && start + i < |blob| ==> body[i] == blob[start + i]
  }

  /** A reply that tells the truth about `blob`. */
  ghost predicate Honest(blob: seq<Octet>, r: Reply) {
    r.Response? ==>
      && (r.status == 206 ==>
            match ParseContentRange(r.contentRange)
            case Some(cr) => cr.total == |blob| && AgreesFrom(blob, cr.start, r.body, cr.end - cr.start + 1)
            case None => true)
      && (r.status == 200 ==> r.body <= blob && (r.clean ==> r.body == blob))
      && (r.status == 416 && UnsatisfiedRangeTotal(r.contentRange).Some? ==>
            UnsatisfiedRangeTotal(r.contentRange).value == |blob|)
  }

  class Server {
    const reply: nat -> Reply
    var count: nat

    constructor (reply: nat -> Reply)
      ensures this.reply == reply && count == 0
    {
      this.reply := reply;
      count := 0;
    }

    ghost predicate HonestAbout(blob: seq<Octet>) {
      forall k: nat :: Honest(blob, reply(k))
    }

    method Send() returns (r: Reply)
      modifies this
      ensures count == old(count) + 1 && r == reply(old(count))
    {
      r := reply(count);
      count := count + 1;
    }
  }

  /** A context: it may end before any time it is asked, and stays ended. */
  class Context {
    const ends: nat -> bool
    var asked: nat
    var done: bool

    constructor (ends: nat -> bool)
      ensures this.ends == ends && asked == 0 && !done
    {
      this.ends, asked, done := ends, 0, false;
    }

    /** It has not ended, and never will. */
    ghost predicate Calm() reads this { !done && forall k: nat :: !ends(k) }

    /** What the next Err will say. */
    predicate WillBeDone() reads this { done || ends(asked) }

    method Err() returns (ended: bool)
      modifies this
      ensures done == old(WillBeDone()) && asked == old(asked) + 1
      ensures ended == done && (old(Calm()) ==> Calm())
    {
      if ends(asked) { done := true; }
      asked := asked + 1;
      ended := done;
    }
  }

  /** RetryPolicy.attempts */
  function Attempts(maxAttempts: int): (n: nat)
    ensures n >= 1 && n >= maxAttempts && (n == 1 || n == maxAttempts)
  {
    if maxAttempts < 1 then 1 else maxAttempts
  }

  predicate RetryableStatus(code: int) { code == 429 || 500 <= code <= 599 }
}
