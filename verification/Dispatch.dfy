/** What dispatch hands to the workers, and how many workers there are. */
module Dispatch {
  import opened Basics
  import opened Registry
  import opened ParallelPull

  /** The pieces behind the probe: `chunk` bytes each, the last one whatever is left. */
  function Rest(chunk: nat, start: nat, total: nat): (r: seq<Piece>)
    requires chunk > 0
    decreases total - start
  {
    if start >= total then [] else [Piece(start, Min(chunk, total - start))] + Rest(chunk, start + Min(chunk, total - start), total)
  }

  /** The tasks of a pull whose probe returned bytes 0 to probeEnd. */
  function PlanOf(chunk: nat, probeEnd: nat, total: nat): seq<Piece>
    requires chunk > 0
  {
    [Piece(0, probeEnd + 1)] + Rest(chunk, probeEnd + 1, total)
  }

  lemma {:induction false} RestTiles(chunk: nat, start: nat, total: nat)
    requires chunk > 0 && start < total
    ensures Rest(chunk, start, total) != [] && Rest(chunk, start, total)[0].start == start
    ensures var r := Rest(chunk, start, total);
      && (forall i :: 0 <= i < |r| ==> 0 < r[i].want <= chunk)
      && (forall i :: 0 < i < |r| ==> r[i].start == r[i - 1].start + r[i - 1].want)
      && r[|r| - 1].start + r[|r| - 1].want == total
    decreases total - start
  {
    var want := Min(chunk, total - start);
    if start + want < total {
      RestTiles(chunk, start + want, total);
      var r, tail := Rest(chunk, start, total), Rest(chunk, start + want, total);
      assert forall i :: 0 < i < |r| ==> r[i] == tail[i - 1];
    } else {
      assert Rest(chunk, start + want, total) == [];
    }
  }

  /** The tasks tile the blob: no byte is fetched twice or left out. */
  lemma PlanTiles(chunk: nat, probeEnd: nat, total: nat)
    requires chunk > 0 && probeEnd < total
    ensures Tiles(PlanOf(chunk, probeEnd, total), total)
  {
    var plan, rest := PlanOf(chunk, probeEnd, total), Rest(chunk, probeEnd + 1, total);
    if probeEnd + 1 < total {
      RestTiles(chunk, probeEnd + 1, total);
      assert forall i :: 0 < i < |plan| ==> plan[i] == rest[i - 1];
    } else {
      assert rest == [];
    }
  }

  /** dispatch's loop: it hands out the plan, or a head of it when the context ends. */
  method Tasks(ctx: Context, chunk: nat, probeEnd: nat, total: nat) returns (issued: seq<Piece>, all: bool)
    requires chunk > 0 && probeEnd < total
    modifies ctx
    ensures issued <= PlanOf(chunk, probeEnd, total)
    ensures all ==> issued == PlanOf(chunk, probeEnd, total)
    ensures !all ==> ctx.done
  {
    issued := [];
    var ended := ctx.Err();
    var cancelled: bool := *;  // the select may still pick the channel
    if ended && cancelled { return issued, false; }
    issued := [Piece(0, probeEnd + 1)];
    var start := probeEnd + 1;
    while start < total
      invariant probeEnd + 1 <= start <= total
      invariant issued + Rest(chunk, start, total) == PlanOf(chunk, probeEnd, total)
      decreases total - start
    {
      var want := Min(chunk, total - start);
      ended := ctx.Err();
      cancelled := *;
      if ended && cancelled { return issued, false; }
      assert issued + ([Piece(start, want)] + Rest(chunk, start + want, total))
          == (issued + [Piece(start, want)]) + Rest(chunk, start + want, total);
      issued := issued + [Piece(start, want)];
      start := start + want;
    }
    assert issued + [] == issued;
    return issued, true;
  }

  /** parallelWorkerCount */
  function WorkerCount(configured: nat, chunk: nat, firstUnscheduled: nat, total: nat): nat
    requires chunk > 0
  {
    var left := total - firstUnscheduled;
    var chunks := if left <= 0 then 1 else 1 + left / chunk + (if left % chunk != 0 then 1 else 0);
    if chunks >= configured then configured else chunks
  }

  lemma {:induction false} RestLength(chunk: nat, start: nat, total: nat)
    requires chunk > 0 && start <= total
    ensures |Rest(chunk, start, total)| == (total - start) / chunk + (if (total - start) % chunk != 0 then 1 else 0)
    decreases total - start
  {
    var left := total - start;
    if left >= chunk {
      RestLength(chunk, start + chunk, total);
      DropChunk(left, chunk);
    } else {
      SmallRest(left, chunk);
      assert left > 0 ==> Rest(chunk, total, total) == [];
    }
  }

  lemma DropChunk(left: nat, chunk: nat)
    requires chunk > 0 && left >= chunk
    ensures left / chunk == (left - chunk) / chunk + 1 && left % chunk == (left - chunk) % chunk
  {
    var q, r := (left - chunk) / chunk, (left - chunk) % chunk;
    assert left == chunk * (q + 1) + r;
    Quotient(left, chunk, q + 1, r);
  }

  lemma SmallRest(left: nat, chunk: nat)
    requires left < chunk
    ensures left / chunk == 0 && left % chunk == left
  {
    Quotient(left, chunk, 0, left);
  }

  lemma {:induction false} Multiples(d: nat, a: nat, b: nat)
    requires a < b
    ensures d * a + d <= d * b
  {
    if b == a + 1 {
      assert d * b == d * a + d;
    } else {
      Multiples(d, a, b - 1);
      assert d * b == d * (b - 1) + d;
    }
  }

  /** Euclidean division is unique. */
  lemma Quotient(n: nat, d: nat, q: nat, r: nat)
    requires d > 0 && n == d * q + r && r < d
    ensures n / d == q && n % d == r
  {
    var q', r' := n / d, n % d;
    assert n == d * q' + r';
    if q < q' { Multiples(d, q, q'); }
    if q' < q { Multiples(d, q', q); }
  }

  /** There are as many workers as configured, or one for each task if that is fewer. */
  lemma WorkerCountIsMin(configured: nat, chunk: nat, probeEnd: nat, total: nat)
    requires chunk > 0 && probeEnd < total
    ensures WorkerCount(configured, chunk, probeEnd + 1, total) == Min(configured, |PlanOf(chunk, probeEnd, total)|)
  {
    RestLength(chunk, probeEnd + 1, total);
    if probeEnd + 1 == total { SmallRest(0, chunk); }
  }

  /** A pull that parallelPull starts is one of those the protocol is about. */
  lemma StartedPullIsValid(configured: nat, chunk: nat, probeEnd: nat, blob: seq<Octet>, poolCap: nat, fuel: nat)
    requires configured >= 1 && chunk > 0 && probeEnd < |blob|
    ensures ValidConfig(Config(WorkerCount(configured, chunk, probeEnd + 1, |blob|),
                               PlanOf(chunk, probeEnd, |blob|), blob, poolCap, fuel))
  {
    PlanTiles(chunk, probeEnd, |blob|);
    WorkerCountIsMin(configured, chunk, probeEnd, |blob|);
  }
}
