/** Reading an exact number of bytes into a growing buffer: growReadBuffer,
    appendExactly and readChunkInto, on arrays, as the source runs them. */
module Buffers {
  import opened Basics

  /** parallelReadBufferSize */
  const READ_SIZE := 32 * 1024

  /** The largest int on a 64-bit platform. */
  const MAX_INT := 0x7FFF_FFFF_FFFF_FFFF

  /** A Go slice that starts at the head of its backing array. */
  datatype Slice = Slice(store: array<Octet>, len: nat)

  ghost predicate Valid(s: Slice) { s.len <= s.store.Length }

  ghost function Contents(s: Slice): (c: seq<Octet>)
    requires Valid(s)
    reads s.store
    ensures |c| == s.len
  {
    s.store[..s.len]
  }

  /** A response body: `data` are the bytes it yields before it ends or breaks. */
  class Body {
    const data: seq<Octet>
    var pos: nat

    constructor (data: seq<Octet>)
      ensures this.data == data && pos == 0
    {
      this.data := data;
      pos := 0;
    }

    ghost predicate Valid()
      reads this
    {
      pos <= |data|
    }

    /** io.ReadFull into a[from..to]: n < to - from means the body ended or broke. */
    method ReadFull(a: array<Octet>, from: nat, to: nat) returns (n: nat)
      requires Valid() && from <= to <= a.Length
      modifies this, a
      ensures Valid() && pos == old(pos) + n
      ensures n == Min(to - from, |data| - old(pos))
      ensures a[..from] == old(a[..from]) && a[from..from + n] == data[old(pos)..pos]
    {
      n := Min(to - from, |data| - pos);
      forall i | 0 <= i < n {
        a[from + i] := data[pos + i];
      }
      pos := pos + n;
      assert a[from..from + n] == data[old(pos)..pos];
      assert a[..from] == old(a[..from]);
    }
  }

  /** Ensures `additional` writable bytes without growing beyond `target`. A new
      buffer is at least twice as large as the old one, or as large as the first
      read, or already full size. */
  method GrowReadBuffer(dst: Slice, additional: nat, target: nat) returns (out: Slice)
    requires Valid(dst) && additional > 0 && dst.len + additional <= target <= MAX_INT
    ensures Valid(out) && Contents(out) == old(Contents(dst))
    ensures out.store.Length - out.len >= additional
    ensures out == dst || fresh(out.store)
    ensures out != dst ==>
      && dst.store.Length < out.store.Length <= target
      && (out.store.Length == target || out.store.Length >= 2 * dst.store.Length || dst.store.Length < READ_SIZE)
      && (out.store.Length == target || out.store.Length >= READ_SIZE)
  {
    if dst.store.Length - dst.len >= additional {
      return dst;
    }
    var needed := dst.len + additional;
    var next := Max(dst.store.Length, READ_SIZE);
    next := Min(next, target);
    ghost var first := next;
    while next < needed
      invariant 1 <= next <= target
      invariant next == first || next >= 2 * first || next == target
      decreases target - next
    {
      if next > target / 2 {
        next := target;
        break;
      }
      next := next * 2;
    }
    var grown := new Octet[next];
    forall i | 0 <= i < dst.len {
      grown[i] := dst.store[i];
    }
    out := Slice(grown, dst.len);
    assert Contents(out) == old(Contents(dst));
  }

  /** What growing has cost so far, in bytes moved, for a buffer of capacity cap:
      nothing yet, or at most one buffer's worth, or less than two full ones. */
  predicate CopyBudget(copied: nat, cap: nat, target: nat) {
    copied == 0 || (copied <= cap <= target && READ_SIZE <= cap) || (cap == target && copied < 2 * target)
  }

  /** One turn of appendExactly's loop: make room, then read up to `step` bytes. */
  method AppendStep(dst: Slice, r: Body, step: nat, target: nat, copied: nat)
    returns (out: Slice, n: nat, moved: nat)
    requires Valid(dst) && r.Valid() && 0 < step && dst.len + step <= target <= MAX_INT
    requires CopyBudget(copied, dst.store.Length, target)
    modifies r, dst.store
    ensures Valid(out) && r.Valid() && (out.store == dst.store || fresh(out.store))
    ensures n == Min(step, |r.data| - old(r.pos)) && r.pos == old(r.pos) + n && out.len == dst.len + n
    ensures Contents(out) == old(Contents(dst)) + r.data[old(r.pos)..r.pos]
    ensures dst.store[..dst.len] == old(dst.store[..dst.len])
    ensures dst.store.Length <= out.store.Length <= Max(dst.store.Length, target)
    ensures CopyBudget(moved, out.store.Length, target)
  {
    var grown := GrowReadBuffer(dst, step, target);
    moved := if grown != dst then copied + dst.len else copied;
    var start := grown.len;
    n := r.ReadFull(grown.store, start, start + step);
    out := Slice(grown.store, start + n);
    assert grown.store[..start + n] == grown.store[..start] + grown.store[start..start + n];
  }

  /** Appends exactly `want` bytes, or reports how far it got. `copied` counts the
      bytes that growing moved. The bytes already in dst survive every outcome. */
  method AppendExactly(dst: Slice, r: Body, want: int) returns (out: Slice, ok: bool, copied: nat)
    requires Valid(dst) && r.Valid()
    modifies r, dst.store
    ensures Valid(out) && r.Valid() && (out.store == dst.store || fresh(out.store))
    ensures want < 0 || want > MAX_INT - dst.len ==>
      !ok && out == dst && Contents(out) == old(Contents(dst)) && r.pos == old(r.pos) && copied == 0
    ensures 0 <= want <= MAX_INT - dst.len ==>
      && r.pos == old(r.pos) + Min(want, |r.data| - old(r.pos))
      && Contents(out) == old(Contents(dst)) + r.data[old(r.pos)..r.pos]
      && (ok <==> out.len == dst.len + want)
      && out.store.Length <= Max(dst.store.Length, dst.len + want)
      && (copied == 0 || copied < 2 * (dst.len + want))
    ensures dst.store[..dst.len] == old(dst.store[..dst.len])
    ensures dst.store.Length <= out.store.Length
  {
    if want < 0 || want > MAX_INT - dst.len {
      return dst, false, 0;
    }
    var target := dst.len + want;
    out, copied := dst, 0;
    while out.len < target
      invariant Valid(out) && r.Valid() && (out.store == dst.store || fresh(out.store))
      invariant dst.len <= out.len <= target
      invariant old(r.pos) <= r.pos && out.len - dst.len == r.pos - old(r.pos)
      invariant Contents(out) == old(Contents(dst)) + r.data[old(r.pos)..r.pos]
      invariant dst.store[..dst.len] == old(dst.store[..dst.len])
      invariant dst.store.Length <= out.store.Length <= Max(dst.store.Length, target)
      invariant CopyBudget(copied, out.store.Length, target)
      decreases target - out.len
    {
      var step := Min(target - out.len, READ_SIZE);
      ghost var before := r.pos;
      var n;
      out, n, copied := AppendStep(out, r, step, target, copied);
      assert r.data[old(r.pos)..before] + r.data[before..r.pos] == r.data[old(r.pos)..r.pos];
      if n < step {
        return out, false, copied;
      }
    }
    return out, true, copied;
  }

  /** The bounded reserve of buffers the workers of a client share. */
  class Pool {
    var free: seq<array<Octet>>
    const cap: nat

    constructor (cap: nat)
      ensures free == [] && this.cap == cap
    {
      free := [];
      this.cap := cap;
    }

    /** An empty reusable buffer, or nil: a slice over a new array of length 0. */
    method Take() returns (s: Slice)
      modifies this
      ensures Valid(s) && s.len == 0
      ensures old(free) == [] ==> fresh(s.store) && s.store.Length == 0 && free == []
      ensures old(free) != [] ==> s.store == old(free)[0] && free == old(free)[1..]
    {
      if free != [] {
        s := Slice(free[0], 0);
        free := free[1..];
      } else {
        var nil := new Octet[0];
        s := Slice(nil, 0);
      }
    }

    /** Nil buffers, and those a full reserve has no room for, are dropped. */
    method Put(s: Slice)
      modifies this
      ensures free == if s.store.Length > 0 && |old(free)| < cap then old(free) + [s.store] else old(free)
    {
      if s.store.Length > 0 && |free| < cap {
        free := free + [s.store];
      }
    }
  }
}
