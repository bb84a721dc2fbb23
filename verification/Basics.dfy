/** Vocabulary shared by every module: optional values, octets, and the two
    facts about finite collections that the counting arguments rest on. */
module Basics {

  datatype Option<+T> = None | Some(value: T)

  /** One byte of a blob or of a request body. */
  newtype Octet = x: int | 0 <= x < 256

  /** Go's int64 bound, where the code relies on it. */
  const MAX_INT64: int := 0x7FFF_FFFF_FFFF_FFFF

  function Min(a: int, b: int): (m: int)
    ensures m <= a && m <= b && (m == a || m == b)
  {
    if a < b then a else b
  }

  function Max(a: int, b: int): (m: int)
    ensures m >= a && m >= b && (m == a || m == b)
  {
    if a < b then b else a
  }

  /** A sequence without repetitions is no longer than a set that contains it. */
  lemma {:induction false} DistinctFits<T>(q: seq<T>, s: set<T>)
    requires forall j, k :: 0 <= j < k < |q| ==> q[j] != q[k]
    requires forall j :: 0 <= j < |q| ==> q[j] in s
    ensures |q| <= |s|
  {
    if q != [] {
      var last := q[|q| - 1];
      DistinctFits(q[..|q| - 1], s - {last});
    }
  }

  /** A map whose domain is an interval has as many entries as the interval. */
  lemma {:induction false} IntervalSize<V>(m: map<nat, V>, lo: nat, hi: nat)
    requires lo <= hi
    requires forall i: nat :: i in m <==> lo <= i < hi
    ensures |m| == hi - lo
    decreases hi
  {
    if lo == hi {
      assert m == map[];
    } else {
      var rest := m - {hi - 1};
      IntervalSize(rest, lo, hi - 1);
      assert m.Keys == rest.Keys + {hi - 1};
    }
  }

  /** Removing the head of a queue removes exactly one occurrence. */
  lemma TailMembers<T>(q: seq<T>)
    requires q != []
    ensures forall x :: x in q <==> x == q[0] || x in q[1..]
  {
    assert q == [q[0]] + q[1..];
  }

  lemma Associate<T>(a: seq<T>, b: seq<T>, c: seq<T>)
    ensures a + (b + c) == (a + b) + c
  {}
}
