/** Integer widths, options and sequence vocabulary shared by every module. */
module Prelude {
  datatype Option<+T> = None | Some(value: T) {
    function GetOr(default: T): T {
      match this
      case Some(v) => v
      case None => default
    }
  }

  const U32_MAX: nat := 0xFFFF_FFFF
  const U64_MAX: nat := 0xFFFF_FFFF_FFFF_FFFF
  const I64_SPAN: int := 0x8000_0000_0000_0000
  // 64-bit targets.
  const USIZE_MAX: nat := U64_MAX

  type u64 = n: nat | n <= U64_MAX

  type byte = b: nat | b < 256

  function Min(a: nat, b: nat): nat { if a <= b then a else b }

  // u64::saturating_sub
  function SatSub(a: nat, b: nat): nat { if a >= b then a - b else 0 }

  ghost predicate NoDup<T>(q: seq<T>) {
    forall i, j | 0 <= i < j < |q| :: q[i] != q[j]
  }

  // One pass of a hash container's iterator: every element once, in some order.
  ghost predicate Enumerates<T(!new)>(q: seq<T>, elems: set<T>) {
    NoDup(q) && forall x :: x in q <==> x in elems
  }

  function Position<T(==)>(q: seq<T>, x: T): (r: Option<nat>)
    ensures r.None? ==> x !in q
    ensures r.Some? ==> r.value < |q| && q[r.value] == x && x !in q[..r.value]
  {
    if q == [] then None
    else if q[0] == x then Some(0)
    else
      var rest := Position(q[1..], x);
      if rest.Some? then
        assert q[..rest.value + 1] == [q[0]] + q[1..][..rest.value];
        Some(rest.value + 1)
      else None
  }

  lemma {:induction false} PositionAt<T>(a: seq<T>, x: T, b: seq<T>)
    requires x !in a
    ensures Position(a + [x] + b, x) == Some(|a|)
  {
    if a != [] {
      PositionAt(a[1..], x, b);
      assert (a + [x] + b)[1..] == a[1..] + [x] + b;
    }
  }

  // VecDeque::remove at the first occurrence, if any.
  function Without<T(==)>(q: seq<T>, x: T): seq<T> {
    match Position(q, x)
    case Some(i) => q[..i] + q[i + 1..]
    case None => q
  }

  lemma SubsetIsSmaller<T>(a: set<T>, b: set<T>)
    requires a <= b
    ensures |a| <= |b|
  {
    assert b == a + (b - a);
  }
}
