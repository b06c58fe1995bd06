/** Bitmaps with one bit per body byte, least significant bit first, and the sets of byte positions they stand for. */
module Bitmap {

  function Empty(n: nat): (bits: seq<bv8>) {
    seq((n + 7) / 8, _ => 0)
  }

  predicate Has(bits: seq<bv8>, i: nat)
    requires i < 8 * |bits|
  {
    bits[i / 8] & ((1 as bv8) << (i % 8)) != 0
  }

  function Mark(bits: seq<bv8>, i: nat): (r: seq<bv8>)
    requires i < 8 * |bits|
    ensures |r| == |bits|
  {
    bits[i / 8 := bits[i / 8] | ((1 as bv8) << (i % 8))]
  }

  /** The positions below n whose bit is set. */
  ghost function Bits(bits: seq<bv8>, n: nat): (s: set<nat>)
    requires n <= 8 * |bits|
  {
    if n == 0 then {} else Bits(bits, n - 1) + if Has(bits, n - 1) then {n - 1} else {}
  }

  ghost function Range(start: nat, end: nat): (s: set<nat>)
    ensures forall i: nat :: i in s <==> start <= i < end
  {
    if start >= end then {} else Range(start, end - 1) + {end - 1}
  }

  lemma {:induction false} HasBits(bits: seq<bv8>, i: nat, n: nat)
    requires n <= 8 * |bits| && i < 8 * |bits|
    ensures i in Bits(bits, n) <==> i < n && Has(bits, i)
  {
    hide Has;
    if n > 0 { HasBits(bits, i, n - 1); }
  }

  lemma {:induction false} EmptyBits(n: nat, k: nat)
    requires k <= n
    ensures Bits(Empty(n), k) == {}
  {
    if k > 0 { EmptyBits(n, k - 1); }
  }

  lemma {:induction false} MarkBits(bits: seq<bv8>, i: nat, n: nat)
    requires i < 8 * |bits| && n <= 8 * |bits|
    ensures Bits(Mark(bits, i), n) == Bits(bits, n) + if i < n then {i} else {}
  {
    hide Has, Mark;
    if n > 0 {
      MarkBits(bits, i, n - 1);
      MarkHas(bits, i, n - 1);
    }
  }

  lemma {:induction false} BitsBelow(bits: seq<bv8>, n: nat)
    requires n <= 8 * |bits|
    ensures Bits(bits, n) <= Range(0, n)
  {
    if n > 0 { BitsBelow(bits, n - 1); }
  }

  lemma MarkHas(bits: seq<bv8>, i: nat, j: nat)
    requires i < 8 * |bits| && j < 8 * |bits|
    ensures Has(Mark(bits, i), j) == (i == j || Has(bits, j))
  {
  }

  lemma {:induction false} RangeSize(start: nat, end: nat)
    requires start <= end
    ensures |Range(start, end)| == end - start
    decreases end
  {
    if start < end {
      RangeSize(start, end - 1);
    }
  }

  /** A set of positions below n has at most n elements, and exactly n only when it is all of them. */
  lemma FullOrSmaller(s: set<nat>, n: nat)
    requires s <= Range(0, n)
    ensures |s| <= n
    ensures |s| == n <==> s == Range(0, n)
  {
    RangeSize(0, n);
    var missing := Range(0, n) - s;
    assert s + missing == Range(0, n);
  }

  lemma Adding(s: set<nat>, r: set<nat>)
    ensures |s| <= |s + r|
    ensures |s| == |s + r| <==> r <= s
  {
    assert s + r == s + (r - s);
    if r <= s { assert r - s == {}; } else { var i :| i in r - s; }
  }

  /** Sets the bits of a run one by one and counts those that were clear. */
  method MarkRun(bits: seq<bv8>, start: nat, end: nat, n: nat) returns (r: seq<bv8>, added: nat)
    requires start <= end <= n <= 8 * |bits|
    ensures |r| == |bits| && Bits(r, n) == Bits(bits, n) + Range(start, end)
    ensures added == |Bits(r, n)| - |Bits(bits, n)|
    ensures added == 0 <==> Range(start, end) <= Bits(bits, n)
  {
    hide Has, Bits, Mark;
    ghost var before := Bits(bits, n);
    r, added := bits, 0;
    var i := start;
    while i < end
      invariant start <= i <= end && |r| == |bits|
      invariant Bits(r, n) == before + Range(start, i)
      invariant added == |Bits(r, n)| - |before|
    {
      HasBits(r, i, n);
      MarkBits(r, i, n);
      if !Has(r, i) {
        r, added := Mark(r, i), added + 1;
      }
      i := i + 1;
      assert Range(start, i) == Range(start, i - 1) + {i - 1};
    }
    Adding(before, Range(start, end));
  }
}
