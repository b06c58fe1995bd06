/** The sliding replay window: one 64-bit word that stands for the set of accepted sequence numbers. */
module Replay {
  import opened Wire

  const MAX_SEQUENCE: u64 := 0xffff_ffff_ffff_ffff

  datatype Window = Window(highest: u64, bits: bv64)

  function Fresh(): Window { Window(0, 0) }

  // ----- the word -----

  predicate Bit(w: bv64, i: bv7)
    requires i < 64
  {
    (w >> i) & 1 == 1
  }

  function Shl(w: bv64, d: bv7): bv64
    requires d < 64
  {
    w << d
  }

  /** Go shifts everything out when the distance is 64 or more. */
  function ShiftBy(w: bv64, distance: nat): bv64 {
    if distance >= 64 then 0 else Shl(w, Index(distance))
  }

  function Index(i: nat): (b: bv7)
    requires i < 64
    ensures b < 64
  {
    i as bv7
  }

  predicate BitAt(w: bv64, i: nat)
    requires i < 64
  {
    Bit(w, Index(i))
  }

  function Or(w: bv64, i: bv7): bv64
    requires i < 64
  {
    w | ((1 as bv64) << i)
  }

  function SetBit(w: bv64, i: nat): bv64
    requires i < 64
  {
    Or(w, Index(i))
  }

  // ----- the window -----

  /** The sequence number expected next, saturating at the largest one. */
  function Expected(w: Window): (n: u64) {
    if w.bits == 0 then 0 else if w.highest == MAX_SEQUENCE then MAX_SEQUENCE else w.highest + 1
  }

  function Accept(w: Window, n: u64): (r: (Window, bool)) {
    if w.bits == 0 then (Window(n, 1), true)
    else if n > w.highest then (Window(n, SetBit(ShiftBy(w.bits, n - w.highest), 0)), true)
    else if w.highest - n >= 64 || BitAt(w.bits, w.highest - n) then (w, false)
    else (Window(w.highest, SetBit(w.bits, w.highest - n)), true)
  }

  /** The word and the highest number stand for the set of accepted numbers. */
  ghost predicate Represents(w: Window, accepted: set<int>) {
    && (w.bits == 0 <==> accepted == {})
    && (accepted != {} ==> w.highest in accepted)
    && (forall n :: n in accepted ==> n <= w.highest)
    && (accepted != {} ==> forall i: nat :: i < 64 ==> (BitAt(w.bits, i) <==> w.highest - i in accepted))
  }

  /** Never accepted before, and above the highest accepted number or less than 64 below it. */
  ghost predicate Acceptable(accepted: set<int>, n: int) {
    && n !in accepted
    && (accepted == {} || (exists m :: m in accepted && n > m - 64 && forall x :: x in accepted ==> x <= m))
  }

  // ----- facts about the word -----

  lemma StepLowest(w: bv64, d: bv7)
    requires 0 < d < 8
    ensures Shl(w, d) == Shl(Shl(w, d - 1), 1)
  {
  }

  lemma StepLow(w: bv64, d: bv7)
    requires 8 <= d < 16
    ensures Shl(w, d) == Shl(Shl(w, d - 1), 1)
  {
  }

  lemma StepMiddle(w: bv64, d: bv7)
    requires 16 <= d < 32
    ensures Shl(w, d) == Shl(Shl(w, d - 1), 1)
  {
  }

  lemma StepHigh(w: bv64, d: bv7)
    requires 32 <= d < 64
    ensures Shl(w, d) == Shl(Shl(w, d - 1), 1)
  {
  }

  lemma ShiftStep(w: bv64, d: bv7)
    requires 0 < d < 64
    ensures Shl(w, d) == Shl(Shl(w, d - 1), 1)
  {
    hide Shl;
    if d < 8 {
      StepLowest(w, d);
    } else if d < 16 {
      StepLow(w, d);
    } else if d < 32 {
      StepMiddle(w, d);
    } else {
      StepHigh(w, d);
    }
  }

  lemma ShiftOne(w: bv64, i: bv7)
    requires i < 64
    ensures Bit(Shl(w, 1), i) == (i > 0 && Bit(w, i - 1))
  {
  }

  lemma ShiftNone(w: bv64)
    ensures Shl(w, 0) == w
  {
  }

  lemma Smaller(i: bv7, d: bv7)
    requires i > 0 && d > 0
    ensures (i >= d <==> i - 1 >= d - 1) && (i - 1) - (d - 1) == i - d
  {
  }

  function Value(b: bv7): nat { b as int }

  lemma Counts(d: bv7)
    requires d > 0
    ensures Value(d - 1) == Value(d) - 1
  {
  }

  lemma Order(i: bv7, d: bv7)
    ensures i >= d <==> Value(i) >= Value(d)
  {
  }

  lemma Unmoved(i: bv7)
    ensures Value(0) == 0 && i - 0 == i
  {
  }

  lemma {:induction false} Difference(i: bv7, d: bv7)
    requires i >= d
    ensures Value(i - d) == Value(i) - Value(d)
    decreases Value(d)
  {
    hide Value;
    if d == 0 {
      Unmoved(i);
    } else {
      Counts(d);
      Counts(i);
      Smaller(i, d);
      Difference(i - 1, d - 1);
    }
  }

  lemma Back(x: bv7)
    ensures Value(x) < 128 && Value(x) as bv7 == x
  {
  }

  /** Shifting by d moves bit i - d to bit i and clears the d lowest bits. */
  lemma {:induction false} ShiftBits(w: bv64, d: bv7, i: bv7)
    requires d < 64 && i < 64
    ensures Bit(Shl(w, d), i) == (i >= d && Bit(w, i - d))
    decreases Value(d)
  {
    hide Shl, Bit, Value;
    if d == 0 {
      ShiftNone(w);
    } else {
      ShiftStep(w, d);
      ShiftOne(Shl(w, d - 1), i);
      Counts(d);
      if i > 0 {
        Smaller(i, d);
        ShiftBits(w, d - 1, i - 1);
      }
    }
  }

  lemma IndexValue(i: nat)
    requires i < 64
    ensures Value(Index(i)) == i
  {
  }

  lemma FromValue(i: nat, b: bv7)
    requires i < 64 && Value(b) == i
    ensures Index(i) == b
  {
    Back(b);
  }

  lemma IndexDifference(i: nat, d: nat)
    requires i < 64 && d < 64
    ensures Index(i) >= Index(d) <==> i >= d
    ensures i >= d ==> Index(i - d) == Index(i) - Index(d)
  {
    hide Index, Value;
    IndexValue(i);
    IndexValue(d);
    Order(Index(i), Index(d));
    if i >= d {
      DifferenceIs(Index(i), Index(d), i - d);
    }
  }

  lemma DifferenceIs(a: bv7, b: bv7, k: nat)
    requires b <= a < 64 && Value(a) - Value(b) == k < 64
    ensures Index(k) == a - b
  {
    hide Index, Value;
    Difference(a, b);
    FromValue(k, a - b);
  }

  lemma ShiftAt(w: bv64, d: nat, i: nat)
    requires d < 64 && i < 64
    ensures BitAt(ShiftBy(w, d), i) == (i >= d && BitAt(w, i - d))
  {
    hide Shl, Bit, Index;
    ShiftBits(w, Index(d), Index(i));
    IndexDifference(i, d);
  }

  lemma OrBits(w: bv64, d: bv7, i: bv7)
    requires d < 64 && i < 64
    ensures Bit(Or(w, d), i) == (i == d || Bit(w, i)) && Or(w, d) != 0
  {
  }

  lemma SetAt(w: bv64, d: nat, i: nat)
    requires d < 64 && i < 64
    ensures BitAt(SetBit(w, d), i) == (i == d || BitAt(w, i)) && SetBit(w, d) != 0
  {
    hide Or, Bit, Index, Value;
    OrBits(w, Index(d), Index(i));
    IndexValue(i);
    IndexValue(d);
  }

  lemma NoBits(i: bv7)
    requires i < 64
    ensures !Bit(0, i) && Bit(1, i) == (i == 0)
  {
  }

  lemma NothingAt(i: nat)
    requires i < 64
    ensures !BitAt(0, i) && BitAt(1, i) == (i == 0)
  {
    IndexValue(0);
    IndexValue(i);
    assert Index(0) == 0;
    hide Bit, Index;
    NoBits(Index(i));
  }

  // ----- one call -----

  lemma AcceptFirst(w: Window, n: u64)
    requires w.bits == 0 && Represents(w, {})
    ensures Represents(Accept(w, n).0, {n as int})
  {
    hide BitAt;
    forall i: nat | i < 64 ensures BitAt(1, i) <==> n - i in {n as int} { NothingAt(i); }
  }

  lemma AcceptAbove(w: Window, accepted: set<int>, n: u64)
    requires w.bits != 0 && Represents(w, accepted) && n > w.highest
    ensures Represents(Accept(w, n).0, accepted + {n as int})
  {
    hide BitAt, SetBit, Shl;
    var d := n - w.highest;
    var shifted := ShiftBy(w.bits, d);
    SetAt(shifted, 0, 0);
    forall i: nat | i < 64 ensures BitAt(SetBit(shifted, 0), i) <==> n - i in accepted + {n as int} {
      SetAt(shifted, 0, i);
      if d < 64 { ShiftAt(w.bits, d, i); } else { NothingAt(i); }
    }
  }

  lemma AcceptBelow(w: Window, accepted: set<int>, n: u64)
    requires w.bits != 0 && Represents(w, accepted) && n <= w.highest && w.highest - n < 64
    ensures BitAt(w.bits, w.highest - n) <==> n in accepted
    ensures n !in accepted ==> Represents(Accept(w, n).0, accepted + {n as int})
  {
    hide BitAt, SetBit;
    var at: nat := w.highest - n;
    assert BitAt(w.bits, at) <==> w.highest - at in accepted;
    if n !in accepted {
      SetAt(w.bits, at, 0);
      forall i: nat | i < 64 ensures BitAt(SetBit(w.bits, at), i) <==> w.highest - i in accepted + {n as int} {
        SetAt(w.bits, at, i);
      }
    }
  }

  /** One call accepts exactly the acceptable numbers and then stands for one number more. */
  lemma AcceptRefines(w: Window, accepted: set<int>, n: u64)
    requires Represents(w, accepted)
    ensures var (next, ok) := Accept(w, n);
      (ok <==> Acceptable(accepted, n)) && Represents(next, if ok then accepted + {n as int} else accepted)
  {
    hide BitAt, SetBit, ShiftBy;
    if w.bits == 0 {
      AcceptFirst(w, n);
    } else if n > w.highest {
      AcceptAbove(w, accepted, n);
    } else if w.highest - n < 64 {
      AcceptBelow(w, accepted, n);
    }
  }

  /** A new window expects 0. Accepting a number at or past the one expected makes its successor the next, as far as there is one;
      nothing else moves it. */
  lemma ExpectedFollows(w: Window, accepted: set<int>, n: u64)
    requires Represents(w, accepted)
    ensures Expected(Fresh()) == 0
    ensures var next := Accept(w, n).0;
      && (Acceptable(accepted, n) && n >= Expected(w) ==> Expected(next) == if n < MAX_SEQUENCE then n + 1 else n)
      && (!(Acceptable(accepted, n) && n >= Expected(w)) ==> Expected(next) == Expected(w))
  {
    AcceptRefines(w, accepted, n);
    hide BitAt, SetBit, ShiftBy, Acceptable;
  }

  // ----- whole runs -----

  function Accepts(w: Window, calls: seq<u64>): (results: seq<bool>)
    ensures |results| == |calls|
    decreases |calls|
  {
    if calls == [] then [] else [Accept(w, calls[0]).1] + Accepts(Accept(w, calls[0]).0, calls[1..])
  }

  /** The plain set: what a list of calls is answered, and what has been accepted before call i. */
  ghost function Before(calls: seq<u64>, results: seq<bool>, i: nat): set<int>
    requires |results| == |calls| && i <= |calls|
  {
    set k | 0 <= k < i && results[k] :: calls[k] as int
  }

  lemma {:induction false} RunRefines(w: Window, accepted: set<int>, calls: seq<u64>, i: nat)
    requires Represents(w, accepted) && i < |calls|
    ensures Accepts(w, calls)[i] <==> Acceptable(accepted + Before(calls, Accepts(w, calls), i), calls[i])
    decreases |calls|
  {
    hide Represents, Accept, Acceptable;
    AcceptRefines(w, accepted, calls[0]);
    var (next, ok) := Accept(w, calls[0]);
    var later := if ok then accepted + {calls[0] as int} else accepted;
    var results := Accepts(w, calls);
    if i == 0 {
      assert Before(calls, results, 0) == {};
      assert accepted + {} == accepted;
    } else {
      RunRefines(next, later, calls[1..], i - 1);
      var rest := Accepts(next, calls[1..]);
      assert results == [ok] + rest;
      assert accepted + Before(calls, results, i) == later + Before(calls[1..], rest, i - 1) by {
        forall x ensures x in accepted + Before(calls, results, i) <==> x in later + Before(calls[1..], rest, i - 1) {
          BeforeStep(calls, results, rest, ok, i, x);
        }
      }
    }
  }

  lemma BeforeStep(calls: seq<u64>, results: seq<bool>, rest: seq<bool>, ok: bool, i: nat, x: int)
    requires 0 < i < |calls| && |rest| == |calls| - 1 && results == [ok] + rest
    ensures x in Before(calls, results, i) <==> (ok && x == calls[0]) || x in Before(calls[1..], rest, i - 1)
  {
    if x in Before(calls, results, i) {
      var k :| 0 <= k < i && results[k] && calls[k] == x;
      if k > 0 { assert rest[k - 1] && calls[1..][k - 1] == x; }
    }
    if x in Before(calls[1..], rest, i - 1) {
      var k :| 0 <= k < i - 1 && rest[k] && calls[1..][k] == x;
      assert results[k + 1] && calls[k + 1] == x;
    }
    if ok && x == calls[0] { assert results[0] && calls[0] == x; }
  }

  /** In any run each call is answered as a plain set of the numbers accepted so far would answer it. */
  lemma WindowRefinesSet(calls: seq<u64>, i: nat)
    requires i < |calls|
    ensures var results := Accepts(Fresh(), calls);
      results[i] <==> Acceptable(Before(calls, results, i), calls[i])
  {
    RunRefines(Fresh(), {}, calls, i);
    assert {} + Before(calls, Accepts(Fresh(), calls), i) == Before(calls, Accepts(Fresh(), calls), i);
  }

  class ReplayWindow {
    var highest: u64
    var bits: bv64
    ghost var accepted: set<int>

    ghost predicate Valid()
      reads this
    {
      Represents(State(), accepted)
    }

    constructor ()
      ensures Valid() && accepted == {} && State() == Fresh()
    {
      highest, bits, accepted := 0, 0, {};
    }

    function State(): Window
      reads this
    {
      Window(highest, bits)
    }

    /** Answers as the set of all numbers it ever accepted would: yes exactly to a new one that is not 64 or more below the highest. */
    method Admit(n: u64) returns (ok: bool)
      requires Valid()
      modifies this
      ensures Valid() && (ok <==> old(Acceptable(accepted, n)))
      ensures accepted == if ok then old(accepted) + {n as int} else old(accepted)
      ensures !ok ==> State() == old(State())
      ensures State() == old(Accept(State(), n).0)
      ensures Expected(State()) == old(if Acceptable(accepted, n) && n >= Expected(State())
                                       then if n < MAX_SEQUENCE then n + 1 else n else Expected(State()))
    {
      hide BitAt, SetBit, ShiftBy;
      AcceptRefines(State(), accepted, n);
      ExpectedFollows(State(), accepted, n);
      hide Represents, Acceptable;
      ok := true;
      if bits == 0 {
        highest, bits := n, 1;
      } else if n > highest {
        bits := SetBit(ShiftBy(bits, n - highest), 0);
        highest := n;
      } else {
        var distance := highest - n;
        if distance >= 64 || BitAt(bits, distance) { return false; }
        bits := SetBit(bits, distance);
      }
      accepted := accepted + {n as int};
    }
  }
}
