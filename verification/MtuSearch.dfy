/** The loss-tolerant interval search for a path's largest datagram. */
module MtuSearch {
  import opened Wire

  const MAX_DIFF := 20
  const MAX_PROBES := 24
  const INVALID := -1

  /** lost holds up to three lost sizes in ascending order, the search's first ceiling counting as one, then INVALID. */
  datatype Finder = Finder(floor: int, lost: seq<int>, lastLost: bool, probes: nat)

  function Init(start: int, ceiling: int): Finder {
    var floor := if start < 1 then 1 else start;
    Finder(floor, [if ceiling < floor then floor else ceiling, INVALID, INVALID], false, 0)
  }

  function Ceiling(f: Finder): int
    requires |f.lost| == 3
  {
    if f.lost[0] == INVALID then f.floor
    else if f.lost[1] == INVALID then f.lost[0]
    else if f.lost[2] == INVALID then f.lost[1]
    else f.lost[2]
  }

  /** The interval is as narrow as the search goes. */
  predicate Narrow(f: Finder)
    requires |f.lost| == 3
  {
    Ceiling(f) - f.floor <= MAX_DIFF + 1
  }

  predicate Done(f: Finder)
    requires |f.lost| == 3
  {
    Narrow(f) || f.probes >= MAX_PROBES
  }

  function NextSize(f: Finder): int
    requires |f.lost| == 3
  {
    if Done(f) then 0
    else
      var middle := if f.lastLost then (f.floor + f.lost[0]) / 2 else (f.floor + Ceiling(f)) / 2;
      var up := if middle <= f.floor then f.floor + 1 else middle;
      var size := if up >= Ceiling(f) && Ceiling(f) > f.floor then Ceiling(f) - 1 else up;
      if size <= f.floor || size > Ceiling(f) then 0 else size
  }

  /** The first position whose entry exceeds size, or 3. */
  function Above(lost: seq<int>, size: int): (i: nat)
    requires |lost| == 3
    ensures i <= 3
  {
    if size < lost[0] then 0 else if size < lost[1] then 1 else if size < lost[2] then 2 else 3
  }

  function Dropped(lost: seq<int>, j: nat): (r: seq<int>)
    requires |lost| == 3
    ensures |r| == 3
  {
    if j == 1 then [lost[1], lost[2], INVALID] else if j == 2 then [lost[2], INVALID, INVALID] else lost
  }

  function OnAcked(f: Finder, size: int): Finder
    requires |f.lost| == 3
  {
    var j := Above(f.lost, size);
    f.(floor := if size > f.floor then size else f.floor, lastLost := false, lost := if j == 3 then f.lost else Dropped(f.lost, j))
  }

  function OnLost(f: Finder, size: int): (g: Finder)
    requires |f.lost| == 3
    ensures |g.lost| == 3
  {
    var i := Above(f.lost, size);
    f.(lastLost := true,
       lost := if i == 0 then [size, f.lost[0], f.lost[1]] else if i == 1 then [f.lost[0], size, f.lost[1]]
               else if i == 2 then [f.lost[0], f.lost[1], size] else f.lost)
  }

  function RejectHard(f: Finder, size: int): Finder
    requires |f.lost| == 3
  {
    OnLost(OnLost(OnLost(f, size), size), size)
  }

  // ----- invariant -----

  /** Entries ascend from the floor up; at least one is there, and those that are not come last. */
  predicate Ordered(f: Finder) {
    && |f.lost| == 3 && 1 <= f.floor <= f.lost[0]
    && (f.lost[1] == INVALID || f.lost[0] <= f.lost[1])
    && (f.lost[2] == INVALID || (f.lost[1] != INVALID && f.lost[1] <= f.lost[2]))
  }

  lemma InitOrdered(start: int, ceiling: int)
    ensures Ordered(Init(start, ceiling)) && Init(start, ceiling).floor >= start
  {
  }

  /** While the search goes on, the next size is strictly inside the interval, halfway from the floor to the ceiling or, after a loss,
      to the smallest size lost. */
  lemma NextSizeInside(f: Finder)
    requires Ordered(f)
    ensures Done(f) <==> NextSize(f) == 0
    ensures !Done(f) ==> f.floor < NextSize(f) < Ceiling(f)
    ensures !Done(f) ==>
      var top := if f.lastLost then f.lost[0] else Ceiling(f);
      if top < f.floor + 2 then NextSize(f) == f.floor + 1 else 0 <= f.floor + top - 2 * NextSize(f) <= 1
  {
  }

  lemma LostKeeps(f: Finder, size: int)
    requires Ordered(f) && f.floor <= size
    ensures Ordered(OnLost(f, size)) && Ceiling(OnLost(f, size)) <= Ceiling(f)
  {
  }

  /** An acknowledgement keeps the entries above the floor exactly when its size was below the ceiling, or below every entry. */
  lemma AckedKeeps(f: Finder, size: int)
    requires Ordered(f)
    ensures Ordered(OnAcked(f, size)) <==> size < Ceiling(f) || size <= f.lost[0]
    ensures size < Ceiling(f) ==> Ceiling(OnAcked(f, size)) == Ceiling(f)
  {
  }

  /** A hard rejection brings the ceiling down to the rejected size exactly when that size is below it. */
  lemma RejectKeeps(f: Finder, size: int)
    requires Ordered(f) && f.floor <= size
    ensures Ordered(RejectHard(f, size))
    ensures Ceiling(RejectHard(f, size)) == if size < Ceiling(f) then size else Ceiling(f)
  {
  }

  // ----- progress -----

  datatype Outcome = Acked | Lost | Refused

  /** One probe of the given size and what became of it; a refused one was never sent. */
  function Probe(f: Finder, size: int, outcome: Outcome): Finder
    requires |f.lost| == 3
  {
    match outcome
    case Acked => OnAcked(f.(probes := f.probes + 1), size)
    case Lost => OnLost(f.(probes := f.probes + 1), size)
    case Refused => RejectHard(f, size)
  }

  function Measure(f: Finder): int
    requires |f.lost| == 3
  {
    MAX_PROBES - f.probes + Ceiling(f) - f.floor
  }

  /** Every outcome of a probe above the floor makes progress, except a refusal at or above the ceiling, which changes nothing. */
  lemma ProbeProgress(f: Finder, size: int, outcome: Outcome)
    requires Ordered(f) && f.floor < size
    ensures Measure(Probe(f, size, outcome)) < Measure(f) <==> !(outcome.Refused? && size >= Ceiling(f))
  {
  }

  // ----- a whole search on a path that carries exactly the sizes up to P -----

  /** Probes are never smaller than the smallest probe there is. */
  function Asked(f: Finder, min: int): int
    requires |f.lost| == 3
  {
    if NextSize(f) < min then min else NextSize(f)
  }

  /** The path gives no acknowledgement above its size and no refusal within it. */
  predicate Possible(size: int, outcome: Outcome, path: int) {
    (outcome.Acked? ==> size <= path) && (outcome.Refused? ==> size > path)
  }

  function Spurious(size: int, outcome: Outcome, path: int): nat {
    if outcome.Lost? && size <= path then 1 else 0
  }

  /** The finder after the outcomes of successive probes, and how many losses were spurious; None if the path cannot behave so. */
  function Search(f: Finder, min: int, path: int, spurious: nat, outcomes: seq<Outcome>): (r: Option<(Finder, nat)>)
    requires |f.lost| == 3
    ensures r.Some? ==> |r.value.0.lost| == 3
    decreases |outcomes|
  {
    if outcomes == [] then Some((f, spurious))
    else if Done(f) || !Possible(Asked(f, min), outcomes[0], path) then None
    else Search(Probe(f, Asked(f, min), outcomes[0]), min, path, spurious + Spurious(Asked(f, min), outcomes[0], path), outcomes[1..])
  }

  function BadAt(lost: seq<int>, i: nat, q: int): nat
    requires |lost| == 3 && i < 3
  {
    if lost[i] != INVALID && lost[i] <= q then 1 else 0
  }

  /** Entries that a loss-free path would not have produced. */
  function Bad(f: Finder, q: int): nat
    requires |f.lost| == 3
  {
    BadAt(f.lost, 0, q) + BadAt(f.lost, 1, q) + BadAt(f.lost, 2, q)
  }

  /** q is the largest size that could be found; the ceiling stays above it while at most two losses were spurious. */
  predicate Searching(f: Finder, start: int, min: int, path: int, first: int, q: int, spurious: nat) {
    && Ordered(f) && min <= f.lost[0] && q == (if path < first - 1 then path else first - 1)
    && Ceiling(f) <= first && Ceiling(f) > q && Bad(f, q) <= spurious
    && start <= f.floor && (f.floor == start || f.floor <= path) && f.probes <= MAX_PROBES
  }

  lemma AckKeepsSearching(f: Finder, start: int, min: int, path: int, first: int, q: int, spurious: nat, size: int)
    requires Searching(f, start, min, path, first, q, spurious) && f.floor < size <= path && (size < Ceiling(f) || size <= f.lost[0])
    ensures Searching(OnAcked(f, size), start, min, path, first, q, spurious)
  {
    AckedKeeps(f, size);
  }

  lemma LossKeepsSearching(f: Finder, start: int, min: int, path: int, first: int, q: int, spurious: nat, size: int)
    requires Searching(f, start, min, path, first, q, spurious) && f.floor < size && min <= size
    requires spurious + Spurious(size, Lost, path) <= 2
    ensures Searching(OnLost(f, size), start, min, path, first, q, spurious + Spurious(size, Lost, path))
  {
    LostKeeps(f, size);
  }

  lemma RefusalKeepsSearching(f: Finder, start: int, min: int, path: int, first: int, q: int, spurious: nat, size: int)
    requires Searching(f, start, min, path, first, q, spurious) && f.floor < size && min <= size && size > path
    ensures Searching(RejectHard(f, size), start, min, path, first, q, spurious)
  {
    RejectKeeps(f, size);
  }

  lemma AskedInside(f: Finder, start: int, min: int, path: int, first: int, q: int, spurious: nat)
    requires Searching(f, start, min, path, first, q, spurious) && !Done(f)
    ensures |f.lost| == 3
    ensures var size := Asked(f, min); f.floor < size && min <= size && (size < Ceiling(f) || size <= f.lost[0])
    ensures Searching(f.(probes := f.probes + 1), start, min, path, first, q, spurious)
    ensures Ceiling(f.(probes := f.probes + 1)) == Ceiling(f)
  {
    hide NextSize, BadAt;
    NextSizeInside(f);
  }

  lemma ProbeKeepsSearching(f: Finder, start: int, min: int, path: int, first: int, q: int, spurious: nat, outcome: Outcome)
    requires Searching(f, start, min, path, first, q, spurious) && !Done(f) && Possible(Asked(f, min), outcome, path)
    requires spurious + Spurious(Asked(f, min), outcome, path) <= 2
    ensures Searching(Probe(f, Asked(f, min), outcome), start, min, path, first, q, spurious + Spurious(Asked(f, min), outcome, path))
  {
    hide Asked, OnAcked, OnLost, RejectHard, Searching, Ceiling, Done;
    AskedInside(f, start, min, path, first, q, spurious);
    var size, counted := Asked(f, min), f.(probes := f.probes + 1);
    match outcome
    case Acked => AckKeepsSearching(counted, start, min, path, first, q, spurious, size);
    case Lost => LossKeepsSearching(counted, start, min, path, first, q, spurious, size);
    case Refused => RefusalKeepsSearching(f, start, min, path, first, q, spurious, size);
  }

  lemma {:induction false} SearchKeeps(f: Finder, start: int, min: int, path: int, first: int, q: int, spurious: nat, outcomes: seq<Outcome>)
    requires Searching(f, start, min, path, first, q, spurious)
    requires Search(f, min, path, spurious, outcomes).Some? && Search(f, min, path, spurious, outcomes).value.1 <= 2
    ensures var (g, n) := Search(f, min, path, spurious, outcomes).value; Searching(g, start, min, path, first, q, n)
    decreases |outcomes|
  {
    if outcomes != [] {
      var n := spurious + Spurious(Asked(f, min), outcomes[0], path);
      var g := Probe(f, Asked(f, min), outcomes[0]);
      SpuriousGrows(g, min, path, n, outcomes[1..]);
      ProbeKeepsSearching(f, start, min, path, first, q, spurious, outcomes[0]);
      hide Asked, Probe, Searching, Ordered;
      SearchKeeps(g, start, min, path, first, q, n, outcomes[1..]);
    }
  }

  lemma {:induction false} SpuriousGrows(f: Finder, min: int, path: int, spurious: nat, outcomes: seq<Outcome>)
    requires |f.lost| == 3 && Search(f, min, path, spurious, outcomes).Some?
    ensures spurious <= Search(f, min, path, spurious, outcomes).value.1
    decreases |outcomes|
  {
    hide Asked, Done;
    if outcomes != [] {
      SpuriousGrows(Probe(f, Asked(f, min), outcomes[0]), min, path, spurious + Spurious(Asked(f, min), outcomes[0], path), outcomes[1..]);
    }
  }

  /** A search with at most two spurious losses that narrows its interval ends within twenty bytes of the largest size it could find,
      on its first size or one that the path carried. */
  lemma SearchFindsThePath(start: int, ceiling: int, min: int, path: int, outcomes: seq<Outcome>)
    requires min <= Ceiling(Init(start, ceiling)) && Search(Init(start, ceiling), min, path, 0, outcomes).Some?
    requires Search(Init(start, ceiling), min, path, 0, outcomes).value.1 <= 2
    ensures var f := Init(start, ceiling);
      var g := Search(f, min, path, 0, outcomes).value.0;
      && Ordered(g) && f.floor <= g.floor && (g.floor == f.floor || g.floor <= path)
      && (Narrow(g) ==> (if path < Ceiling(f) - 1 then path else Ceiling(f) - 1) - g.floor <= MAX_DIFF)
  {
    var f := Init(start, ceiling);
    InitOrdered(start, ceiling);
    var q := if path < Ceiling(f) - 1 then path else Ceiling(f) - 1;
    SearchKeeps(f, f.floor, min, path, Ceiling(f), q, 0, outcomes);
  }

  // ----- when a search ends -----

  /** A refusal changes nothing, so the next probe is the same again. */
  predicate Stalled(f: Finder, min: int)
    requires |f.lost| == 3
  {
    !Done(f) && RejectHard(f, Asked(f, min)).(lastLost := f.lastLost) == f
  }

  lemma StalledExactly(f: Finder, min: int)
    requires Ordered(f) && !Done(f)
    ensures Stalled(f, min) <==> min >= Ceiling(f)
  {
    hide NextSize;
    NextSizeInside(f);
    var size := Asked(f, min);
    RejectKeeps(f, size);
  }

  /** Progress, when the smallest probe is close to the floor. */
  lemma ProbeCounts(f: Finder, min: int, outcome: Outcome)
    requires Ordered(f) && !Done(f) && min <= f.lost[0] && min <= f.floor + MAX_DIFF + 1 && f.probes <= MAX_PROBES
    ensures var g := Probe(f, Asked(f, min), outcome);
      Ordered(g) && min <= g.lost[0] && f.floor <= g.floor && g.probes <= MAX_PROBES && Measure(g) < Measure(f)
  {
    NextSizeInside(f);
    ProbeOrdered(f, min, outcome);
    var size := Asked(f, min);
    assert f.floor < size && !(outcome.Refused? && size >= Ceiling(f));
    hide NextSize, Ordered, OnAcked, OnLost, RejectHard;
    ProbeProgress(f, size, outcome);
  }

  lemma {:induction false} SearchEnds(f: Finder, min: int, path: int, spurious: nat, outcomes: seq<Outcome>)
    requires Ordered(f) && min <= f.lost[0] && min <= f.floor + MAX_DIFF + 1 && f.probes <= MAX_PROBES
    requires Search(f, min, path, spurious, outcomes).Some?
    ensures var g := Search(f, min, path, spurious, outcomes).value.0;
      Ordered(g) && f.floor <= g.floor && g.probes <= MAX_PROBES && |outcomes| <= Measure(f) - Measure(g)
    decreases |outcomes|
  {
    hide Asked, Probe, Measure, Done;
    if outcomes != [] {
      ProbeCounts(f, min, outcomes[0]);
      var size := Asked(f, min);
      SearchEnds(Probe(f, size, outcomes[0]), min, path, spurious + Spurious(size, outcomes[0], path), outcomes[1..]);
    }
  }

  /** Entries stay above the floor as long as the smallest probe is no larger than the lowest of them. */
  lemma ProbeOrdered(f: Finder, min: int, outcome: Outcome)
    requires Ordered(f) && !Done(f) && min <= f.lost[0]
    ensures var g := Probe(f, Asked(f, min), outcome); Ordered(g) && min <= g.lost[0] && f.floor <= g.floor && g.probes <= f.probes + 1
  {
    hide NextSize;
    NextSizeInside(f);
    var size := Asked(f, min);
    match outcome
    case Acked => AckedKeeps(f.(probes := f.probes + 1), size);
    case Lost => LostKeeps(f.(probes := f.probes + 1), size);
    case Refused => RejectKeeps(f, size);
  }

  /** When the smallest probe is within 21 bytes of the first size, a search takes boundedly many probes, refused ones included. */
  lemma SearchIsBounded(start: int, ceiling: int, min: int, path: int, outcomes: seq<Outcome>)
    requires var f := Init(start, ceiling); min <= Ceiling(f) && min <= f.floor + MAX_DIFF + 1
    requires Search(Init(start, ceiling), min, path, 0, outcomes).Some?
    ensures var f := Init(start, ceiling); |outcomes| <= MAX_PROBES + Ceiling(f) - f.floor
  {
    InitOrdered(start, ceiling);
    SearchEnds(Init(start, ceiling), min, path, 0, outcomes);
  }

  /** When it is larger, a path that refuses everything above the first size makes the search stall. */
  lemma SearchCanStall(start: int, ceiling: int, min: int) returns (outcomes: seq<Outcome>)
    requires var f := Init(start, ceiling); f.floor + MAX_DIFF + 1 < min <= Ceiling(f)
    ensures var f := Init(start, ceiling);
      Search(f, min, f.floor, 0, outcomes).Some? && Stalled(Search(f, min, f.floor, 0, outcomes).value.0, min)
  {
    InitOrdered(start, ceiling);
    outcomes := Stalls(Init(start, ceiling), min, Init(start, ceiling).floor);
  }

  lemma {:induction false} Stalls(f: Finder, min: int, path: int) returns (outcomes: seq<Outcome>)
    requires Ordered(f) && f.probes < MAX_PROBES && path == f.floor && f.floor + MAX_DIFF + 1 < min <= Ceiling(f)
    ensures Search(f, min, path, 0, outcomes).Some? && Stalled(Search(f, min, path, 0, outcomes).value.0, min)
    decreases Ceiling(f)
  {
    hide NextSize;
    NextSizeInside(f);
    if min == Ceiling(f) {
      StalledExactly(f, min);
      outcomes := [];
    } else {
      var size := Asked(f, min);
      RejectKeeps(f, size);
      var rest := Stalls(RejectHard(f, size), min, path);
      outcomes := [Refused] + rest;
    }
  }

  // ----- the object -----

  class MtuFinder {
    var floor: int
    const lost: array<int>
    var lastLost: bool
    var probes: nat

    constructor (start: int, ceiling: int)
      ensures State() == Init(start, ceiling) && lost.Length == 3 && fresh(lost)
    {
      floor := if start < 1 then 1 else start;
      lastLost, probes := false, 0;
      lost := new int[3];
      new;
      lost[0] := if ceiling < floor then floor else ceiling;
      var i := 1;
      while i < lost.Length
        invariant 1 <= i <= 3 && lost[0] == Init(start, ceiling).lost[0]
        invariant forall k :: 1 <= k < i ==> lost[k] == INVALID
        modifies lost
      {
        lost[i] := INVALID;
        i := i + 1;
      }
      assert lost[..] == [lost[0], INVALID, INVALID];
    }

    function State(): Finder
      reads this, lost
    {
      Finder(floor, lost[..], lastLost, probes)
    }

    method FindCeiling() returns (c: int)
      requires lost.Length == 3
      ensures c == Ceiling(State())
    {
      var i := 0;
      while i < lost.Length
        invariant 0 <= i <= 3 && forall k :: 0 <= k < i ==> lost[k] != INVALID
      {
        if lost[i] == INVALID {
          if i == 0 { return floor; }
          return lost[i - 1];
        }
        i := i + 1;
      }
      return lost[lost.Length - 1];
    }

    method Acked(size: int)
      requires lost.Length == 3
      modifies this, lost
      ensures State() == old(OnAcked(State(), size))
    {
      if size > floor { floor := size; }
      lastLost := false;
      var j, found := 0, false;
      while j < lost.Length && !found
        invariant 0 <= j <= 3 && (found ==> j < 3 && size < lost[j])
        invariant forall k :: 0 <= k < j ==> !(size < lost[k])
        invariant lost[..] == old(lost[..])
        decreases 3 - j, !found
      {
        if size < lost[j] { found := true; } else { j := j + 1; }
      }
      if !found { j := 0; }
      ghost var before := lost[..];
      if j > 0 {
        var i := 0;
        while i < lost.Length
          invariant 0 <= i <= 3
          invariant forall k :: 0 <= k < i ==> lost[k] == if k + j < 3 then before[k + j] else INVALID
          invariant forall k :: i <= k < 3 ==> lost[k] == before[k]
          modifies lost
        {
          if i + j < lost.Length { lost[i] := lost[i + j]; } else { lost[i] := INVALID; }
          i := i + 1;
        }
      }
    }

    method Missed(size: int)
      requires lost.Length == 3
      modifies this, lost
      ensures State() == old(OnLost(State(), size))
    {
      lastLost := true;
      var i := 0;
      while i < lost.Length
        invariant 0 <= i <= 3 && lost[..] == old(lost[..])
        invariant forall k :: 0 <= k < i ==> !(size < lost[k])
      {
        if size < lost[i] {
          Insert(i, size);
          return;
        }
        i := i + 1;
      }
    }

    /** Moves the entries from i on one place up, the last one falling off, and puts size in their place. */
    method Insert(i: nat, size: int)
      requires lost.Length == 3 && i < 3
      modifies lost
      ensures lost[..] == old(lost[..i]) + [size] + old(lost[i..2])
    {
      ghost var before := lost[..];
      var k := 2;
      while k > i
        invariant i <= k <= 2
        invariant forall m :: 0 <= m <= k ==> lost[m] == before[m]
        invariant forall m :: k < m < 3 ==> lost[m] == before[m - 1]
      {
        lost[k] := lost[k - 1];
        k := k - 1;
      }
      lost[i] := size;
    }

    method Rejected(size: int)
      requires lost.Length == 3
      modifies this, lost
      ensures State() == old(RejectHard(State(), size))
    {
      Missed(size);
      Missed(size);
      Missed(size);
    }
  }
}
