/** The shared memory budget: a counter with a limit, changed by compare-and-swap. */
module Budget {
  import opened Wire

  datatype Pool = Unlimited | Limited(limit: int, used: int) {
    predicate Valid() {
      Limited? ==> 0 <= used <= limit
    }

    predicate Grants(size: nat) {
      Limited? ==> size <= limit - used
    }

    function Reserve(size: nat): Pool {
      if Limited? then Limited(limit, used + size) else this
    }

    function Release(size: nat): Pool {
      if Limited? then Limited(limit, used - size) else this
    }

    /** What this pool counts, zero when nothing is counted. */
    function Used(): int {
      if Limited? then used else 0
    }
  }

  class MemoryBudget {
    var used: int
    const limit: int

    constructor (limit: int)
      requires 0 <= limit
      ensures this.limit == limit && used == 0
    {
      this.limit := limit;
      used := 0;
    }

    function State(): Pool
      reads this
    {
      Limited(limit, used)
    }

    method Reserve(size: nat) returns (granted: bool)
      modifies this
      ensures granted == old(State().Grants(size))
      ensures State() == if granted then old(State()).Reserve(size) else old(State())
    {
      if size > limit - used { return false; }
      used := used + size;
      return true;
    }

    method Release(size: nat)
      modifies this
      ensures State() == old(State()).Release(size)
    {
      used := used - size;
    }
  }

  // ----- any number of concurrent callers, each between its load and its compare-and-swap -----

  datatype Phase = Idle | Trying(size: nat) | Loaded(size: nat, seen: int)

  /** holds is what this caller was granted and has not given back. */
  datatype Caller = Caller(phase: Phase, holds: nat)

  datatype Shared = Shared(limit: int, used: int, callers: seq<Caller>)

  datatype Step =
    | Call(who: nat, size: nat)
    | Load(who: nat)
    | Refuse(who: nat)
    | Swap(who: nat)
    | Give(who: nat, size: nat)

  /** Callers give back only what they hold. */
  predicate Enabled(s: Shared, step: Step) {
    step.who < |s.callers| &&
    var c := s.callers[step.who];
    match step
    case Call(_, _) => c.phase.Idle?
    case Load(_) => c.phase.Trying?
    case Refuse(_) => c.phase.Loaded? && c.phase.size > s.limit - c.phase.seen
    case Swap(_) => c.phase.Loaded? && c.phase.size <= s.limit - c.phase.seen
    case Give(_, size) => size <= c.holds
  }

  function Next(s: Shared, step: Step): Shared
    requires Enabled(s, step)
  {
    var w, c := step.who, s.callers[step.who];
    match step
    case Call(_, size) => s.(callers := s.callers[w := c.(phase := Trying(size))])
    case Load(_) => s.(callers := s.callers[w := c.(phase := Loaded(c.phase.size, s.used))])
    case Refuse(_) => s.(callers := s.callers[w := c.(phase := Idle)])
    case Swap(_) =>
      if c.phase.seen == s.used then
        s.(used := s.used + c.phase.size, callers := s.callers[w := Caller(Idle, c.holds + c.phase.size)])
      else
        s.(callers := s.callers[w := c.(phase := Trying(c.phase.size))])
    case Give(_, size) => s.(used := s.used - size, callers := s.callers[w := c.(holds := c.holds - size)])
  }

  function Run(s: Shared, steps: seq<Step>): Option<Shared>
    decreases |steps|
  {
    if steps == [] then Some(s)
    else if Enabled(s, steps[0]) then Run(Next(s, steps[0]), steps[1..])
    else None
  }

  function Held(callers: seq<Caller>): nat {
    if callers == [] then 0 else callers[0].holds + Held(callers[1..])
  }

  lemma {:induction false} HeldUpdate(callers: seq<Caller>, w: nat, c: Caller)
    requires w < |callers|
    ensures Held(callers[w := c]) == Held(callers) - callers[w].holds + c.holds
  {
    if w == 0 {
      assert callers[w := c][1..] == callers[1..];
    } else {
      assert callers[w := c][1..] == callers[1..][w - 1 := c];
      HeldUpdate(callers[1..], w - 1, c);
    }
  }

  /** However the callers interleave, the counter is exactly the sum of what they still hold, and stays in range. */
  lemma {:induction false} CounterIsWhatIsHeld(s: Shared, steps: seq<Step>)
    requires 0 <= s.used == Held(s.callers) <= s.limit
    requires Run(s, steps).Some?
    ensures var t := Run(s, steps).value; 0 <= t.used == Held(t.callers) <= t.limit == s.limit
    decreases |steps|
  {
    if steps != [] {
      var t := Next(s, steps[0]);
      HeldUpdate(s.callers, steps[0].who, t.callers[steps[0].who]);
      CounterIsWhatIsHeld(t, steps[1..]);
    }
  }
}
