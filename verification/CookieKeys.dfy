/** The two keys that authenticate retry cookies, and how long a cookie lives. */
module CookieKeys {
  import opened Wire

  // Clocks count milliseconds.
  const LIFETIME := 60000

  type Key = seq<byte>

  datatype Secrets = Secrets(current: Key, previous: Key, lastRotate: Option<int>)

  function RotateTo(s: Secrets, next: Key, now: int): Secrets { Secrets(next, s.current, Some(now)) }

  /** Rotates once a lifetime has passed; drawn is None when no random key could be had. */
  function MaybeRotate(s: Secrets, now: int, drawn: Option<Key>): Secrets {
    if s.lastRotate.None? then s.(lastRotate := Some(now))
    else if now - s.lastRotate.value < LIFETIME || drawn.None? then s
    else RotateTo(s, drawn.value, now)
  }

  predicate Holds(s: Secrets, k: Key) { s.current == k || s.previous == k }

  datatype Tick = Tick(now: int, drawn: Option<Key>)

  function Run(s: Secrets, ticks: seq<Tick>): Secrets
    decreases |ticks|
  {
    if ticks == [] then s else Run(MaybeRotate(s, ticks[0].now, ticks[0].drawn), ticks[1..])
  }

  /** The clock never runs backwards from start through the ticks to end. */
  predicate Monotone(start: int, ticks: seq<Tick>, end: int)
    decreases |ticks|
  {
    if ticks == [] then start <= end else start <= ticks[0].now && Monotone(ticks[0].now, ticks[1..], end)
  }

  lemma {:induction false} Survives(s: Secrets, k: Key, issued: int, start: int, ticks: seq<Tick>, end: int)
    requires issued <= start && Monotone(start, ticks, end) && end - issued < LIFETIME
    requires s.current == k || (s.previous == k && s.lastRotate.Some? && s.lastRotate.value >= issued)
    ensures Holds(Run(s, ticks), k)
    decreases |ticks|
  {
    if ticks != [] {
      NotBefore(ticks[0].now, ticks[1..], end);
      Survives(MaybeRotate(s, ticks[0].now, ticks[0].drawn), k, issued, ticks[0].now, ticks[1..], end);
    }
  }

  lemma {:induction false} NotBefore(start: int, ticks: seq<Tick>, end: int)
    requires Monotone(start, ticks, end)
    ensures start <= end
    decreases |ticks|
  {
    if ticks != [] { NotBefore(ticks[0].now, ticks[1..], end); }
  }

  /** However keys rotate, the key of a cookie less than a lifetime old is the current or the previous one. */
  lemma KeyOutlivesCookie(s: Secrets, issued: int, ticks: seq<Tick>, end: int)
    requires Monotone(issued, ticks, end) && end - issued < LIFETIME
    ensures Holds(Run(s, ticks), s.current)
  {
    Survives(s, s.current, issued, issued, ticks, end);
  }

  /** At a full lifetime the key can be gone. */
  lemma KeyCanGo(a: Key, b: Key, c: Key)
    requires a != b && a != c
    ensures var ticks := [Tick(LIFETIME, Some(b)), Tick(2 * LIFETIME, Some(c))];
      Monotone(LIFETIME, ticks, 2 * LIFETIME) && !Holds(Run(Secrets(a, a, Some(0)), ticks), a)
  {
    var ticks := [Tick(LIFETIME, Some(b)), Tick(2 * LIFETIME, Some(c))];
    assert ticks[1..] == [Tick(2 * LIFETIME, Some(c))];
    assert ticks[1..][1..] == [];
    var s := MaybeRotate(Secrets(a, a, Some(0)), LIFETIME, Some(b));
    assert Run(s, ticks[1..]) == Run(MaybeRotate(s, 2 * LIFETIME, Some(c)), []);
    assert Monotone(LIFETIME, ticks[1..], 2 * LIFETIME) == Monotone(2 * LIFETIME, [], 2 * LIFETIME);
  }

  // ----- age, in whole seconds -----

  function Seconds(now: int): int { now / 1000 }

  /** The age check of a cookie issued in one second and seen in another. */
  predicate Young(issued: int, seen: int) { issued <= seen && seen - issued < LIFETIME / 1000 }

  /** An accepted cookie is younger than a lifetime; one up to 59 seconds old is accepted. */
  lemma AgeCheck(issued: int, now: int)
    requires issued <= now
    ensures Young(Seconds(issued), Seconds(now)) ==> now - issued < LIFETIME
    ensures now - issued <= LIFETIME - 1000 ==> Young(Seconds(issued), Seconds(now))
    ensures Young(Seconds(issued), Seconds(now)) <==> now - issued < LIFETIME - issued % 1000
  {
  }

  /** In its last second a cookie may already be refused. */
  lemma RefusedEarly()
    ensures 60000 - 999 < LIFETIME && !Young(Seconds(999), Seconds(60000))
  {
  }

  class CookieSecrets {
    var current: Key
    var previous: Key
    var lastRotate: Option<int>

    /** When each key last sealed a cookie, and the latest time seen. */
    ghost var used: map<Key, int>
    ghost var clock: int

    function Value(): Secrets
      reads this
    {
      Secrets(current, previous, lastRotate)
    }

    /** A key is the current one, or the previous one and not used since it was replaced, or unused for a lifetime. */
    ghost predicate Valid()
      reads this
    {
      && (lastRotate.Some? ==> lastRotate.value <= clock)
      && forall k :: k in used ==>
           && used[k] <= clock
           && (current == k || (previous == k && lastRotate.Some? && used[k] <= lastRotate.value) || clock - used[k] >= LIFETIME)
    }

    constructor (key: Key, now: int)
      ensures Valid() && Value() == Secrets(key, key, Some(now)) && used == map[] && clock == now
    {
      current, previous, lastRotate := key, key, Some(now);
      used, clock := map[], now;
    }

    /** The key a new cookie is sealed with. */
    method Seal(now: int) returns (key: Key)
      requires Valid() && clock <= now
      modifies this`used, this`clock
      ensures Valid() && Holds(Value(), key) && used == old(used)[key := now] && clock == now
    {
      key := current;
      used, clock := used[key := now], now;
    }

    /** The replaced key stays as the previous one; only the key before it is lost. */
    method Rotate(next: Key, now: int)
      requires Valid() && clock <= now
      modifies this
      ensures Value() == RotateTo(old(Value()), next, now) && used == old(used) && clock == now
      ensures Holds(Value(), next) && forall k :: old(Holds(Value(), k)) && k != old(previous) ==> Holds(Value(), k)
      ensures old(lastRotate.Some? && now - lastRotate.value >= LIFETIME) ==> Valid()
    {
      previous := current;
      current := next;
      lastRotate := Some(now);
      clock := now;
    }

    /** Whenever and however often this runs, every key that sealed a cookie less than a lifetime ago still opens it. */
    method Tick(now: int, drawn: Option<Key>)
      requires Valid() && clock <= now
      modifies this
      ensures Valid() && used == old(used) && clock == now
      ensures forall k :: k in used && now - used[k] < LIFETIME ==> Holds(Value(), k)
      ensures Value() == MaybeRotate(old(Value()), now, drawn)
    {
      if lastRotate.None? {
        lastRotate, clock := Some(now), now;
        return;
      }
      if now - lastRotate.value < LIFETIME || drawn.None? {
        clock := now;
        return;
      }
      Rotate(drawn.value, now);
    }
  }
}
