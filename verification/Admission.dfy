/** The evictable cache of unverified ClientHellos and the memory it may hold. */
module Admission {
  import opened Wire
  import Budget
  import opened Fragments
  import opened Ledgers
  import Records

  const MAX_ENTRIES := 64
  const MAX_RECORDS := 128
  const ENTRY_COST := 16384
  const MAX_CLIENT_HELLO := 2 * 65535 + 256
  const CLIENT_HELLO := 1

  datatype Hello = Hello(started: int, credit: nat, replyCost: nat, assembly: Assembly)

  datatype Cache = Cache(hellos: map<nat, Hello>, pool: Budget.Pool)

  // ----- what the cache holds -----

  function EntryCost(h: Hello): nat { ENTRY_COST + h.replyCost + Charge(h.assembly) }

  /** The memory held by all entries together. */
  ghost function Held(hellos: map<nat, Hello>): nat
    decreases |hellos|
  {
    if hellos == map[] then 0
    else
      var k :| k in hellos;
      EntryCost(hellos[k]) + Held(hellos - {k})
  }

  lemma {:induction false} HeldApart(hellos: map<nat, Hello>, k: nat)
    requires k in hellos
    ensures Held(hellos) == EntryCost(hellos[k]) + Held(hellos - {k})
    decreases |hellos|
  {
    hide EntryCost;
    var j :| j in hellos && Held(hellos) == EntryCost(hellos[j]) + Held(hellos - {j});
    if j != k {
      HeldApart(hellos - {j}, k);
      HeldApart(hellos - {k}, j);
      assert hellos - {j} - {k} == hellos - {k} - {j};
    }
  }

  lemma HeldPut(hellos: map<nat, Hello>, k: nat, h: Hello)
    ensures Held(hellos[k := h]) == EntryCost(h) + Held(hellos - {k})
  {
    HeldApart(hellos[k := h], k);
    assert hellos[k := h] - {k} == hellos - {k};
  }

  ghost predicate Accounted(c: Cache) {
    && c.pool.Limited? && c.pool.Valid() && c.pool.used == Held(c.hellos)
    && |c.hellos| <= MAX_ENTRIES
    && forall k :: k in c.hellos ==> Valid(c.hellos[k].assembly) && (c.hellos[k].assembly.next == 0 ==> c.hellos[k].replyCost == 0)
  }

  // ----- eviction -----

  function Remove(c: Cache, peer: nat): Cache {
    if peer !in c.hellos then c
    else Cache(c.hellos - {peer},
               c.pool.Release(Charge(c.hellos[peer].assembly)).Release(ENTRY_COST + c.hellos[peer].replyCost))
  }

  predicate HasRoom(c: Cache, cost: nat, keep: Option<nat>)
    requires c.pool.Limited?
  {
    c.pool.used <= c.pool.limit - cost && (keep.None? ==> |c.hellos| < MAX_ENTRIES)
  }

  /** Nothing is left to evict. */
  predicate Alone(c: Cache, keep: Option<nat>) { forall k :: k in c.hellos ==> keep == Some(k) }

  /** No entry that could go instead is older than this. */
  predicate NoneOlder(started: int, c: Cache, keep: Option<nat>) {
    forall k :: k in c.hellos && keep != Some(k) ==> started <= c.hellos[k].started
  }

  predicate Oldest(c: Cache, keep: Option<nat>, v: nat) {
    v in c.hellos && keep != Some(v) && NoneOlder(c.hellos[v].started, c, keep)
  }

  /** The cache after evicting these entries in turn, and whether there is room; None if eviction would not go that way. */
  function Evict(c: Cache, cost: nat, keep: Option<nat>, victims: seq<nat>): Option<(Cache, bool)>
    requires c.pool.Limited?
    decreases |victims|
  {
    var stop := cost > c.pool.limit || HasRoom(c, cost, keep) || Alone(c, keep);
    if stop then
      if victims == [] then Some((c, cost <= c.pool.limit && HasRoom(c, cost, keep))) else None
    else if victims != [] && Oldest(c, keep, victims[0]) then Evict(Remove(c, victims[0]), cost, keep, victims[1..])
    else None
  }

  lemma RemoveKeeps(c: Cache, peer: nat)
    requires Accounted(c)
    ensures Accounted(Remove(c, peer)) && Remove(c, peer).hellos == c.hellos - {peer}
    ensures Remove(c, peer).pool.limit == c.pool.limit
  {
    if peer in c.hellos {
      HeldApart(c.hellos, peer);
      assert |c.hellos - {peer}| <= |c.hellos|;
    }
  }

  /** What making room does: it keeps the entry it is told to, and evicts none before an older one. */
  ghost predicate MadeRoom(c: Cache, d: Cache, cost: nat, keep: Option<nat>, ok: bool) {
    && Accounted(c) && Accounted(d) && d.pool.limit == c.pool.limit && d.hellos.Keys <= c.hellos.Keys
    && (forall k :: k in d.hellos ==> d.hellos[k] == c.hellos[k])
    && (keep.Some? && keep.value in c.hellos ==> keep.value in d.hellos)
    && (forall k :: k in c.hellos && k !in d.hellos ==> NoneOlder(c.hellos[k].started, d, keep))
    && (ok <==> cost <= c.pool.limit && HasRoom(d, cost, keep))
    && (!ok ==> cost > c.pool.limit || Alone(d, keep))
    && (cost > c.pool.limit || HasRoom(c, cost, keep) ==> d == c)
  }

  lemma {:induction false} EvictMakesRoom(c: Cache, cost: nat, keep: Option<nat>, victims: seq<nat>)
    requires Accounted(c) && Evict(c, cost, keep, victims).Some?
    ensures var (d, ok) := Evict(c, cost, keep, victims).value; MadeRoom(c, d, cost, keep, ok)
    decreases |victims|
  {
    hide Accounted, Held, EntryCost, Charge;
    if victims != [] {
      RemoveKeeps(c, victims[0]);
      EvictMakesRoom(Remove(c, victims[0]), cost, keep, victims[1..]);
      var (d, ok) := Evict(c, cost, keep, victims).value;
      EvictFirst(c, victims[0], d, cost, keep, ok);
    }
  }

  /** Evicting these entries from one cache leads to the other. */
  ghost predicate Leads(c: Cache, cost: nat, keep: Option<nat>, victims: seq<nat>, d: Cache)
    requires c.pool.Limited? && d.pool.Limited?
  {
    forall more :: Evict(c, cost, keep, victims + more) == Evict(d, cost, keep, more)
  }

  lemma LeadsStart(c: Cache, cost: nat, keep: Option<nat>)
    requires c.pool.Limited?
    ensures Leads(c, cost, keep, [], c)
  {
    forall more: seq<nat> ensures Evict(c, cost, keep, [] + more) == Evict(c, cost, keep, more) { assert [] + more == more; }
  }

  lemma LeadsStep(c: Cache, cost: nat, keep: Option<nat>, victims: seq<nat>, d: Cache, v: nat)
    requires c.pool.Limited? && d.pool.Limited? && Leads(c, cost, keep, victims, d)
    requires cost <= d.pool.limit && !HasRoom(d, cost, keep) && Oldest(d, keep, v)
    ensures Leads(c, cost, keep, victims + [v], Remove(d, v))
  {
    forall more ensures Evict(c, cost, keep, victims + [v] + more) == Evict(Remove(d, v), cost, keep, more) {
      assert victims + [v] + more == victims + ([v] + more);
      assert ([v] + more)[1..] == more;
    }
  }

  lemma LeadsEnd(c: Cache, cost: nat, keep: Option<nat>, victims: seq<nat>, d: Cache)
    requires Accounted(c) && d.pool.Limited? && Leads(c, cost, keep, victims, d)
    requires cost > d.pool.limit || HasRoom(d, cost, keep) || Alone(d, keep)
    ensures var ok := cost <= d.pool.limit && HasRoom(d, cost, keep);
      Evict(c, cost, keep, victims) == Some((d, ok)) && MadeRoom(c, d, cost, keep, ok)
  {
    assert victims + [] == victims;
    EvictMakesRoom(c, cost, keep, victims);
  }

  lemma EvictFirst(c: Cache, v: nat, d: Cache, cost: nat, keep: Option<nat>, ok: bool)
    requires Accounted(c) && Oldest(c, keep, v) && cost <= c.pool.limit && !HasRoom(c, cost, keep)
    requires MadeRoom(Remove(c, v), d, cost, keep, ok)
    ensures MadeRoom(c, d, cost, keep, ok)
  {
    hide Accounted, Remove, HasRoom, Alone;
    RemoveKeeps(c, v);
    var b := Remove(c, v);
    forall k | k in c.hellos && k !in d.hellos ensures NoneOlder(c.hellos[k].started, d, keep) {
      if k != v { assert k in b.hellos && NoneOlder(b.hellos[k].started, d, keep); }
    }
  }

  /** Room can be made exactly when the cost fits the limit beside the entry that must stay, whatever the other peers hold. */
  lemma RoomExactly(c: Cache, d: Cache, cost: nat, keep: Option<nat>, ok: bool)
    requires MadeRoom(c, d, cost, keep, ok) && (keep.Some? ==> keep.value in c.hellos)
    ensures ok <==> cost + (if keep.Some? then EntryCost(c.hellos[keep.value]) else 0) <= c.pool.limit
  {
    if keep.Some? { HeldApart(d.hellos, keep.value); }
    if Alone(d, keep) {
      if keep.None? {
        assert d.hellos == map[];
      } else {
        assert d.hellos - {keep.value} == map[];
      }
    }
    hide EntryCost;
  }

  // ----- what happens to the cache -----

  datatype World = World(cache: Cache, sent: map<nat, nat>, received: map<nat, nat>)

  datatype Event =
    | Forget(peer: nat)                                                     // expiry, failure or admission
    | Open(peer: nat, sequence: nat, now: int, victims: seq<nat>)           // the first fragment of an unknown peer
    | MakeRoom(peer: nat, total: nat, victims: seq<nat>)                    // before a new message is buffered
    | Datagram(peer: nat, length: nat)                                      // earns credit
    | Arrive(peer: nat, data: seq<byte>)                                    // a handshake record
    | Handle(peer: nat, reply: Option<nat>, victims: seq<nat>)              // a complete ClientHello, perhaps answered
    | Send(peer: nat, length: nat, queued: bool)                            // a reply packet

  function NewEntry(sequence: nat, now: int): Hello { Hello(now, 0, 0, Assembly(sequence, map[], 0)) }

  function Put(c: Cache, peer: nat, h: Hello, pool: Budget.Pool): Cache { Cache(c.hellos[peer := h], pool) }

  /** Admits an unknown peer if its entry can be paid for, evicting others as need be. */
  function NewHello(c: Cache, peer: nat, sequence: nat, now: int, victims: seq<nat>): Option<Cache>
    requires c.pool.Limited?
  {
    var evicted := Evict(c, ENTRY_COST, None, victims);
    if evicted.None? then None
    else
      var (d, ok) := evicted.value;
      Some(if ok && d.pool.Grants(ENTRY_COST) then Put(d, peer, NewEntry(sequence, now), d.pool.Reserve(ENTRY_COST)) else d)
  }

  function Popped(c: Cache, peer: nat): (Message, Cache)
    requires peer in c.hellos && Ready(c.hellos[peer].assembly)
  {
    var h := c.hellos[peer];
    var (m, rest) := Pop(h.assembly);
    (m, Put(c, peer, h.(assembly := rest), c.pool.Release(FragmentCost(|m.body|))))
  }

  /** Pays for a reply of this many bytes, evicting others as need be. */
  function Reply(c: Cache, peer: nat, length: nat, victims: seq<nat>): Option<Cache>
    requires c.pool.Limited? && peer in c.hellos
  {
    var cost := 2 * FragmentCost(length);
    var evicted := Evict(c, cost, Some(peer), victims);
    if evicted.None? then None
    else
      var (d, ok) := evicted.value;
      Some(if ok && d.pool.Grants(cost) && peer in d.hellos
           then Put(d, peer, d.hellos[peer].(replyCost := cost), d.pool.Reserve(cost)) else d)
  }

  function Credited(h: Hello, length: nat): Hello {
    h.(credit := if h.credit + 3 * length < 3 * MAX_CLIENT_HELLO then h.credit + 3 * length else 3 * MAX_CLIENT_HELLO)
  }

  function WithCache(w: World, c: Option<Cache>): Option<World> {
    if c.None? then None else Some(w.(cache := c.value))
  }

  /** The world after an event, None where the listener would not come to it. */
  function Advance(w: World, e: Event): Option<World>
    requires w.cache.pool.Limited?
  {
    var c := w.cache;
    match e
    case Forget(peer) => Some(w.(cache := Remove(c, peer)))
    case Open(peer, sequence, now, victims) =>
      if peer in c.hellos || sequence > 1 then None else WithCache(w, NewHello(c, peer, sequence, now, victims))
    case MakeRoom(peer, total, victims) =>
      if peer !in c.hellos then None
      else
        var evicted := Evict(c, FragmentCost(total), Some(peer), victims);
        if evicted.None? then None else Some(w.(cache := evicted.value.0))
    case Datagram(peer, length) =>
      Some(w.(cache := if peer in c.hellos then Put(c, peer, Credited(c.hellos[peer], length), c.pool) else c,
              received := Plus(w.received, peer, length)))
    case Arrive(peer, data) =>
      if peer !in c.hellos then None
      else
        var (assembly, pool, _) := Add(c.hellos[peer].assembly, c.pool, data, 0);
        Some(w.(cache := Put(c, peer, c.hellos[peer].(assembly := assembly), pool)))
    case Handle(peer, reply, victims) =>
      if peer !in c.hellos || !Ready(c.hellos[peer].assembly) then None
      else
        var (m, d) := Popped(c, peer);
        if m.sequence == 0 && reply.Some? then WithCache(w, Reply(d, peer, reply.value, victims)) else Some(w.(cache := d))
    case Send(peer, length, queued) =>
      if peer !in c.hellos then None
      else if length > c.hellos[peer].credit || !queued then Some(w)
      else
        var h := c.hellos[peer];
        Some(w.(cache := Put(c, peer, h.(credit := h.credit - length), c.pool), sent := Plus(w.sent, peer, length)))
  }

  // ----- what every event keeps -----

  function Credit(c: Cache, peer: nat): nat { if peer in c.hellos then c.hellos[peer].credit else 0 }

  /** Bytes queued to a peer, with the credit it has left, within three times the bytes from it. */
  predicate Covered(w: World, peer: nat) {
    Total(w.sent, peer) + Credit(w.cache, peer) <= 3 * Total(w.received, peer)
  }

  ghost predicate Invariant(w: World) {
    Accounted(w.cache) && forall peer: nat :: Covered(w, peer)
  }

  /** Replacing an entry keeps the accounts when the pool moves with its cost. */
  lemma PutKeeps(c: Cache, peer: nat, h: Hello, pool: Budget.Pool)
    requires Accounted(c) && peer in c.hellos && Valid(h.assembly) && (h.assembly.next == 0 ==> h.replyCost == 0)
    requires pool.Valid() && pool.Limited? && pool.used == c.pool.used - EntryCost(c.hellos[peer]) + EntryCost(h)
    ensures Accounted(Put(c, peer, h, pool))
  {
    hide EntryCost, Held, Valid;
    HeldApart(c.hellos, peer);
    HeldPut(c.hellos, peer, h);
    assert c.hellos[peer := h].Keys == c.hellos.Keys;
  }

  /** A new entry fits where there is room for it. */
  lemma EntryKeeps(c: Cache, peer: nat, h: Hello)
    requires Accounted(c) && peer !in c.hellos && HasRoom(c, EntryCost(h), None)
    requires Valid(h.assembly) && h.replyCost == 0
    ensures Accounted(Put(c, peer, h, c.pool.Reserve(EntryCost(h))))
  {
    hide Held, EntryCost, Valid;
    HeldPut(c.hellos, peer, h);
    assert c.hellos - {peer} == c.hellos;
    OneMore(c.hellos, peer, h);
  }

  lemma OneMore(hellos: map<nat, Hello>, peer: nat, h: Hello)
    requires peer !in hellos
    ensures |hellos[peer := h]| == |hellos| + 1
  {
    assert hellos[peer := h].Keys == hellos.Keys + {peer};
  }

  lemma NewHelloKeeps(c: Cache, peer: nat, sequence: nat, now: int, victims: seq<nat>)
    requires Accounted(c) && peer !in c.hellos && sequence <= 1 && NewHello(c, peer, sequence, now, victims).Some?
    ensures var d := NewHello(c, peer, sequence, now, victims).value;
      && Accounted(d) && d.pool.limit == c.pool.limit
      && forall k: nat :: Credit(d, k) <= Credit(c, k)
  {
    EvictMakesRoom(c, ENTRY_COST, None, victims);
    var (d, ok) := Evict(c, ENTRY_COST, None, victims).value;
    hide Evict, Accounted;
    FreshCost(sequence, now);
    if ok { EntryKeeps(d, peer, NewEntry(sequence, now)); }
  }

  lemma FreshCost(sequence: nat, now: int)
    requires sequence <= 1
    ensures Valid(NewEntry(sequence, now).assembly) && EntryCost(NewEntry(sequence, now)) == ENTRY_COST
  {
    SumNothing(sequence, MAX_PENDING);
  }

  lemma RoomKeeps(c: Cache, cost: nat, keep: Option<nat>, victims: seq<nat>)
    requires Accounted(c) && Evict(c, cost, keep, victims).Some?
    ensures var (d, ok) := Evict(c, cost, keep, victims).value;
      && Accounted(d) && d.pool.limit == c.pool.limit
      && (forall k: nat :: Credit(d, k) <= Credit(c, k))
      && (keep.Some? && keep.value in c.hellos ==> keep.value in d.hellos && d.hellos[keep.value] == c.hellos[keep.value])
  {
    EvictMakesRoom(c, cost, keep, victims);
    hide Evict, Accounted;
  }

  lemma ReplyKeeps(c: Cache, peer: nat, length: nat, victims: seq<nat>)
    requires Accounted(c) && peer in c.hellos && c.hellos[peer].replyCost == 0 && c.hellos[peer].assembly.next > 0
    requires Reply(c, peer, length, victims).Some?
    ensures var d := Reply(c, peer, length, victims).value;
      && Accounted(d) && d.pool.limit == c.pool.limit
      && forall k: nat :: Credit(d, k) <= Credit(c, k)
  {
    var cost := 2 * FragmentCost(length);
    RoomKeeps(c, cost, Some(peer), victims);
    var (d, ok) := Evict(c, cost, Some(peer), victims).value;
    hide Evict, Charge, Valid, FragmentCost;
    if d.pool.Grants(cost) {
      PutKeeps(d, peer, d.hellos[peer].(replyCost := cost), d.pool.Reserve(cost));
    }
  }

  lemma PopKeepsAccounts(c: Cache, peer: nat)
    requires Accounted(c) && peer in c.hellos && Ready(c.hellos[peer].assembly)
    ensures var (m, d) := Popped(c, peer);
      && Accounted(d) && d.pool.limit == c.pool.limit && peer in d.hellos && d.hellos[peer].assembly.next > 0
      && d.hellos[peer].replyCost == c.hellos[peer].replyCost
      && (m.sequence == 0 ==> d.hellos[peer].replyCost == 0)
      && forall k: nat :: Credit(d, k) == Credit(c, k)
  {
    var h := c.hellos[peer];
    PopKeeps(h.assembly);
    HeldApart(c.hellos, peer);
    var (m, rest) := Pop(h.assembly);
    assert m.sequence == h.assembly.next;
    hide Charge, Valid, FragmentCost, Held;
    PutKeeps(c, peer, h.(assembly := rest), c.pool.Release(FragmentCost(|m.body|)));
  }

  lemma ArriveKeeps(c: Cache, peer: nat, data: seq<byte>)
    requires Accounted(c) && peer in c.hellos
    ensures var (assembly, pool, _) := Add(c.hellos[peer].assembly, c.pool, data, 0);
      Accounted(Put(c, peer, c.hellos[peer].(assembly := assembly), pool)) && pool.limit == c.pool.limit
  {
    var h := c.hellos[peer];
    AddAllKeeps(h.assembly, c.pool, Split(data).0, 0);
    hide AddAll, Charge, Valid, Held, Split;
    var (assembly, pool, _) := Add(h.assembly, c.pool, data, 0);
    PutKeeps(c, peer, h.(assembly := assembly), pool);
  }

  lemma StepKeeps(w: World, e: Event)
    requires Invariant(w) && Advance(w, e).Some?
    ensures Invariant(Advance(w, e).value) && Advance(w, e).value.cache.pool.limit == w.cache.pool.limit
  {
    var c, v := w.cache, Advance(w, e).value;
    assert forall k: nat :: Covered(w, k) ==> Covered(v, k) by {
      CreditKeeps(w, e);
    }
    AccountsKeep(w, e);
  }

  lemma AccountsKeep(w: World, e: Event)
    requires Accounted(w.cache) && Advance(w, e).Some?
    ensures Accounted(Advance(w, e).value.cache) && Advance(w, e).value.cache.pool.limit == w.cache.pool.limit
  {
    var c := w.cache;
    hide Evict, Add, Pop, Remove, Held, Ready;
    match e
    case Forget(peer) => RemoveKeeps(c, peer);
    case Open(peer, sequence, now, victims) => NewHelloKeeps(c, peer, sequence, now, victims);
    case MakeRoom(peer, total, victims) => RoomKeeps(c, FragmentCost(total), Some(peer), victims);
    case Datagram(peer, length) => if peer in c.hellos { PutKeeps(c, peer, Credited(c.hellos[peer], length), c.pool); }
    case Arrive(peer, data) => ArriveKeeps(c, peer, data);
    case Handle(peer, reply, victims) => HandleKeeps(w, peer, reply, victims);
    case Send(peer, length, _) =>
      if length <= c.hellos[peer].credit { PutKeeps(c, peer, c.hellos[peer].(credit := c.hellos[peer].credit - length), c.pool); }
  }

  lemma HandleKeeps(w: World, peer: nat, reply: Option<nat>, victims: seq<nat>)
    requires Accounted(w.cache) && Advance(w, Handle(peer, reply, victims)).Some?
    ensures var v := Advance(w, Handle(peer, reply, victims)).value;
      && Accounted(v.cache) && v.cache.pool.limit == w.cache.pool.limit
      && forall k: nat :: Credit(v.cache, k) <= Credit(w.cache, k)
  {
    PopKeepsAccounts(w.cache, peer);
    var (m, d) := Popped(w.cache, peer);
    hide Accounted, Popped, Reply, Ready;
    if m.sequence == 0 && reply.Some? { ReplyKeeps(d, peer, reply.value, victims); }
  }

  lemma CreditKeeps(w: World, e: Event)
    requires Accounted(w.cache) && Advance(w, e).Some?
    ensures forall k: nat :: Covered(w, k) ==> Covered(Advance(w, e).value, k)
  {
    var c := w.cache;
    hide Accounted, Evict, Add, Ready, NewHello, Reply, Popped;
    match e
    case Open(peer, sequence, now, victims) => NewHelloKeeps(c, peer, sequence, now, victims);
    case MakeRoom(peer, total, victims) => RoomKeeps(c, FragmentCost(total), Some(peer), victims);
    case Handle(peer, reply, victims) => HandleKeeps(w, peer, reply, victims);
    case _ =>
  }

  function Run(w: World, events: seq<Event>): Option<World>
    requires w.cache.pool.Limited?
    decreases |events|
  {
    if events == [] then Some(w)
    else
      var v := Advance(w, events[0]);
      if v.None? || !v.value.cache.pool.Limited? then None else Run(v.value, events[1..])
  }

  lemma {:induction false} RunKeeps(w: World, events: seq<Event>)
    requires Invariant(w) && Run(w, events).Some?
    ensures Invariant(Run(w, events).value) && Run(w, events).value.cache.pool.limit == w.cache.pool.limit
    decreases |events|
  {
    if events != [] {
      StepKeeps(w, events[0]);
      RunKeeps(Advance(w, events[0]).value, events[1..]);
    }
  }

  /** In every run the budget counts exactly what the entries hold, within its limit, and no peer is sent more than three times what it sent. */
  lemma CacheIsAccounted(limit: nat, events: seq<Event>, peer: nat)
    ensures var r := Run(World(Cache(map[], Budget.Limited(limit, 0)), map[], map[]), events);
      r.Some? ==>
        && r.value.cache.pool == Budget.Limited(limit, Held(r.value.cache.hellos)) && Held(r.value.cache.hellos) <= limit
        && |r.value.cache.hellos| <= MAX_ENTRIES
        && Total(r.value.sent, peer) + Credit(r.value.cache, peer) <= 3 * Total(r.value.received, peer)
  {
    var w := World(Cache(map[], Budget.Limited(limit, 0)), map[], map[]);
    if Run(w, events).Some? {
      assert forall k: nat :: Covered(w, k);
      RunKeeps(w, events);
      assert Covered(Run(w, events).value, peer);
    }
  }

  // ----- the listener's cache, updated in place -----

  lemma {:induction false} RunAgain(w: World, events: seq<Event>, e: Event)
    requires Invariant(w) && Run(w, events).Some? && Run(w, events).value.cache.pool.Limited?
    ensures Run(w, events + [e]) == Advance(Run(w, events).value, e)
    decreases |events|
  {
    hide Advance;
    if events == [] {
      assert [e][1..] == [];
      if Advance(w, e).Some? { StepKeeps(w, e); }
    } else {
      StepKeeps(w, events[0]);
      assert (events + [e])[1..] == events[1..] + [e];
      RunAgain(Advance(w, events[0]).value, events[1..], e);
    }
  }

  /** A fragment an unknown peer may begin with. */
  predicate Greets(f: Fragment) { f.typ == CLIENT_HELLO && f.sequence <= 1 && f.total <= MAX_CLIENT_HELLO }

  predicate Greetings(body: seq<byte>)
    decreases |body|
  {
    body == [] || var parsed := Fragments.Parse(body); parsed.Ok? && Greets(parsed.value.0) && Greetings(parsed.value.1)
  }

  /** Nothing in the datagram but plaintext acknowledgements and ClientHello fragments. */
  ghost predicate OnlyGreetings(data: seq<byte>, cidLength: int)
    decreases |data|
  {
    data == [] ||
    var parsed := Records.Parse(data, cidLength);
    && parsed.Ok? && !parsed.value.0.encrypted && (parsed.value.0.typ == 26 || (parsed.value.0.typ == 22 && Greetings(parsed.value.0.body)))
    && (Records.ParseShrinks(data, cidLength); OnlyGreetings(parsed.value.1, cidLength))
  }

  /** The fragments of a record's body, as far as it can be read. */
  function Pieces(body: seq<byte>): seq<Fragment>
    decreases |body|
  {
    var parsed := Fragments.Parse(body);
    if body == [] || parsed.Err? then [] else [parsed.value.0] + Pieces(parsed.value.1)
  }

  /** The handshake fragments of a whole datagram. */
  ghost function AllPieces(data: seq<byte>, cidLength: int): seq<Fragment>
    decreases |data|
  {
    var parsed := Records.Parse(data, cidLength);
    if data == [] || parsed.Err? then []
    else
      Records.ParseShrinks(data, cidLength);
      (if parsed.value.0.typ == 22 then Pieces(parsed.value.0.body) else []) + AllPieces(parsed.value.1, cidLength)
  }

  /** The sender's entry once these fragments have been looked at. */
  function EntryAfter(pieces: seq<Fragment>, entry: Option<Hello>, now: int): Option<Hello> {
    if entry.Some? || pieces == [] then entry else Some(NewEntry(pieces[0].sequence, now))
  }

  /** A message not yet begun must fit the limit beside the sender's own entry. */
  predicate Affordable(f: Fragment, h: Hello, limit: nat) {
    f.sequence >= h.assembly.next && f.sequence !in h.assembly.pending ==> FragmentCost(f.total) + EntryCost(h) <= limit
  }

  /** The limit alone, not what others hold, decides whether the sender and each of its fragments is taken on. */
  predicate Admits(pieces: seq<Fragment>, entry: Option<Hello>, limit: nat, now: int) {
    pieces != [] ==>
      && (entry.None? ==> ENTRY_COST <= limit)
      && forall f :: f in pieces ==> Affordable(f, EntryAfter(pieces, entry, now).value, limit)
  }

  lemma AdmitsSplits(a: seq<Fragment>, b: seq<Fragment>, entry: Option<Hello>, limit: nat, now: int)
    ensures Admits(a + b, entry, limit, now) <==> Admits(a, entry, limit, now) && Admits(b, EntryAfter(a, entry, now), limit, now)
    ensures EntryAfter(a + b, entry, now) == EntryAfter(b, EntryAfter(a, entry, now), now)
  {
    hide Affordable;
    if a == [] {
      assert a + b == b;
    } else {
      assert EntryAfter(a + b, entry, now) == EntryAfter(a, entry, now);
      assert forall f :: f in a + b <==> f in a || f in b;
    }
  }

  lemma OnePiece(f: Fragment, entry: Option<Hello>, limit: nat, now: int)
    ensures EntryAfter([f], entry, now).Some?
    ensures Admits([f], entry, limit, now) <==> (entry.None? ==> ENTRY_COST <= limit) && Affordable(f, EntryAfter([f], entry, now).value, limit)
  {
    hide Affordable;
    assert f in [f];
  }

  lemma UnpackInvariant(w: World)
    requires Invariant(w)
    ensures Accounted(w.cache)
  {
  }

  lemma EmptyRun(w: World)
    requires w.cache.pool.Limited?
    ensures Run(w, []) == Some(w)
  {
  }

  lemma OpensTo(w: World, peer: nat, sequence: nat, now: int, victims: seq<nat>, d: Cache)
    requires w.cache.pool.Limited? && peer !in w.cache.hellos && sequence <= 1
    requires NewHello(w.cache, peer, sequence, now, victims) == Some(d)
    ensures Advance(w, Open(peer, sequence, now, victims)) == Some(w.(cache := d))
  {
    hide NewHello;
  }

  lemma RoomsTo(w: World, peer: nat, total: nat, victims: seq<nat>, d: Cache, ok: bool)
    requires w.cache.pool.Limited? && peer in w.cache.hellos
    requires Evict(w.cache, FragmentCost(total), Some(peer), victims) == Some((d, ok))
    ensures Advance(w, MakeRoom(peer, total, victims)) == Some(w.(cache := d))
  {
    hide Evict, FragmentCost;
  }

  lemma ForgetsTo(w: World, peer: nat)
    requires w.cache.pool.Limited?
    ensures Advance(w, Forget(peer)) == Some(w.(cache := Remove(w.cache, peer)))
  {
    hide Remove;
  }

  lemma CreditsTo(w: World, peer: nat, length: nat)
    requires w.cache.pool.Limited? && peer in w.cache.hellos
    ensures Advance(w, Datagram(peer, length)) ==
      Some(w.(cache := Put(w.cache, peer, Credited(w.cache.hellos[peer], length), w.cache.pool), received := Plus(w.received, peer, length)))
  {
    hide Credited, Plus;
  }

  class HelloCache {
    var hellos: map<nat, Hello>
    const budget: Budget.MemoryBudget
    ghost var sent: map<nat, nat>
    ghost var received: map<nat, nat>

    function State(): Cache
      reads this, budget
    {
      Cache(hellos, budget.State())
    }

    ghost function Ledger(): World
      reads this, budget
    {
      World(State(), sent, received)
    }

    constructor (limit: nat)
      ensures Invariant(Ledger()) && Ledger() == World(Cache(map[], Budget.Limited(limit, 0)), map[], map[])
      ensures fresh(budget)
    {
      hellos, sent, received := map[], map[], map[];
      budget := new Budget.MemoryBudget(limit);
      new;
      assert forall k: nat :: Covered(Ledger(), k);
    }

    method RemoveHello(peer: nat)
      requires Accounted(State())
      modifies this`hellos, budget
      ensures State() == Remove(old(State()), peer) && Accounted(State())
      ensures hellos == old(hellos) - {peer}
    {
      RemoveKeeps(State(), peer);
      if peer in hellos {
        budget.Release(Charge(hellos[peer].assembly));
        budget.Release(ENTRY_COST + hellos[peer].replyCost);
        hellos := hellos - {peer};
      }
    }

    /** Scans every entry for one that started no later than the others. */
    method FindOldest(keep: Option<nat>) returns (oldest: Option<nat>)
      ensures oldest.None? ==> Alone(State(), keep)
      ensures oldest.Some? ==> Oldest(State(), keep, oldest.value)
    {
      oldest := None;
      var rest := hellos.Keys;
      while rest != {}
        invariant rest <= hellos.Keys
        invariant oldest.None? ==> forall k :: k in hellos && k !in rest ==> keep == Some(k)
        invariant oldest.Some? ==> oldest.value in hellos && keep != oldest
        invariant oldest.Some? ==> forall k :: k in hellos && k !in rest && keep != Some(k) ==> hellos[oldest.value].started <= hellos[k].started
      {
        var k :| k in rest;
        if keep != Some(k) && (oldest.None? || hellos[k].started < hellos[oldest.value].started) {
          oldest := Some(k);
        }
        rest := rest - {k};
      }
    }

    /** Evicts the oldest entries until there is room, and says which went. */
    method HelloRoom(cost: nat, keep: Option<nat>) returns (ok: bool, ghost victims: seq<nat>)
      requires Accounted(State())
      modifies this`hellos, budget
      ensures Evict(old(State()), cost, keep, victims) == Some((State(), ok))
      ensures MadeRoom(old(State()), State(), cost, keep, ok)
      ensures (keep.Some? ==> keep.value in old(hellos)) ==>
        (ok <==> cost + (if keep.Some? then EntryCost(old(hellos)[keep.value]) else 0) <= budget.limit)
    {
      hide Accounted, Remove, Evict, Leads, MadeRoom, EntryCost;
      ghost var start := State();
      victims := [];
      LeadsStart(start, cost, keep);
      while cost <= budget.limit && !HasRoom(State(), cost, keep)
        invariant Accounted(State()) && Leads(start, cost, keep, victims, State())
        decreases |hellos|
      {
        var oldest := FindOldest(keep);
        if oldest.None? {
          LeadsEnd(start, cost, keep, victims, State());
          if keep.Some? ==> keep.value in start.hellos { RoomExactly(start, State(), cost, keep, false); }
          return false, victims;
        }
        LeadsStep(start, cost, keep, victims, State(), oldest.value);
        RemoveKeeps(State(), oldest.value);
        assert hellos.Keys - {oldest.value} < hellos.Keys;
        RemoveHello(oldest.value);
        victims := victims + [oldest.value];
      }
      LeadsEnd(start, cost, keep, victims, State());
      ok := cost <= budget.limit;
      if keep.Some? ==> keep.value in start.hellos { RoomExactly(start, State(), cost, keep, ok); }
    }

    /** Queues a reply packet if the peer's credit covers it; a full queue drops it. */
    method SendHello(peer: nat, length: nat, records: nat, queued: bool) returns (error: Option<Error>)
      requires Accounted(State()) && peer in hellos
      modifies this
      ensures error == if records >= MAX_RECORDS then Some(HandshakeLimit) else None
      ensures error.Some? ==> Ledger() == old(Ledger())
      ensures error.None? ==> Advance(old(Ledger()), Send(peer, length, queued)) == Some(Ledger())
      ensures error.None? && queued && length <= old(hellos[peer].credit) ==>
        && sent == Plus(old(sent), peer, length)
        && hellos == old(hellos)[peer := old(hellos[peer]).(credit := old(hellos[peer].credit) - length)]
      ensures error.None? && !(queued && length <= old(hellos[peer].credit)) ==> Ledger() == old(Ledger())
    {
      hide Evict, Add, Remove, NewHello, Reply, Popped, Accounted, Credited;
      if records >= MAX_RECORDS {
        return Some(HandshakeLimit);
      }
      if length <= hellos[peer].credit && queued {
        hellos := hellos[peer := hellos[peer].(credit := hellos[peer].credit - length)];
        sent := Plus(sent, peer, length);
      }
      return None;
    }

    method AddHello(peer: nat, sequence: nat, now: int) returns (ok: bool, ghost victims: seq<nat>)
      requires Accounted(State()) && peer !in hellos && sequence <= 1
      modifies this`hellos, budget
      ensures Accounted(State()) && Some(State()) == NewHello(old(State()), peer, sequence, now, victims)
      ensures ok <==> peer in hellos
      ensures ok <==> ENTRY_COST <= budget.limit
      ensures ok ==> hellos[peer] == NewEntry(sequence, now)
    {
      hide Evict, Accounted, EntryCost;
      ok, victims := HelloRoom(ENTRY_COST, None);
      NewHelloKeeps(old(State()), peer, sequence, now, victims);
      if !ok {
        return;
      }
      ok := budget.Reserve(ENTRY_COST);
      if ok {
        hellos := hellos[peer := NewEntry(sequence, now)];
      }
    }

    /** Pays for the retry that answers a first ClientHello: ok exactly when the peer is now charged for it. */
    method ChargeReply(peer: nat, length: nat) returns (ok: bool, ghost victims: seq<nat>)
      requires Accounted(State()) && peer in hellos && hellos[peer].replyCost == 0 && hellos[peer].assembly.next > 0
      modifies this`hellos, budget
      ensures peer in hellos && hellos[peer] == old(hellos[peer]).(replyCost := if ok then 2 * FragmentCost(length) else 0)
      ensures Accounted(State()) && Some(State()) == Reply(old(State()), peer, length, victims)
      ensures ok <==> 2 * FragmentCost(length) + EntryCost(old(hellos[peer])) <= budget.limit
    {
      hide Evict, Accounted, EntryCost, FragmentCost;
      var cost := 2 * FragmentCost(length);
      ok, victims := HelloRoom(cost, Some(peer));
      ReplyKeeps(old(State()), peer, length, victims);
      if !ok {
        return;
      }
      ok := budget.Reserve(cost);
      if ok {
        hellos := hellos[peer := hellos[peer].(replyCost := cost)];
      }
    }

    /** The entry of a peer, if it has one. */
    function Entry(peer: nat): Option<Hello>
      reads this
    {
      if peer in hellos then Some(hellos[peer]) else None
    }

    /** Makes an entry for an unknown peer, and room for a message not yet begun. */
    method ScreenFragment(f: Fragment, peer: nat, now: int, ghost start: World, ghost before: seq<Event>)
      returns (ok: bool, ghost events: seq<Event>)
      requires Invariant(start) && Run(start, before) == Some(Ledger()) && f.sequence <= 1
      modifies this`hellos, budget
      ensures Run(start, events) == Some(Ledger())
      ensures 0 <= budget.limit && (ok <==> Admits([f], old(Entry(peer)), budget.limit, now))
      ensures ok ==> Entry(peer) == EntryAfter([f], old(Entry(peer)), now)
    {
      assert start.cache.pool.Limited?;
      RunKeeps(start, before);
      assert Accounted(State()) && 0 <= budget.limit by { UnpackInvariant(Ledger()); }
      hide Run, Invariant, Accounted, Advance, NewHello, Evict, MadeRoom, FragmentCost, EntryCost;
      OnePiece(f, Entry(peer), budget.limit, now);
      events := before;
      ghost var v;
      if peer !in hellos {
        ghost var w := Ledger();
        ok, v := AddHello(peer, f.sequence, now);
        assert Advance(w, Open(peer, f.sequence, now, v)) == Some(Ledger()) by { OpensTo(w, peer, f.sequence, now, v, State()); }
        RunAgain(start, events, Open(peer, f.sequence, now, v));
        events := events + [Open(peer, f.sequence, now, v)];
        if !ok { return; }
      }
      var h := hellos[peer];
      if f.sequence >= h.assembly.next && f.sequence !in h.assembly.pending {
        ghost var w := Ledger();
        ok, v := HelloRoom(FragmentCost(f.total), Some(peer));
        assert Advance(w, MakeRoom(peer, f.total, v)) == Some(Ledger()) by { RoomsTo(w, peer, f.total, v, State(), ok); }
        RunAgain(start, events, MakeRoom(peer, f.total, v));
        events := events + [MakeRoom(peer, f.total, v)];
        assert peer in hellos && hellos[peer] == h by { RoomKeeps(w.cache, FragmentCost(f.total), Some(peer), v); }
        if !ok { return; }
      }
      ok := true;
    }

    /** Looks at the fragments of one record before any memory is spent on them. */
    method ScreenRecord(body: seq<byte>, peer: nat, now: int, ghost start: World, ghost before: seq<Event>)
      returns (ok: bool, ghost events: seq<Event>)
      requires Invariant(start) && Run(start, before) == Some(Ledger()) && 0 <= budget.limit
      modifies this`hellos, budget
      ensures Run(start, events) == Some(Ledger())
      ensures ok <==> Greetings(body) && Admits(Pieces(body), old(Entry(peer)), budget.limit, now)
      ensures ok ==> Entry(peer) == EntryAfter(Pieces(body), old(Entry(peer)), now)
    {
      assert start.cache.pool.Limited?;
      hide Run, Invariant, Admits, EntryAfter, Greets, Pieces, Fragments.Parse;
      ghost var entry := Entry(peer);
      var rest := body;
      events := before;
      ghost var done: seq<Fragment> := [];
      NoPieces(entry, budget.limit, now);
      while rest != []
        invariant Run(start, events) == Some(Ledger())
        invariant Greetings(body) <==> Greetings(rest)
        invariant Pieces(body) == done + Pieces(rest)
        invariant Admits(done, entry, budget.limit, now) && Entry(peer) == EntryAfter(done, entry, now)
        decreases |rest|
      {
        var parsed := Fragments.Parse(rest);
        NextPiece(rest);
        if parsed.Err? { return false, events; }
        var f := parsed.value.0;
        if !Greets(f) { return false, events; }
        Onward(done, [f], Pieces(parsed.value.1), entry, budget.limit, now);
        assert f.sequence <= 1 by { GreetsEarly(f); }
        ok, events := ScreenFragment(f, peer, now, start, events);
        if !ok { return; }
        rest := parsed.value.1;
        done := done + [f];
      }
      assert Pieces([]) == [] && done + [] == done;
      ok := true;
    }

    /** Screens a datagram, makes an entry for its sender, and credits it with three times its size. */
    method Screen(data: seq<byte>, peer: nat, now: int, expired: bool, cidLength: int) returns (ok: bool, ghost events: seq<Event>)
      requires Invariant(Ledger())
      modifies this, budget
      ensures Run(old(Ledger()), events) == Some(Ledger()) && Invariant(Ledger()) && 0 <= budget.limit
      ensures var entry, pieces := if expired then None else old(Entry(peer)), AllPieces(data, cidLength);
        && (ok <==> OnlyGreetings(data, cidLength) && (entry.Some? || pieces != []) && Admits(pieces, entry, budget.limit, now))
        && (ok ==> Entry(peer).Some? && EntryAfter(pieces, entry, now).Some? && Gains(EntryAfter(pieces, entry, now).value, |data|, Entry(peer).value))
      ensures received == if ok then Plus(old(received), peer, |data|) else old(received)
      ensures sent == old(sent)
    {
      assert 0 <= budget.limit by { UnpackInvariant(Ledger()); }
      hide Run, Invariant, Accounted, Advance, Records.Parse, Admits, EntryAfter, Gains, Credited, OnlyGreetings, AllPieces, Remove;
      ghost var start := Ledger();
      events := [];
      EmptyRun(start);
      if expired {
        assert Accounted(State()) by { UnpackInvariant(start); }
        RemoveHello(peer);
        assert Advance(start, Forget(peer)) == Some(Ledger()) by { ForgetsTo(start, peer); }
        RunAgain(start, [], Forget(peer));
        events := [] + [Forget(peer)];
      }
      ghost var entry := Entry(peer);
      ok, events := ScreenAll(data, peer, now, cidLength, start, events);
      RunKeeps(start, events);
      ScreenedEntry(AllPieces(data, cidLength), entry, now);
      if !ok || peer !in hellos {
        ok := false;
        return;
      }
      ghost var w := Ledger();
      CreditGains(hellos[peer], |data|);
      hellos := hellos[peer := Credited(hellos[peer], |data|)];
      received := Plus(received, peer, |data|);
      assert Advance(w, Datagram(peer, |data|)) == Some(Ledger()) by { CreditsTo(w, peer, |data|); }
      RunAgain(start, events, Datagram(peer, |data|));
      events := events + [Datagram(peer, |data|)];
      RunKeeps(start, events);
    }

    /** The records of a datagram, one by one. */
    method ScreenAll(data: seq<byte>, peer: nat, now: int, cidLength: int, ghost start: World, ghost before: seq<Event>)
      returns (ok: bool, ghost events: seq<Event>)
      requires Invariant(start) && Run(start, before) == Some(Ledger()) && 0 <= budget.limit
      modifies this`hellos, budget
      ensures Run(start, events) == Some(Ledger())
      ensures ok <==> OnlyGreetings(data, cidLength) && Admits(AllPieces(data, cidLength), old(Entry(peer)), budget.limit, now)
      ensures ok ==> Entry(peer) == EntryAfter(AllPieces(data, cidLength), old(Entry(peer)), now)
    {
      assert start.cache.pool.Limited?;
      hide Run, Invariant, Records.Parse, Admits, EntryAfter, Pieces, Greetings;
      ghost var entry := Entry(peer);
      var rest := data;
      events := before;
      ghost var done: seq<Fragment> := [];
      NoPieces(entry, budget.limit, now);
      while rest != []
        invariant Run(start, events) == Some(Ledger())
        invariant OnlyGreetings(data, cidLength) <==> OnlyGreetings(rest, cidLength)
        invariant AllPieces(data, cidLength) == done + AllPieces(rest, cidLength)
        invariant Admits(done, entry, budget.limit, now) && Entry(peer) == EntryAfter(done, entry, now)
        decreases |rest|
      {
        var parsed := Records.Parse(rest, cidLength);
        if parsed.Err? || parsed.value.0.encrypted || (parsed.value.0.typ != 22 && parsed.value.0.typ != 26) {
          return false, events;
        }
        Records.ParseShrinks(rest, cidLength);
        ghost var more := if parsed.value.0.typ == 22 then Pieces(parsed.value.0.body) else [];
        Onward(done, more, AllPieces(parsed.value.1, cidLength), entry, budget.limit, now);
        NoPieces(Entry(peer), budget.limit, now);
        if parsed.value.0.typ == 22 {
          ok, events := ScreenRecord(parsed.value.0.body, peer, now, start, events);
          if !ok { return; }
        }
        rest := parsed.value.1;
        done := done + more;
      }
      assert done + [] == done;
      ok := true;
    }
  }

  /** Three times what was sent is added to the credit, up to three times the longest ClientHello. */
  predicate Gains(h: Hello, length: nat, g: Hello) {
    && g.(credit := h.credit) == h && g.credit <= h.credit + 3 * length && g.credit <= 3 * MAX_CLIENT_HELLO
    && (g.credit == h.credit + 3 * length || g.credit == 3 * MAX_CLIENT_HELLO)
  }

  lemma CreditGains(h: Hello, length: nat)
    ensures Gains(h, length, Credited(h, length))
  {
  }

  lemma NextPiece(body: seq<byte>)
    requires body != []
    ensures var parsed := Fragments.Parse(body);
      if parsed.Err? then !Greetings(body)
      else
        && (Greetings(body) <==> Greets(parsed.value.0) && Greetings(parsed.value.1))
        && Pieces(body) == [parsed.value.0] + Pieces(parsed.value.1)
  {
  }

  /** What has been looked at, the next part, and the rest. */
  lemma Onward(done: seq<Fragment>, part: seq<Fragment>, rest: seq<Fragment>, entry: Option<Hello>, limit: nat, now: int)
    requires Admits(done, entry, limit, now)
    ensures done + (part + rest) == done + part + rest
    ensures Admits(done + part, entry, limit, now) <==> Admits(part, EntryAfter(done, entry, now), limit, now)
    ensures Admits(done + (part + rest), entry, limit, now) ==> Admits(part, EntryAfter(done, entry, now), limit, now)
    ensures EntryAfter(done + part, entry, now) == EntryAfter(part, EntryAfter(done, entry, now), now)
  {
    hide Admits, EntryAfter;
    assert done + (part + rest) == done + part + rest;
    AdmitsSplits(done, part, entry, limit, now);
    AdmitsSplits(done + part, rest, entry, limit, now);
  }

  lemma NoPieces(entry: Option<Hello>, limit: nat, now: int)
    ensures Admits([], entry, limit, now) && EntryAfter([], entry, now) == entry
  {
  }

  lemma GreetsEarly(f: Fragment)
    requires Greets(f)
    ensures f.sequence <= 1
  {
  }

  lemma ScreenedEntry(pieces: seq<Fragment>, entry: Option<Hello>, now: int)
    ensures EntryAfter(pieces, entry, now).Some? <==> entry.Some? || pieces != []
  {
  }
}
