/** The working datagram size of a path: shrinking, probing, and growing only to sizes a probe has proved. */
module Discovery {
  import opened Wire
  import opened MtuSearch
  import opened Sizing

  const MIN_PATH_MTU := 256
  const MAX_REDUCTIONS := 8
  const PROBE_TIMEOUT := 16000
  const PROBE_PACE := 1000
  const RAISE_TIMER := 600000
  const CONFIRM_TIMER := 10000
  const MAX_CONFIRM_FAILS := 3

  // ----- the state -----

  datatype Kind = ConfirmProbe | SearchProbe
  datatype Phase = Disabled | Confirm | Search | Watch

  datatype Probe = Probe(cookie: seq<byte>, size: int, generation: nat, deadline: int, path: nat, kind: Kind)

  datatype Mtu = Mtu(
    configured: int, pathMtu: int, reductions: nat, generation: nat, outstanding: Option<Probe>, phase: Phase,
    finder: Finder, nextProbe: Option<int>, raiseAt: Option<int>, confirmAt: Option<int>,
    confirmFails: nat, appSinceProbe: bool, searchAfterConfirm: bool)

  /** What discovery depends on elsewhere in the session. */
  datatype Around = Around(enabled: bool, busy: bool, cid: nat, peer: nat)

  datatype SendResult = Sent | TooLong | Unsent

  /** The finder before a search has begun. */
  function Idle(): Finder { Finder(0, [0, 0, 0], false, 0) }

  function Initial(configured: int): Mtu {
    Mtu(configured, 0, 0, 0, None, Disabled, Idle(), None, None, None, 0, false, false)
  }

  function Effective(m: Mtu): int {
    if m.pathMtu > 0 then Min(m.pathMtu, m.configured) else m.configured
  }

  function Reduce(m: Mtu, tooBig: int): (r: (Mtu, bool)) {
    var current := Effective(m);
    if current <= MIN_PATH_MTU || m.reductions >= MAX_REDUCTIONS then (m, false)
    else
      var half := current / 2;
      var capped := if tooBig > MIN_PATH_MTU && tooBig - 1 < half then tooBig - 1 else half;
      var next := if capped < MIN_PATH_MTU then MIN_PATH_MTU else capped;
      if next >= current then (m, false) else (m.(pathMtu := next, reductions := m.reductions + 1), true)
  }

  function SetWorking(m: Mtu, n: int): Mtu {
    if n <= 0 then m
    else
      var capped := Min(n, m.configured);
      var size := if capped < MIN_PATH_MTU then MIN_PATH_MTU else capped;
      if size <= Effective(m) then m else m.(pathMtu := size, reductions := 0)
  }

  predicate Due(at: Option<int>, now: int) { at.Some? && now >= at.value }

  function ProbeMin(a: Around): int { Overhead(a.cid) + RRC_MESSAGE }

  function ProbeCeiling(m: Mtu, a: Around): int { Min(m.configured, ProbeMin(a) + MAX_CONTENT - RRC_MESSAGE) }

  function Restart(m: Mtu, enabled: bool): Mtu {
    m.(generation := m.generation + 1, outstanding := None, confirmFails := 0, finder := Idle(),
       nextProbe := None, raiseAt := None, confirmAt := None,
       phase := if enabled then Confirm else Disabled, searchAfterConfirm := enabled)
  }

  function ScheduleWatch(m: Mtu, now: int): Mtu {
    m.(phase := Watch, raiseAt := if m.raiseAt.None? || now >= m.raiseAt.value then Some(now + RAISE_TIMER) else m.raiseAt,
       confirmAt := Some(now + CONFIRM_TIMER), nextProbe := None)
  }

  function BeginSearch(m: Mtu, a: Around, now: int): Mtu {
    var finder := Init(Effective(m), ProbeCeiling(m, a));
    var cleared := m.(raiseAt := None, finder := finder);
    if Done(finder) then ScheduleWatch(cleared, now) else cleared.(phase := Search)
  }

  function Grow(m: Mtu, size: int): Mtu {
    if size > Effective(m) then SetWorking(m, size) else m
  }

  function ProbeAcked(m: Mtu, probe: Probe, a: Around, now: int): Mtu
    requires |m.finder.lost| == 3
  {
    var paced := m.(nextProbe := Some(now + PROBE_PACE));
    match probe.kind
    case ConfirmProbe =>
      var grown := Grow(paced.(confirmFails := 0), probe.size);
      if m.searchAfterConfirm then BeginSearch(grown, a, now) else ScheduleWatch(grown, now)
    case SearchProbe =>
      var grown := Grow(paced.(finder := OnAcked(m.finder, probe.size)), probe.size);
      if Done(grown.finder) then ScheduleWatch(grown, now) else grown
  }

  function ProbeLost(m: Mtu, kind: Kind, size: int, now: int, hard: bool): Mtu
    requires |m.finder.lost| == 3
  {
    var paced := m.(nextProbe := Some(now + PROBE_PACE));
    match kind
    case ConfirmProbe =>
      var fails := if hard then MAX_CONFIRM_FAILS else m.confirmFails + 1;
      if fails < MAX_CONFIRM_FAILS then paced.(confirmFails := fails)
      else
        var (reduced, ok) := Reduce(paced.(confirmFails := 0), size);
        if ok then reduced.(searchAfterConfirm := true, phase := Confirm) else ScheduleWatch(reduced, now)
    case SearchProbe =>
      var after := paced.(finder := OnLost(m.finder, size));
      if Done(after.finder) then ScheduleWatch(after, now) else after
  }

  /** Sends a probe of at least the smallest size an RRC record can have; only a probe that left is outstanding. */
  function SendProbe(m: Mtu, wanted: int, kind: Kind, a: Around, cookie: seq<byte>, result: SendResult, now: int): Mtu
    requires |m.finder.lost| == 3
  {
    var size := if wanted < ProbeMin(a) then ProbeMin(a) else wanted;
    if size > ProbeCeiling(m, a) then ScheduleWatch(m, now)
    else if kind.SearchProbe? && size <= m.finder.floor then ScheduleWatch(m, now)
    else if !a.enabled || a.busy || m.outstanding.Some? then m.(nextProbe := Some(now + PROBE_PACE))
    else if ProbePadding(size, a.cid).Err? then ScheduleWatch(m, now)
    else match result
      case Sent =>
        m.(outstanding := Some(Probe(cookie, size, m.generation, now + PROBE_TIMEOUT, a.peer, kind)), appSinceProbe := false,
           finder := if kind.SearchProbe? then m.finder.(probes := m.finder.probes + 1) else m.finder)
      case TooLong =>
        if kind.ConfirmProbe? then ProbeLost(m, ConfirmProbe, size, now, true)
        else
          var after := m.(finder := RejectHard(m.finder, size), nextProbe := Some(now + PROBE_PACE));
          if Done(after.finder) then ScheduleWatch(after, now) else after
      case Unsent => m.(nextProbe := Some(now + PROBE_PACE))
  }

  function SearchOn(m: Mtu, a: Around, cookie: seq<byte>, result: SendResult, now: int): Mtu
    requires |m.finder.lost| == 3
  {
    var size := NextSize(m.finder);
    if size == 0 then ScheduleWatch(m, now) else SendProbe(m, size, SearchProbe, a, cookie, result, now)
  }

  /** Once the size has settled: probe again only while application data flows and a timer is due. */
  function OnWatch(m: Mtu, a: Around, cookie: seq<byte>, result: SendResult, now: int): Mtu
    requires |m.finder.lost| == 3
  {
    var s := m.(appSinceProbe := false);
    if !m.appSinceProbe then m
    else if Due(m.raiseAt, now) then
      var b := BeginSearch(s, a, now);
      if b.phase.Search? then SearchOn(b, a, cookie, result, now) else b
    else if Due(m.confirmAt, now) then
      SendProbe(s.(phase := Confirm, searchAfterConfirm := false, confirmFails := 0), Effective(s), ConfirmProbe, a, cookie, result, now)
    else m
  }

  function TickDiscovery(m: Mtu, a: Around, cookie: seq<byte>, result: SendResult, now: int): Mtu
    requires |m.finder.lost| == 3
  {
    if m.outstanding.Some? then m
    else if !a.enabled then m.(phase := Disabled)
    else
      var s := if m.phase.Disabled? then Restart(m, true) else m;
      if s.nextProbe.Some? && now < s.nextProbe.value then s
      else match s.phase
        case Disabled => s
        case Confirm => SendProbe(s, Effective(s), ConfirmProbe, a, cookie, result, now)
        case Search => SearchOn(s, a, cookie, result, now)
        case Watch => OnWatch(s, a, cookie, result, now)
  }

  /** An outstanding probe whose time is up counts as lost. */
  function Expired(m: Mtu, now: int): Mtu
    requires |m.finder.lost| == 3
  {
    if m.outstanding.Some? && now >= m.outstanding.value.deadline
    then ProbeLost(m.(outstanding := None), m.outstanding.value.kind, m.outstanding.value.size, now, false)
    else m
  }

  function Tick(m: Mtu, a: Around, cookie: seq<byte>, result: SendResult, now: int): Mtu
    requires |m.finder.lost| == 3
  {
    TickDiscovery(Expired(m, now), a, cookie, result, now)
  }

  datatype Reply = Response | Drop | OtherReply

  /** A reply counts only for the outstanding probe: same generation, cookie and path, and in time. */
  predicate Answers(m: Mtu, a: Around, path: nat, reply: Reply, cookie: seq<byte>, now: int) {
    && m.outstanding.Some? && !a.busy && !reply.OtherReply?
    && m.outstanding.value.generation == m.generation && m.outstanding.value.cookie == cookie
    && m.outstanding.value.path == path && now < m.outstanding.value.deadline
  }

  function Receive(m: Mtu, a: Around, path: nat, reply: Reply, cookie: seq<byte>, now: int): Mtu
    requires |m.finder.lost| == 3
  {
    if !Answers(m, a, path, reply, cookie, now) then m
    else
      var probe := m.outstanding.value;
      var s := m.(outstanding := None);
      if reply.Drop? then ProbeLost(s, probe.kind, probe.size, now, false) else ProbeAcked(s, probe, a, now)
  }

  datatype Event =
    | Timer(a: Around, cookie: seq<byte>, result: SendResult, now: int)
    | Replied(a: Around, path: nat, reply: Reply, cookie: seq<byte>, now: int)
    | PeerMoved(a: Around)
    | WriteTooLong(a: Around, size: int)
    | HandshakeUnanswered(size: int)
    | ApplicationData

  function Next(m: Mtu, e: Event): Mtu
    requires |m.finder.lost| == 3
  {
    match e
    case Timer(a, cookie, result, now) => Tick(m, a, cookie, result, now)
    case Replied(a, path, reply, cookie, now) => Receive(m, a, path, reply, cookie, now)
    case PeerMoved(a) => Restart(m, a.enabled)
    case WriteTooLong(a, size) => var r := Reduce(m, size).0; if a.enabled then Restart(r, true) else r
    case HandshakeUnanswered(size) => Reduce(m, size).0
    case ApplicationData => m.(appSinceProbe := true)
  }

  // ----- what holds throughout -----

  predicate Valid(m: Mtu) {
    && MIN_PATH_MTU <= m.configured
    && |m.finder.lost| == 3
    && (m.pathMtu == 0 || m.pathMtu >= MIN_PATH_MTU)
    && (m.outstanding.Some? ==> m.outstanding.value.size <= m.configured && m.outstanding.value.generation == m.generation)
  }

  lemma InRange(m: Mtu)
    requires Valid(m)
    ensures MIN_PATH_MTU <= Effective(m) <= m.configured
  {
  }

  /** Still valid, and no larger a working size than before. */
  predicate Shrinks(m: Mtu, n: Mtu) {
    Valid(n) && n.configured == m.configured && Effective(n) <= Effective(m)
  }

  lemma ReduceShrinks(m: Mtu, tooBig: int)
    requires Valid(m)
    ensures Shrinks(m, Reduce(m, tooBig).0)
    ensures Reduce(m, tooBig).1 ==> Effective(Reduce(m, tooBig).0) < Effective(m)
  {
  }

  lemma LostShrinks(m: Mtu, kind: Kind, size: int, now: int, hard: bool)
    requires Valid(m)
    ensures Shrinks(m, ProbeLost(m, kind, size, now, hard))
  {
    ReduceShrinks(m.(nextProbe := Some(now + PROBE_PACE), confirmFails := 0), size);
    hide Reduce, Done, Above;
  }

  lemma SendShrinks(m: Mtu, wanted: int, kind: Kind, a: Around, cookie: seq<byte>, result: SendResult, now: int)
    requires Valid(m)
    ensures Shrinks(m, SendProbe(m, wanted, kind, a, cookie, result, now))
  {
    LostShrinks(m, ConfirmProbe, if wanted < ProbeMin(a) then ProbeMin(a) else wanted, now, true);
    hide ProbeLost, Done, Above, ProbeMin;
  }

  lemma BeginKeeps(m: Mtu, a: Around, now: int)
    requires Valid(m)
    ensures Shrinks(m, BeginSearch(m, a, now)) && Shrinks(BeginSearch(m, a, now), m)
  {
    hide Done;
  }

  lemma WatchShrinks(m: Mtu, a: Around, cookie: seq<byte>, result: SendResult, now: int)
    requires Valid(m)
    ensures Shrinks(m, OnWatch(m, a, cookie, result, now))
  {
    hide SendProbe, NextSize, BeginSearch;
    var s := m.(appSinceProbe := false);
    var b := BeginSearch(s, a, now);
    BeginKeeps(s, a, now);
    SendShrinks(b, NextSize(b.finder), SearchProbe, a, cookie, result, now);
    SendShrinks(s.(phase := Confirm, searchAfterConfirm := false, confirmFails := 0), Effective(s), ConfirmProbe, a, cookie, result, now);
  }

  lemma TickShrinks(m: Mtu, a: Around, cookie: seq<byte>, result: SendResult, now: int)
    requires Valid(m)
    ensures Shrinks(m, TickDiscovery(m, a, cookie, result, now))
  {
    hide SendProbe, NextSize, OnWatch;
    if m.outstanding.None? && a.enabled {
      var s := if m.phase.Disabled? then Restart(m, true) else m;
      SendShrinks(s, Effective(s), ConfirmProbe, a, cookie, result, now);
      SendShrinks(s, NextSize(s.finder), SearchProbe, a, cookie, result, now);
      WatchShrinks(s, a, cookie, result, now);
    }
  }

  /** Only the size of an answered probe can raise the working size, and raises it to exactly that size. */
  lemma AckedGrows(m: Mtu, probe: Probe, a: Around, now: int)
    requires Valid(m) && probe.size <= m.configured
    ensures var n := ProbeAcked(m, probe, a, now);
      && Valid(n) && n.configured == m.configured
      && Effective(n) == if probe.size > Effective(m) then probe.size else Effective(m)
  {
    if probe.kind.ConfirmProbe? {
      BeginKeeps(Grow(m.(nextProbe := Some(now + PROBE_PACE), confirmFails := 0), probe.size), a, now);
    }
    hide Done, Above, BeginSearch;
  }

  /** The answer to the outstanding probe, of the current generation, to a size larger than the working one. */
  predicate Proves(m: Mtu, e: Event) {
    && e.Replied? && e.reply.Response? && Answers(m, e.a, e.path, e.reply, e.cookie, e.now)
    && m.outstanding.value.size > Effective(m)
  }

  lemma StepKeeps(m: Mtu, e: Event)
    requires Valid(m)
    ensures Valid(Next(m, e)) && Next(m, e).configured == m.configured
    ensures Effective(Next(m, e)) > Effective(m) <==> Proves(m, e)
    ensures Proves(m, e) ==> Effective(Next(m, e)) == m.outstanding.value.size
  {
    hide ProbeLost, ProbeAcked, TickDiscovery, Reduce;
    if m.outstanding.Some? && (e.Timer? || e.Replied?) {
      LostShrinks(m.(outstanding := None), m.outstanding.value.kind, m.outstanding.value.size, e.now, false);
    }
    match e
    case Timer(a, cookie, result, now) =>
      TickShrinks(Expired(m, now), a, cookie, result, now);
    case Replied(a, path, reply, cookie, now) =>
      if m.outstanding.Some? { AckedGrows(m.(outstanding := None), m.outstanding.value, a, now); }
    case PeerMoved(_) =>
    case WriteTooLong(_, size) => ReduceShrinks(m, size);
    case HandshakeUnanswered(size) => ReduceShrinks(m, size);
    case ApplicationData =>
  }

  function Run(m: Mtu, events: seq<Event>): (states: seq<Mtu>)
    requires Valid(m)
    ensures |states| == |events| + 1 && states[0] == m
    ensures forall i :: 0 <= i < |states| ==> Valid(states[i]) && states[i].configured == m.configured
    decreases |events|
  {
    if events == [] then [m]
    else
      StepKeeps(m, events[0]);
      [m] + Run(Next(m, events[0]), events[1..])
  }

  /** In every run the working size stays between 256 and the configured size, and grows exactly when a larger probe of the current generation is answered, to that probe's size. */
  lemma {:induction false} WorkingSizeIsEarned(m: Mtu, events: seq<Event>, i: nat)
    requires Valid(m) && i < |events|
    ensures var states := Run(m, events);
      && MIN_PATH_MTU <= Effective(states[i]) <= m.configured
      && states[i + 1] == Next(states[i], events[i])
      && (Effective(states[i + 1]) > Effective(states[i]) <==> Proves(states[i], events[i]))
      && (Proves(states[i], events[i]) ==> Effective(states[i + 1]) == states[i].outstanding.value.size)
    decreases |events|
  {
    StepKeeps(m, events[0]);
    var next := Next(m, events[0]);
    hide Next, Effective;
    if i == 0 {
      InRange(m);
    } else {
      WorkingSizeIsEarned(next, events[1..], i - 1);
    }
  }

  // ----- what a single call promises -----

  /** A reduction succeeds exactly above the minimum and within the budget, to at most half the size and below the size that was too big. */
  lemma ReduceExactly(m: Mtu, tooBig: int)
    requires Valid(m)
    ensures var (n, ok) := Reduce(m, tooBig);
      && (ok <==> Effective(m) > MIN_PATH_MTU && m.reductions < MAX_REDUCTIONS)
      && (ok ==> Effective(n) <= Max(MIN_PATH_MTU, Effective(m) / 2) && (tooBig > MIN_PATH_MTU ==> Effective(n) < tooBig))
  {
  }

  function Max(a: int, b: int): int { if a < b then b else a }

  /** No probe is put out, or one: when none was out, discovery is on and the path is not being validated, of a size that
      encodes and that the endpoint allows, and answered only under the current generation and on the current path. */
  predicate PutsOut(m: Mtu, n: Mtu, a: Around, now: int) {
    n.outstanding == m.outstanding ||
    (m.outstanding.None? && a.enabled && !a.busy && n.outstanding.Some? &&
     var p := n.outstanding.value;
     ProbeMin(a) <= p.size <= ProbeCeiling(n, a) && p.generation == n.generation && p.path == a.peer && p.deadline == now + PROBE_TIMEOUT)
  }

  lemma LostLeaves(m: Mtu, kind: Kind, size: int, now: int, hard: bool)
    requires |m.finder.lost| == 3
    ensures var n := ProbeLost(m, kind, size, now, hard); n.outstanding == m.outstanding && n.generation == m.generation && n.configured == m.configured
    ensures Valid(m) && Effective(ProbeLost(m, kind, size, now, hard)) < Effective(m) ==>
      kind.ConfirmProbe? && (hard || m.confirmFails + 1 >= MAX_CONFIRM_FAILS)
  {
    hide Done, Above;
  }

  /** The size a reduction leads to: half, or just below what was too big if that is less, but never under the minimum. */
  function Reduced(current: int, tooBig: int): int {
    Max(MIN_PATH_MTU, if tooBig > MIN_PATH_MTU then Min(current / 2, tooBig - 1) else current / 2)
  }

  /** A lost probe. The size shrinks exactly when a confirmation was refused or lost for the third time and a reduction is left; the new size is
      then confirmed and searched from. Without one the size is watched. Other losses are counted, or narrow the search. */
  lemma LostMoves(m: Mtu, kind: Kind, size: int, now: int, hard: bool)
    requires Valid(m)
    ensures var n := ProbeLost(m, kind, size, now, hard);
      var last := kind.ConfirmProbe? && (hard || m.confirmFails + 1 >= 3);
      var left := Effective(m) > 256 && m.reductions < 8;
      && (Effective(n) < Effective(m) <==> last && left)
      && (last && left ==> n.phase.Confirm? && n.searchAfterConfirm && n.confirmFails == 0 && Effective(n) == Reduced(Effective(m), size) && n.reductions == m.reductions + 1)
      && (last && !left ==> n.phase.Watch? && Effective(n) == Effective(m) && n.confirmFails == 0)
      && (kind.ConfirmProbe? && !last ==> n.confirmFails == m.confirmFails + 1 && n.phase == m.phase && Effective(n) == Effective(m))
      && (kind.SearchProbe? ==> n.finder == OnLost(m.finder, size) && n.phase == (if Done(n.finder) then Watch else m.phase) && Effective(n) == Effective(m))
      && n.nextProbe == (if n.phase.Watch? && (last || (kind.SearchProbe? && Done(n.finder))) then None else Some(now + 1000))
  {
    hide Done, Above;
  }

  /** An answered probe. A confirmation goes on to a search if one is to follow and there is a larger size to ask for, and settles otherwise; a search
      goes on until it is done. */
  lemma AckedMoves(m: Mtu, probe: Probe, a: Around, now: int)
    requires Valid(m) && probe.size <= m.configured
    ensures var n := ProbeAcked(m, probe, a, now);
      && (probe.kind.ConfirmProbe? ==>
            && n.confirmFails == 0
            && (n.phase.Search? <==> m.searchAfterConfirm && Ceiling(n.finder) - n.finder.floor > 21 && n.finder == Init(Effective(n), ProbeCeiling(m, a)))
            && (n.phase.Search? || n.phase.Watch?))
      && (probe.kind.SearchProbe? ==> n.finder == OnAcked(m.finder, probe.size) && n.phase == if Done(n.finder) then Watch else m.phase)
  {
    AckedGrows(m, probe, a, now);
    hide Above;
  }

  lemma SendPutsOut(m: Mtu, wanted: int, kind: Kind, a: Around, cookie: seq<byte>, result: SendResult, now: int)
    requires |m.finder.lost| == 3
    ensures var n := SendProbe(m, wanted, kind, a, cookie, result, now);
      && PutsOut(m, n, a, now) && n.generation == m.generation && n.configured == m.configured
      && (n.outstanding != m.outstanding ==>
            && result.Sent? && n.outstanding.value.cookie == cookie && n.outstanding.value.kind == kind
            && n.outstanding.value.size >= wanted && (kind.SearchProbe? ==> n.outstanding.value.size > m.finder.floor))
  {
    LostLeaves(m, ConfirmProbe, if wanted < ProbeMin(a) then ProbeMin(a) else wanted, now, true);
    hide ProbeLost, Done, Above;
  }

  lemma WatchPutsOut(m: Mtu, a: Around, cookie: seq<byte>, result: SendResult, now: int)
    requires |m.finder.lost| == 3
    ensures PutsOut(m, OnWatch(m, a, cookie, result, now), a, now)
  {
    hide SendProbe, NextSize, PutsOut;
    var s := m.(appSinceProbe := false);
    var b := BeginSearch(s, a, now);
    assert b.outstanding == m.outstanding && b.generation == m.generation && b.configured == m.configured;
    SendPutsOut(b, NextSize(b.finder), SearchProbe, a, cookie, result, now);
    var t := s.(phase := Confirm, searchAfterConfirm := false, confirmFails := 0);
    SendPutsOut(t, Effective(s), ConfirmProbe, a, cookie, result, now);
    SamePutsOut(b, m, OnWatch(m, a, cookie, result, now), a, now);
    SamePutsOut(t, m, OnWatch(m, a, cookie, result, now), a, now);
    assert PutsOut(m, m, a, now) && PutsOut(m, b, a, now) && PutsOut(m, ScheduleWatch(b, now), a, now) by { Quietly(m, m, a, now); Quietly(m, b, a, now); Quietly(m, ScheduleWatch(b, now), a, now); }
  }

  lemma TickWaits(m: Mtu, a: Around, cookie: seq<byte>, result: SendResult, now: int)
    requires |m.finder.lost| == 3 && m.outstanding.Some?
    ensures TickDiscovery(m, a, cookie, result, now) == m
  {
  }

  lemma Quietly(m: Mtu, n: Mtu, a: Around, now: int)
    requires n.outstanding == m.outstanding
    ensures PutsOut(m, n, a, now)
  {
  }

  lemma SamePutsOut(b: Mtu, m: Mtu, n: Mtu, a: Around, now: int)
    requires b.outstanding == m.outstanding
    ensures PutsOut(b, n, a, now) <==> PutsOut(m, n, a, now)
  {
  }

  lemma TickPutsOut(m: Mtu, a: Around, cookie: seq<byte>, result: SendResult, now: int)
    requires |m.finder.lost| == 3
    ensures PutsOut(m, TickDiscovery(m, a, cookie, result, now), a, now)
  {
    hide SendProbe, NextSize, OnWatch;
    if m.outstanding.None? && a.enabled {
      var s := if m.phase.Disabled? then Restart(m, true) else m;
      SendPutsOut(s, Effective(s), ConfirmProbe, a, cookie, result, now);
      SendPutsOut(s, NextSize(s.finder), SearchProbe, a, cookie, result, now);
      WatchPutsOut(s, a, cookie, result, now);
    }
  }

  /** A probe of this kind and size goes out if the endpoint allows the size; otherwise the present size is watched. */
  predicate Asks(m: Mtu, n: Mtu, kind: Kind, size: int, a: Around, cookie: seq<byte>, now: int) {
    if size <= ProbeCeiling(m, a)
    then n.outstanding == Some(Probe(cookie, size, n.generation, now + 16000, a.peer, kind)) && Effective(n) == Effective(m)
    else n.phase.Watch? && n.outstanding.None? && Effective(n) == Effective(m)
  }

  lemma SendAsks(m: Mtu, wanted: int, kind: Kind, a: Around, cookie: seq<byte>, now: int)
    requires |m.finder.lost| == 3 && m.outstanding.None? && a.enabled && !a.busy && (kind.SearchProbe? ==> Max(wanted, ProbeMin(a)) > m.finder.floor)
    ensures Asks(m, SendProbe(m, wanted, kind, a, cookie, Sent, now), kind, Max(wanted, ProbeMin(a)), a, cookie, now)
  {
    hide Done, Above;
  }

  /** What a timer asks for when discovery is on, no probe is out and its pace allows one: a confirmation of the working size, when one is due; the next
      size of a search; the first size of a new search, when that is due and there is room for one. Watching without data it asks for nothing. */
  lemma TimerAsks(m: Mtu, a: Around, cookie: seq<byte>, now: int)
    requires Valid(m) && m.outstanding.None? && a.enabled && !a.busy && (m.nextProbe.None? || now >= m.nextProbe.value)
    requires m.phase.Search? ==> Ordered(m.finder)
    ensures var n := TickDiscovery(m, a, cookie, Sent, now);
      var raise, confirm := Due(m.raiseAt, now), Due(m.confirmAt, now);
      var first := Init(Effective(m), ProbeCeiling(m, a));
      match m.phase
      case Disabled => Asks(m, n, ConfirmProbe, Max(Effective(m), ProbeMin(a)), a, cookie, now)
      case Confirm => Asks(m, n, ConfirmProbe, Max(Effective(m), ProbeMin(a)), a, cookie, now)
      case Search =>
        if Done(m.finder) then n.phase.Watch? && n.outstanding.None?
        else Asks(m, n, SearchProbe, Max(NextSize(m.finder), ProbeMin(a)), a, cookie, now)
      case Watch =>
        if !m.appSinceProbe || (!raise && !confirm) then n == m
        else if raise then
          if Done(first) then n.phase.Watch? && n.outstanding.None? else Asks(m, n, SearchProbe, Max(NextSize(first), ProbeMin(a)), a, cookie, now)
        else Asks(m, n, ConfirmProbe, Max(Effective(m), ProbeMin(a)), a, cookie, now)
  {
    hide SendProbe, NextSize, Done;
    InRange(m);
    match m.phase
    case Disabled =>
      SendAsks(Restart(m, true), Effective(m), ConfirmProbe, a, cookie, now);
    case Confirm =>
      SendAsks(m, Effective(m), ConfirmProbe, a, cookie, now);
    case Search =>
      NextSizeInside(m.finder);
      if !Done(m.finder) { SendAsks(m, NextSize(m.finder), SearchProbe, a, cookie, now); }
    case Watch =>
      WatchAsks(m, a, cookie, now);
  }

  /** A confirmation of the working size is under way. */
  predicate Confirming(m: Mtu, a: Around) {
    && Valid(m) && m.phase.Confirm? && a.enabled && !a.busy && Max(Effective(m), ProbeMin(a)) <= ProbeCeiling(m, a)
    && m.outstanding.Some? && m.outstanding.value.kind.ConfirmProbe? && m.outstanding.value.size == Max(Effective(m), ProbeMin(a))
  }

  /** A confirmation that went unanswered is noticed when its time is up, and repeated one pace later. */
  lemma UnansweredIsRepeated(m: Mtu, a: Around, c1: seq<byte>, c2: seq<byte>, result: SendResult, t: int, u: int)
    requires Confirming(m, a) && m.confirmFails < 2 && m.outstanding.value.deadline <= t && t + 1000 <= u
    ensures |Tick(m, a, c1, result, t).finder.lost| == 3
    ensures var n := Tick(Tick(m, a, c1, result, t), a, c2, Sent, u);
      && Confirming(n, a) && n.confirmFails == m.confirmFails + 1 && Effective(n) == Effective(m) && n.reductions == m.reductions
      && n.outstanding.value.deadline == u + 16000
  {
    LostMoves(m.(outstanding := None), ConfirmProbe, m.outstanding.value.size, t, false);
    LostShrinks(m.(outstanding := None), ConfirmProbe, m.outstanding.value.size, t, false);
    LostLeaves(m.(outstanding := None), ConfirmProbe, m.outstanding.value.size, t, false);
    var lost := Expired(m, t);
    assert lost.outstanding.None? && lost.phase.Confirm? && lost.nextProbe == Some(t + 1000);
    hide ProbeLost, Reduce, Done, Above;
    assert Tick(m, a, c1, result, t) == lost;
  }

  /** A path that has stopped carrying the working size is found out by its silence: after three confirmations in a row without an answer the
      size comes down, as long as a reduction is left, and the smaller size is confirmed next. */
  lemma SilenceShrinks(m: Mtu, a: Around, c: seq<byte>, d: seq<byte>, x: SendResult, t: seq<int>)
    requires Confirming(m, a) && m.confirmFails == 0 && Effective(m) > 256 && m.reductions < 8
    requires |t| == 5 && m.outstanding.value.deadline <= t[0] && t[0] + 1000 <= t[1] && t[1] + 16000 <= t[2] && t[2] + 1000 <= t[3] && t[3] + 16000 <= t[4]
    ensures |Tick(m, a, c, x, t[0]).finder.lost| == 3
    ensures |Tick(Tick(m, a, c, x, t[0]), a, c, Sent, t[1]).finder.lost| == 3
    ensures |Tick(Tick(Tick(m, a, c, x, t[0]), a, c, Sent, t[1]), a, d, x, t[2]).finder.lost| == 3
    ensures var n := Tick(Tick(Tick(Tick(m, a, c, x, t[0]), a, c, Sent, t[1]), a, d, x, t[2]), a, d, Sent, t[3]);
      && |n.finder.lost| == 3
      && var shrunk := Tick(n, a, c, x, t[4]);
         && Effective(shrunk) == Reduced(Effective(m), Max(Effective(m), ProbeMin(a))) < Effective(m)
         && shrunk.phase.Confirm? && shrunk.searchAfterConfirm && shrunk.confirmFails == 0 && shrunk.outstanding.None?
  {
    hide Tick, Confirming;
    UnpackConfirming(m, a);
    UnansweredIsRepeated(m, a, c, c, x, t[0], t[1]);
    var m1 := Tick(Tick(m, a, c, x, t[0]), a, c, Sent, t[1]);
    UnpackConfirming(m1, a);
    UnansweredIsRepeated(m1, a, d, d, x, t[2], t[3]);
    var m2 := Tick(Tick(m1, a, d, x, t[2]), a, d, Sent, t[3]);
    UnpackConfirming(m2, a);
    ThirdLossShrinks(m2, a, c, x, t[4]);
  }

  lemma UnpackConfirming(m: Mtu, a: Around)
    requires Confirming(m, a)
    ensures |m.finder.lost| == 3 && m.outstanding.Some?
  {
  }

  lemma ThirdLossShrinks(m: Mtu, a: Around, c: seq<byte>, x: SendResult, t: int)
    requires Confirming(m, a) && m.confirmFails == 2 && Effective(m) > 256 && m.reductions < 8 && m.outstanding.value.deadline <= t
    ensures var n := Tick(m, a, c, x, t);
      && Effective(n) == Reduced(Effective(m), Max(Effective(m), ProbeMin(a))) < Effective(m)
      && n.phase.Confirm? && n.searchAfterConfirm && n.confirmFails == 0 && n.outstanding.None?
  {
    var w := m.(outstanding := None);
    LostMoves(w, ConfirmProbe, m.outstanding.value.size, t, false);
    LostLeaves(w, ConfirmProbe, m.outstanding.value.size, t, false);
    hide ProbeLost, Reduce, Done, Above;
  }

  lemma WatchAsks(m: Mtu, a: Around, cookie: seq<byte>, now: int)
    requires Valid(m) && m.outstanding.None? && a.enabled && !a.busy
    ensures var n := OnWatch(m, a, cookie, Sent, now);
      var first := Init(Effective(m), ProbeCeiling(m, a));
      if !m.appSinceProbe || (!Due(m.raiseAt, now) && !Due(m.confirmAt, now)) then n == m
      else if Due(m.raiseAt, now) then
        if Done(first) then n.phase.Watch? && n.outstanding.None? else Asks(m, n, SearchProbe, Max(NextSize(first), ProbeMin(a)), a, cookie, now)
      else Asks(m, n, ConfirmProbe, Max(Effective(m), ProbeMin(a)), a, cookie, now)
  {
    hide SendProbe, NextSize, Done;
    var s := m.(appSinceProbe := false);
    if Due(m.raiseAt, now) {
      var first := Init(Effective(m), ProbeCeiling(m, a));
      InitOrdered(Effective(m), ProbeCeiling(m, a));
      NextSizeInside(first);
      if !Done(first) { SendAsks(BeginSearch(s, a, now), NextSize(first), SearchProbe, a, cookie, now); }
    } else {
      SendAsks(s.(phase := Confirm, searchAfterConfirm := false, confirmFails := 0), Effective(s), ConfirmProbe, a, cookie, now);
    }
  }

  /** A search starts from the working size, and the first size it asks for is larger and allowed. */
  lemma BeginSearches(m: Mtu, a: Around, now: int)
    requires Valid(m)
    ensures var n := BeginSearch(m, a, now);
      n.phase.Search? <==> n.finder.floor == Effective(m) && Ordered(n.finder) && Effective(m) < NextSize(n.finder) < m.configured
  {
    InRange(m);
    InitOrdered(Effective(m), ProbeCeiling(m, a));
    NextSizeInside(Init(Effective(m), ProbeCeiling(m, a)));
    hide NextSize;
  }

  // ----- the discovery fields of a session, updated in place -----

  class PathMtu {
    const configured: int
    var pathMtu: int
    var reductions: nat
    var generation: nat
    var outstanding: Option<Probe>
    var phase: Phase
    var finder: Finder
    var nextProbe: Option<int>
    var raiseAt: Option<int>
    var confirmAt: Option<int>
    var confirmFails: nat
    var appSinceProbe: bool
    var searchAfterConfirm: bool

    ghost predicate Sound()
      reads this
    {
      Valid(State())
    }

    function Size(): int
      reads this
    {
      Effective(State())
    }

    function State(): Mtu
      reads this
    {
      Mtu(configured, pathMtu, reductions, generation, outstanding, phase, finder, nextProbe, raiseAt, confirmAt,
          confirmFails, appSinceProbe, searchAfterConfirm)
    }

    constructor (mtu: int)
      ensures State() == Initial(mtu) && Size() == mtu && (Sound() <==> MIN_PATH_MTU <= mtu)
    {
      configured, pathMtu, reductions, generation, outstanding, phase := mtu, 0, 0, 0, None, Disabled;
      finder, nextProbe, raiseAt, confirmAt := Idle(), None, None, None;
      confirmFails, appSinceProbe, searchAfterConfirm := 0, false, false;
    }

    method ReduceHandshakeMtu(tooBig: int) returns (ok: bool)
      requires Sound()
      modifies this
      ensures Sound() && (ok <==> old(Size()) > MIN_PATH_MTU && old(reductions) < MAX_REDUCTIONS)
      ensures ok ==> MIN_PATH_MTU <= Size() < old(Size()) && Size() <= Max(MIN_PATH_MTU, old(Size()) / 2) && (tooBig > MIN_PATH_MTU ==> Size() < tooBig)
      ensures !ok ==> State() == old(State())
      ensures (State(), ok) == Reduce(old(State()), tooBig)
    {
      ReduceShrinks(State(), tooBig);
      ReduceExactly(State(), tooBig);
      InRange(State());
      var current := Effective(State());
      if current <= MIN_PATH_MTU || reductions >= MAX_REDUCTIONS {
        return false;
      }
      var next := current / 2;
      if tooBig > MIN_PATH_MTU && tooBig - 1 < next {
        next := tooBig - 1;
      }
      if next < MIN_PATH_MTU {
        next := MIN_PATH_MTU;
      }
      if next >= current {
        return false;
      }
      pathMtu, reductions := next, reductions + 1;
      return true;
    }

    method SetWorkingMtu(n: int)
      requires Sound()
      modifies this
      ensures Sound() && Size() == Max(old(Size()), Min(n, configured)) && (Size() > old(Size()) ==> reductions == 0)
      ensures State() == SetWorking(old(State()), n)
    {
      if n <= 0 {
        return;
      }
      var size := Min(n, configured);
      if size < MIN_PATH_MTU {
        size := MIN_PATH_MTU;
      }
      if size > Effective(State()) {
        pathMtu, reductions := size, 0;
      }
    }

    /** Probes sent before are never answered again: they are of an older generation. */
    method RestartConfirm(enabled: bool)
      requires Sound()
      modifies this
      ensures Sound() && Size() == old(Size()) && outstanding.None? && generation > old(generation) && (phase.Disabled? <==> !enabled)
      ensures State() == Restart(old(State()), enabled)
    {
      generation, outstanding, confirmFails, finder := generation + 1, None, 0, Idle();
      nextProbe, raiseAt, confirmAt := None, None, None;
      if !enabled {
        phase, searchAfterConfirm := Disabled, false;
        return;
      }
      phase, searchAfterConfirm := Confirm, true;
    }

    method Settle(now: int)
      requires Sound()
      modifies this
      ensures Sound() && phase.Watch? && Size() == old(Size()) && outstanding == old(outstanding)
      ensures raiseAt.Some? && now < raiseAt.value && confirmAt == Some(now + CONFIRM_TIMER)
      ensures State() == ScheduleWatch(old(State()), now)
    {
      phase := Watch;
      if raiseAt.None? || now >= raiseAt.value {
        raiseAt := Some(now + RAISE_TIMER);
      }
      confirmAt, nextProbe := Some(now + CONFIRM_TIMER), None;
    }

    method StartSearch(a: Around, now: int)
      requires Sound()
      modifies this
      ensures Sound() && Size() == old(Size()) && outstanding == old(outstanding)
      ensures phase.Search? <==> finder.floor == Size() && Ordered(finder) && Size() < NextSize(finder) < configured
      ensures State() == BeginSearch(old(State()), a, now)
    {
      BeginKeeps(State(), a, now);
      BeginSearches(State(), a, now);
      hide NextSize, Done, Ordered;
      raiseAt := None;
      finder := Init(Effective(State()), ProbeCeiling(State(), a));
      if Done(finder) {
        Settle(now);
        return;
      }
      phase := Search;
    }

    method OnProbeAcked(probe: Probe, a: Around, now: int)
      requires Sound() && probe.size <= configured
      modifies this
      ensures Sound() && Size() == Max(old(Size()), probe.size)
      ensures State() == ProbeAcked(old(State()), probe, a, now)
    {
      AckedGrows(State(), probe, a, now);
      hide NextSize, Done, Ordered, Above, BeginSearch, ScheduleWatch, SetWorking, Effective;
      if probe.kind.SearchProbe? { OnSearchAcked(probe, now); } else { OnConfirmAcked(probe, a, now); }
    }

    method OnConfirmAcked(probe: Probe, a: Around, now: int)
      requires Sound() && probe.kind.ConfirmProbe?
      modifies this
      ensures State() == ProbeAcked(old(State()), probe, a, now)
    {
      hide NextSize, Done, Ordered, Above, BeginSearch, ScheduleWatch;
      nextProbe, confirmFails := Some(now + PROBE_PACE), 0;
      if probe.size > Effective(State()) {
        SetWorkingMtu(probe.size);
      }
      if searchAfterConfirm {
        StartSearch(a, now);
        return;
      }
      Settle(now);
    }

    method OnSearchAcked(probe: Probe, now: int)
      requires Sound() && probe.kind.SearchProbe?
      modifies this
      ensures forall a: Around :: State() == ProbeAcked(old(State()), probe, a, now)
    {
      hide Done, Above, ScheduleWatch, SetWorking;
      nextProbe := Some(now + PROBE_PACE);
      finder := OnAcked(finder, probe.size);
      if probe.size > Effective(State()) {
        SetWorkingMtu(probe.size);
      }
      if Done(finder) {
        Settle(now);
      }
    }

    method OnProbeLost(kind: Kind, size: int, now: int, hard: bool)
      requires Sound()
      modifies this
      ensures Sound() && Size() <= old(Size()) && outstanding == old(outstanding)
      ensures Size() < old(Size()) <==>
        (kind.ConfirmProbe? && (hard || old(confirmFails) + 1 >= 3) && old(Size()) > 256 && old(reductions) < 8)
      ensures Size() < old(Size()) ==> Size() == Reduced(old(Size()), size) && phase.Confirm? && searchAfterConfirm
      ensures kind.ConfirmProbe? && (hard || old(confirmFails) + 1 >= 3) && Size() == old(Size()) ==> phase.Watch?
      ensures State() == ProbeLost(old(State()), kind, size, now, hard)
    {
      LostMoves(State(), kind, size, now, hard);
      LostShrinks(State(), kind, size, now, hard);
      LostLeaves(State(), kind, size, now, hard);
      hide Done, Above, ScheduleWatch, Reduce, Effective;
      if kind.ConfirmProbe? {
        OnConfirmLost(size, now, hard);
        return;
      }
      nextProbe := Some(now + PROBE_PACE);
      finder := OnLost(finder, size);
      if Done(finder) {
        Settle(now);
      }
    }

    method OnConfirmLost(size: int, now: int, hard: bool)
      requires Sound()
      modifies this
      ensures State() == ProbeLost(old(State()), ConfirmProbe, size, now, hard)
    {
      hide Done, Above, ScheduleWatch, Reduce;
      nextProbe := Some(now + PROBE_PACE);
      confirmFails := confirmFails + 1;
      if hard {
        confirmFails := MAX_CONFIRM_FAILS;
      }
      if confirmFails < MAX_CONFIRM_FAILS {
        return;
      }
      confirmFails := 0;
      var ok := ReduceHandshakeMtu(size);
      if !ok {
        Settle(now);
        return;
      }
      searchAfterConfirm, phase := true, Confirm;
    }

    method OnSearchRefused(size: int, now: int)
      requires Sound()
      modifies this
      ensures var after := old(State()).(finder := RejectHard(old(finder), size), nextProbe := Some(now + PROBE_PACE));
        State() == if Done(after.finder) then ScheduleWatch(after, now) else after
    {
      finder := RejectHard(finder, size);
      nextProbe := Some(now + PROBE_PACE);
      if Done(finder) {
        Settle(now);
      }
    }

    method SendDiscoveryProbe(wanted: int, kind: Kind, a: Around, cookie: seq<byte>, result: SendResult, now: int)
      requires Sound()
      modifies this
      ensures Sound() && Size() <= old(Size()) && PutsOut(old(State()), State(), a, now)
      ensures outstanding != old(outstanding) ==>
        && result.Sent? && outstanding.value.cookie == cookie && outstanding.value.kind == kind && outstanding.value.size >= wanted
        && (kind.SearchProbe? ==> outstanding.value.size > old(finder).floor)
      ensures State() == SendProbe(old(State()), wanted, kind, a, cookie, result, now)
    {
      SendShrinks(State(), wanted, kind, a, cookie, result, now);
      SendPutsOut(State(), wanted, kind, a, cookie, result, now);
      hide ProbeLost, Done, Above, ScheduleWatch, RejectHard;
      var size := if wanted < ProbeMin(a) then ProbeMin(a) else wanted;
      if size > ProbeCeiling(State(), a) || (kind.SearchProbe? && size <= finder.floor) {
        Settle(now);
        return;
      }
      if !a.enabled || a.busy || outstanding.Some? {
        nextProbe := Some(now + PROBE_PACE);
        return;
      }
      if ProbePadding(size, a.cid).Err? {
        Settle(now);
        return;
      }
      match result
      case Sent =>
        outstanding := Some(Probe.Probe(cookie, size, generation, now + PROBE_TIMEOUT, a.peer, kind));
        if kind.SearchProbe? {
          finder := finder.(probes := finder.probes + 1);
        }
        appSinceProbe := false;
      case TooLong =>
        if kind.ConfirmProbe? {
          OnProbeLost(ConfirmProbe, size, now, true);
          return;
        }
        OnSearchRefused(size, now);
      case Unsent =>
        nextProbe := Some(now + PROBE_PACE);
    }

    method ProbeNextSize(a: Around, cookie: seq<byte>, result: SendResult, now: int)
      requires Sound()
      modifies this
      ensures Sound() && Size() <= old(Size()) && PutsOut(old(State()), State(), a, now)
      ensures State() == SearchOn(old(State()), a, cookie, result, now)
    {
      hide SendProbe;
      var size := NextSize(finder);
      if size == 0 {
        Settle(now);
        return;
      }
      SendDiscoveryProbe(size, SearchProbe, a, cookie, result, now);
    }

    method WatchPath(a: Around, cookie: seq<byte>, result: SendResult, now: int)
      requires Sound()
      modifies this
      ensures Sound() && Size() <= old(Size()) && PutsOut(old(State()), State(), a, now)
      ensures State() == OnWatch(old(State()), a, cookie, result, now)
    {
      WatchShrinks(State(), a, cookie, result, now);
      WatchPutsOut(State(), a, cookie, result, now);
      hide SendProbe, BeginSearch, SearchOn;
      if !appSinceProbe {
        return;
      }
      if Due(raiseAt, now) {
        appSinceProbe := false;
        StartSearch(a, now);
        if phase.Search? {
          ProbeNextSize(a, cookie, result, now);
        }
        return;
      }
      if Due(confirmAt, now) {
        appSinceProbe, phase, searchAfterConfirm, confirmFails := false, Confirm, false, 0;
        SendDiscoveryProbe(Effective(State()), ConfirmProbe, a, cookie, result, now);
      }
    }

    method TickSearch(a: Around, cookie: seq<byte>, result: SendResult, now: int)
      requires Sound()
      modifies this
      ensures Sound() && Size() <= old(Size()) && PutsOut(old(State()), State(), a, now)
      ensures State() == TickDiscovery(old(State()), a, cookie, result, now)
    {
      TickShrinks(State(), a, cookie, result, now);
      TickPutsOut(State(), a, cookie, result, now);
      hide SendProbe, SearchOn, OnWatch;
      if outstanding.Some? {
        return;
      }
      if !a.enabled {
        phase := Disabled;
        return;
      }
      if phase.Disabled? {
        RestartConfirm(true);
      }
      if nextProbe.Some? && now < nextProbe.value {
        return;
      }
      match phase
      case Disabled =>
      case Confirm => SendDiscoveryProbe(Effective(State()), ConfirmProbe, a, cookie, result, now);
      case Search => ProbeNextSize(a, cookie, result, now);
      case Watch => WatchPath(a, cookie, result, now);
    }

    method TickProbe(a: Around, cookie: seq<byte>, result: SendResult, now: int)
      requires Sound()
      modifies this
      ensures Sound() && Size() <= old(Size())
      ensures outstanding.Some? ==> outstanding == old(outstanding) || (outstanding.value.generation == generation && outstanding.value.deadline == now + PROBE_TIMEOUT)
      ensures old(outstanding.Some? && now < outstanding.value.deadline) ==> State() == old(State())
      ensures State() == Tick(old(State()), a, cookie, result, now)
    {
      if outstanding.Some? { TickWaits(State(), a, cookie, result, now); }
      hide ProbeLost, TickDiscovery;
      if outstanding.Some? && now >= outstanding.value.deadline {
        var probe := outstanding.value;
        outstanding := None;
        OnProbeLost(probe.kind, probe.size, now, false);
      }
      TickSearch(a, cookie, result, now);
    }

    method ReceiveReply(a: Around, path: nat, reply: Reply, cookie: seq<byte>, now: int)
      requires Sound()
      modifies this
      ensures Sound() && (Size() > old(Size()) <==> Proves(old(State()), Replied(a, path, reply, cookie, now)))
      ensures Size() > old(Size()) ==> Size() == old(outstanding).value.size
      ensures !Answers(old(State()), a, path, reply, cookie, now) ==> State() == old(State())
      ensures State() == Receive(old(State()), a, path, reply, cookie, now)
    {
      StepKeeps(State(), Replied(a, path, reply, cookie, now));
      hide ProbeLost, ProbeAcked;
      if outstanding.None? || a.busy || reply.OtherReply? {
        return;
      }
      var probe := outstanding.value;
      if probe.generation != generation || probe.cookie != cookie || probe.path != path || now >= probe.deadline {
        return;
      }
      outstanding := None;
      if reply.Drop? {
        OnProbeLost(probe.kind, probe.size, now, false);
        return;
      }
      OnProbeAcked(probe, a, now);
    }
  }
}
