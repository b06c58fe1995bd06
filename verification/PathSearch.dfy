/** A search inside a session: from its start until the size is watched, the session runs exactly the interval search. */
module PathSearch {
  import opened Wire
  import opened Sizing
  import M = MtuSearch
  import opened D = Discovery

  function MinFor(cid: nat): int { Overhead(cid) + RRC_MESSAGE }

  function CeilingFor(m: Mtu, cid: nat): int { Min(m.configured, MinFor(cid) + MAX_CONTENT - RRC_MESSAGE) }

  /** The finder without the probe that is still out. */
  function Asking(m: Mtu): M.Finder {
    if m.outstanding.Some? && m.finder.probes > 0 then m.finder.(probes := m.finder.probes - 1) else m.finder
  }

  /** A search in progress: the probe that is out, if any, is the one the finder asked for. */
  ghost predicate Underway(m: Mtu, cid: nat) {
    && Valid(m) && m.phase.Search? && m.raiseAt.None? && Effective(m) == m.finder.floor
    && M.Ordered(m.finder) && MinFor(cid) <= m.finder.lost[0] && M.Ceiling(m.finder) <= CeilingFor(m, cid) && !M.Done(Asking(m))
    && (m.outstanding.Some? ==>
          m.outstanding.value.kind.SearchProbe? && m.finder.probes > 0 && m.outstanding.value.size == M.Asked(Asking(m), MinFor(cid)))
  }

  /** Nothing but the search happens, and the peer's connection ID keeps its length. */
  predicate Quiet(e: Event, cid: nat) {
    (e.Timer? && e.a.enabled && e.a.cid == cid) || e.Replied? || e.ApplicationData?
  }

  /** What a step tells the search about the probe it asked for. */
  function Result(m: Mtu, e: Event): Option<M.Outcome> {
    match e
    case Timer(a, _, result, now) =>
      if m.outstanding.Some? then (if now >= m.outstanding.value.deadline then Some(M.Lost) else None)
      else if (m.nextProbe.Some? && now < m.nextProbe.value) || a.busy || !result.TooLong? then None
      else Some(M.Refused)
    case Replied(a, path, reply, cookie, now) =>
      if !Answers(m, a, path, reply, cookie, now) then None else if reply.Drop? then Some(M.Lost) else Some(M.Acked)
    case _ => None
  }

  ghost predicate Moves(m: Mtu, n: Mtu, cid: nat, o: Option<M.Outcome>)
    requires |m.finder.lost| == 3
  {
    if o.None? then Underway(n, cid) && Asking(n) == Asking(m)
    else
      && n.finder == M.Probe(Asking(m), M.Asked(Asking(m), MinFor(cid)), o.value)
      && |n.finder.lost| == 3 && n.outstanding.None? && Effective(n) == n.finder.floor
      && (if M.Done(n.finder) then n.phase.Watch? else Underway(n, cid))
  }

  /** The size asked for is inside the interval or at its end, and every outcome keeps the interval in order. */
  lemma ProbeFacts(f: M.Finder, min: int, o: M.Outcome)
    requires M.Ordered(f) && !M.Done(f) && min <= f.lost[0]
    ensures var size, g := M.Asked(f, min), M.Probe(f, M.Asked(f, min), o);
      && M.NextSize(f) != 0 && f.floor < size <= M.Ceiling(f) && min <= size && M.Ordered(g) && min <= g.lost[0]
      && g.floor == (if o.Acked? then size else f.floor) && (M.Done(g) || M.Ceiling(g) <= M.Ceiling(f))
  {
    hide M.NextSize;
    M.NextSizeInside(f);
    M.ProbeOrdered(f, min, o);
    var size := M.Asked(f, min);
    if o.Refused? { M.RejectKeeps(f, size); } else if o.Lost? { M.LostKeeps(f.(probes := f.probes + 1), size); }
    else { M.AckedKeeps(f.(probes := f.probes + 1), size); }
  }

  /** Finding out what became of the probe that is out. */
  lemma Told(m: Mtu, n: Mtu, cid: nat, o: M.Outcome)
    requires Underway(m, cid) && Valid(n) && n.configured == m.configured && n.outstanding.None? && Effective(n) == n.finder.floor
    requires n.finder == M.Probe(Asking(m), M.Asked(Asking(m), MinFor(cid)), o)
    requires if M.Done(n.finder) then n.phase.Watch? else n.phase.Search? && n.raiseAt.None?
    ensures Moves(m, n, cid, Some(o))
  {
    ProbeFacts(Asking(m), MinFor(cid), o);
    hide M.Asked, M.Probe, M.Done, M.Ordered, M.Ceiling, Valid, Effective;
    assert M.Ceiling(Asking(m)) == M.Ceiling(m.finder) by { SameCeiling(m); }
  }

  lemma SameCeiling(m: Mtu)
    requires |m.finder.lost| == 3
    ensures M.Ceiling(Asking(m)) == M.Ceiling(m.finder) && |Asking(m).lost| == 3
  {
  }

  lemma LossMoves(m: Mtu, cid: nat, now: int)
    requires Underway(m, cid) && m.outstanding.Some?
    ensures var n := ProbeLost(m.(outstanding := None), SearchProbe, m.outstanding.value.size, now, false);
      Moves(m, n, cid, Some(M.Lost)) && n.nextProbe.Some? == n.phase.Search? && (n.nextProbe.Some? ==> n.nextProbe.value > now)
      && (n.phase.Watch? ==> n.raiseAt == Some(now + RAISE_TIMER) && n.confirmAt == Some(now + CONFIRM_TIMER))
  {
    hide M.Done, M.Asked, M.Ceiling;
    ProbeFacts(Asking(m), MinFor(cid), M.Lost);
    var n := ProbeLost(m.(outstanding := None), SearchProbe, m.outstanding.value.size, now, false);
    Told(m, n, cid, M.Lost);
    hide Moves;
  }

  /** The probe that goes out is the size asked for, raised to the smallest probe there is; nothing else can stop it. */
  lemma Sends(m: Mtu, cid: nat, a: Around, cookie: seq<byte>, result: SendResult, now: int)
    requires Underway(m, cid) && m.outstanding.None? && a.enabled && a.cid == cid
    ensures var n, size := SearchOn(m, a, cookie, result, now), M.Asked(m.finder, MinFor(cid));
      var paced := m.(nextProbe := Some(now + PROBE_PACE));
      n == if a.busy || result.Unsent? then paced
           else if result.Sent? then
             m.(outstanding := Some(Probe(cookie, size, m.generation, now + PROBE_TIMEOUT, a.peer, SearchProbe)), appSinceProbe := false,
                finder := m.finder.(probes := m.finder.probes + 1))
           else
             var after := paced.(finder := M.RejectHard(m.finder, size));
             if M.Done(after.finder) then ScheduleWatch(after, now) else after
  {
    ProbeFacts(m.finder, MinFor(cid), M.Refused);
    hide M.NextSize, M.Done, M.Ordered, M.Ceiling, M.RejectHard, ScheduleWatch;
  }

  lemma SendMoves(m: Mtu, cid: nat, a: Around, cookie: seq<byte>, result: SendResult, now: int)
    requires Underway(m, cid) && m.outstanding.None? && a.enabled && a.cid == cid
    ensures Moves(m, SearchOn(m, a, cookie, result, now), cid, if a.busy || !result.TooLong? then None else Some(M.Refused))
  {
    Sends(m, cid, a, cookie, result, now);
    ProbeFacts(m.finder, MinFor(cid), M.Refused);
    hide M.Asked, SearchOn, M.NextSize;
    var n := SearchOn(m, a, cookie, result, now);
    if !a.busy && result.TooLong? {
      hide M.Ceiling, M.Done, M.RejectHard, Moves;
      Told(m, n, cid, M.Refused);
    } else if !a.busy && result.Sent? {
      assert Asking(n) == m.finder;
      SameCeiling(n);
      hide M.Ceiling, M.Done, M.RejectHard;
    }
  }

  lemma AckMoves(m: Mtu, cid: nat, a: Around, now: int)
    requires Underway(m, cid) && m.outstanding.Some?
    ensures Moves(m, ProbeAcked(m.(outstanding := None), m.outstanding.value, a, now), cid, Some(M.Acked))
  {
    hide M.Asked, M.Ceiling, M.Done;
    var size := m.outstanding.value.size;
    ProbeFacts(Asking(m), MinFor(cid), M.Acked);
    var n := ProbeAcked(m.(outstanding := None), m.outstanding.value, a, now);
    assert n.finder == M.OnAcked(m.finder, size) == M.Probe(Asking(m), size, M.Acked);
    AckedGrows(m.(outstanding := None), m.outstanding.value, a, now);
    hide M.OnAcked, M.Ordered, Moves;
    Told(m, n, cid, M.Acked);
  }

  /** One step of the session is one step of the search, or none. */
  lemma StepMoves(m: Mtu, e: Event, cid: nat)
    requires Underway(m, cid) && Quiet(e, cid)
    ensures Moves(m, Next(m, e), cid, Result(m, e))
  {
    hide ProbeLost, ProbeAcked, SearchOn, M.Asked, M.Probe;
    match e
    case Timer(a, cookie, result, now) =>
      if m.outstanding.Some? {
        LossMoves(m, cid, now);
      } else {
        SendMoves(m, cid, a, cookie, result, now);
      }
    case Replied(a, path, reply, cookie, now) =>
      if m.outstanding.Some? {
        LossMoves(m, cid, now);
        AckMoves(m, cid, a, now);
      }
    case ApplicationData =>
  }

  // ----- whole searches -----

  /** A quiet stretch of a run, searching until its last state. */
  ghost predicate Stretch(m: Mtu, events: seq<Event>, cid: nat)
    requires Valid(m)
  {
    && (forall i :: 0 <= i < |events| ==> Quiet(events[i], cid))
    && forall i :: 0 <= i < |events| ==> Run(m, events)[i].phase.Search?
  }

  function Last(m: Mtu, events: seq<Event>): Mtu
    requires Valid(m)
  {
    Run(m, events)[|events|]
  }

  /** What became of the search's probes, in order. */
  function Results(m: Mtu, events: seq<Event>): seq<M.Outcome>
    requires Valid(m)
    decreases |events|
  {
    if events == [] then []
    else
      StepKeeps(m, events[0]);
      var o := Result(m, events[0]);
      (if o.Some? then [o.value] else []) + Results(Next(m, events[0]), events[1..])
  }

  lemma StretchTail(m: Mtu, events: seq<Event>, cid: nat)
    requires Valid(m) && events != [] && Stretch(m, events, cid)
    ensures Valid(Next(m, events[0])) && Stretch(Next(m, events[0]), events[1..], cid)
    ensures Last(m, events) == Last(Next(m, events[0]), events[1..])
    ensures |events| > 1 ==> Next(m, events[0]).phase.Search?
    ensures Quiet(events[0], cid)
  {
    StepKeeps(m, events[0]);
    hide Next, Valid;
    var n := Next(m, events[0]);
    assert Run(m, events) == [m] + Run(n, events[1..]);
    forall i | 0 <= i < |events| - 1 ensures Quiet(events[1..][i], cid) && Run(n, events[1..])[i].phase.Search? {
      assert Quiet(events[i + 1], cid) && Run(m, events)[i + 1].phase.Search?;
    }
    if |events| > 1 { assert Run(m, events)[1].phase.Search?; }
  }

  /** One step of the search, seen from its outcomes. */
  lemma ResultsStep(m: Mtu, events: seq<Event>, min: int, path: int, spurious: nat)
    requires Valid(m) && events != [] && M.Search(Asking(m), min, path, spurious, Results(m, events)).Some?
    ensures Valid(Next(m, events[0]))
    ensures var o, rest := Result(m, events[0]), Results(Next(m, events[0]), events[1..]);
      var f, found := Asking(m), M.Search(Asking(m), min, path, spurious, Results(m, events));
      found == if o.None? then M.Search(f, min, path, spurious, rest)
               else M.Search(M.Probe(f, M.Asked(f, min), o.value), min, path, spurious + M.Spurious(M.Asked(f, min), o.value, path), rest)
  {
    StepKeeps(m, events[0]);
    hide Next, Result, M.Asked, M.Probe, M.Done;
    var o, rest := Result(m, events[0]), Results(Next(m, events[0]), events[1..]);
    if o.Some? { assert ([o.value] + rest)[1..] == rest; } else { assert [] + rest == rest; }
  }

  ghost predicate Settled(m: Mtu) { Valid(m) && m.phase.Watch? && m.outstanding.None? && Effective(m) == m.finder.floor && M.Done(m.finder) }

  lemma MovesOn(m: Mtu, e: Event, cid: nat)
    requires Underway(m, cid) && Quiet(e, cid)
    ensures var n, o, f := Next(m, e), Result(m, e), Asking(m);
      && Asking(n) == (if o.None? then f else M.Probe(f, M.Asked(f, MinFor(cid)), o.value))
      && Valid(n) && ((Underway(n, cid) && n.phase.Search?) || (Settled(n) && n.phase.Watch? && Asking(n) == n.finder))
  {
    StepMoves(m, e, cid);
    StepKeeps(m, e);
    hide Next, Result, M.Probe, M.Asked, M.Done, M.Ordered, M.Ceiling;
  }

  lemma {:induction false} Lifts(m: Mtu, events: seq<Event>, cid: nat, path: int, spurious: nat)
    requires Underway(m, cid) && Stretch(m, events, cid) && M.Search(Asking(m), MinFor(cid), path, spurious, Results(m, events)).Some?
    ensures M.Search(Asking(m), MinFor(cid), path, spurious, Results(m, events)).value.0 == Asking(Last(m, events))
    ensures Underway(Last(m, events), cid) || Settled(Last(m, events))
    decreases |events|
  {
    hide M.Asked, M.Probe, Next, Result, Run, M.Done, M.Ordered, M.Ceiling, Quiet, Effective, M.Search, Asking, Settled;
    SameCeiling(m);
    if events == [] {
      Nothing(m, events);
    } else {
      StretchTail(m, events, cid);
      MovesOn(m, events[0], cid);
      ResultsStep(m, events, MinFor(cid), path, spurious);
      hide Results, Stretch, Underway, Valid, Last;
      var n, o := Next(m, events[0]), Result(m, events[0]);
      var more := if o.None? then spurious else spurious + M.Spurious(M.Asked(Asking(m), MinFor(cid)), o.value, path);
      if n.phase.Watch? {
        Nothing(n, events[1..]);
      } else {
        Lifts(n, events[1..], cid, path, more);
      }
    }
  }

  lemma Nothing(m: Mtu, events: seq<Event>)
    requires Valid(m) && |events| == 0
    ensures Results(m, events) == [] && Last(m, events) == m
    ensures forall f: M.Finder, min, path, spurious: nat :: |f.lost| == 3 ==> M.Search(f, min, path, spurious, []) == Some((f, spurious))
  {
  }

  /** The state a search begins in. */
  ghost predicate Begun(m: Mtu, cid: nat) {
    && Valid(m) && m.phase.Search? && m.raiseAt.None? && m.outstanding.None?
    && m.finder == M.Init(Effective(m), CeilingFor(m, cid)) && !M.Done(m.finder)
  }

  lemma SearchBegins(m: Mtu, a: Around, now: int)
    requires Valid(m) && m.outstanding.None?
    ensures Begun(BeginSearch(m, a, now), a.cid) || BeginSearch(m, a, now).phase.Watch?
  {
    BeginKeeps(m, a, now);
  }

  lemma BegunUnderway(m: Mtu, cid: nat)
    requires Begun(m, cid) && MinFor(cid) <= CeilingFor(m, cid)
    ensures Underway(m, cid) && Asking(m) == m.finder && M.Ceiling(m.finder) == CeilingFor(m, cid)
  {
    M.InitOrdered(Effective(m), CeilingFor(m, cid));
    InRange(m);
  }

  /** Whatever the timing, a search that suffers at most two spurious losses and narrows its interval leaves the working size within
      twenty bytes of the largest that path and endpoint allow, and never raises it above what the path carries. */
  lemma SessionFindsThePath(m: Mtu, events: seq<Event>, cid: nat, path: int)
    requires Begun(m, cid) && MinFor(cid) <= CeilingFor(m, cid) && Stretch(m, events, cid)
    requires var found := M.Search(m.finder, MinFor(cid), path, 0, Results(m, events)); found.Some? && found.value.1 <= 2
    ensures var n := Last(m, events);
      && M.Ordered(n.finder)
      && Effective(m) <= Effective(n) && (Effective(n) == Effective(m) || Effective(n) <= path)
      && (n.phase.Watch? && M.Narrow(n.finder) ==> Min(path, CeilingFor(m, cid) - 1) - Effective(n) <= M.MAX_DIFF)
  {
    BegunUnderway(m, cid);
    Lifts(m, events, cid, path, 0);
    M.SearchFindsThePath(Effective(m), CeilingFor(m, cid), MinFor(cid), path, Results(m, events));
    hide M.Search, Results, Stretch, Last, Run;
    SameCeiling(Last(m, events));
    InRange(m);
  }

  /** A search whose smallest probe is within 21 bytes of the size it starts from makes boundedly many probes. */
  lemma SessionSearchIsBounded(m: Mtu, events: seq<Event>, cid: nat, path: int)
    requires Begun(m, cid) && MinFor(cid) <= CeilingFor(m, cid) && Stretch(m, events, cid)
    requires MinFor(cid) <= Effective(m) + M.MAX_DIFF + 1
    requires M.Search(m.finder, MinFor(cid), path, 0, Results(m, events)).Some?
    ensures |Results(m, events)| <= M.MAX_PROBES + CeilingFor(m, cid) - Effective(m)
  {
    BegunUnderway(m, cid);
    InRange(m);
    M.SearchIsBounded(Effective(m), CeilingFor(m, cid), MinFor(cid), path, Results(m, events));
  }

  /** With no size between the smallest probe and the ceiling, nothing is probed. */
  lemma {:induction false} NoRoomToSearch(m: Mtu, events: seq<Event>, cid: nat)
    requires Valid(m) && m.phase.Search? && m.outstanding.None? && !M.Done(m.finder) && MinFor(cid) > CeilingFor(m, cid) && Stretch(m, events, cid)
    ensures var n := Last(m, events); n.finder == m.finder && Effective(n) == Effective(m) && n.outstanding.None?
    decreases |events|
  {
    if events != [] {
      StretchTail(m, events, cid);
      NotAsked(m, events[0], cid);
      var n := Next(m, events[0]);
      hide Next, M.Done, Quiet, Stretch;
      if |events| == 1 {
        Nothing(n, events[1..]);
      } else {
        NoRoomToSearch(n, events[1..], cid);
      }
    }
  }

  lemma NotAsked(m: Mtu, e: Event, cid: nat)
    requires Valid(m) && m.phase.Search? && m.outstanding.None? && !M.Done(m.finder) && MinFor(cid) > CeilingFor(m, cid) && Quiet(e, cid)
    ensures var n := Next(m, e); n.finder == m.finder && Effective(n) == Effective(m) && n.outstanding.None? && n.configured == m.configured
  {
    hide M.NextSize, M.Done, ProbeLost, OnWatch;
  }

  // ----- a search that never ends -----

  const CID: nat := 255
  const NEAR := Around(true, false, CID, 0)

  ghost predicate Stuck(m: Mtu) {
    && Valid(m) && m.phase.Search? && m.outstanding.None? && m.finder == M.Finder(256, [286, 286, 286], true, 3)
    && m.configured == 316 && m.nextProbe.Some?
  }

  lemma StaysStuck(m: Mtu, cookie: seq<byte>, now: int)
    requires Stuck(m)
    ensures var n := Next(m, Timer(NEAR, cookie, TooLong, now)); Stuck(n) && n == m.(nextProbe := n.nextProbe)
    ensures now >= m.nextProbe.value ==> Result(m, Timer(NEAR, cookie, TooLong, now)) == Some(M.Refused)
  {
    StepKeeps(m, Timer(NEAR, cookie, TooLong, now));
    assert M.NextSize(m.finder) == 271;
    assert M.RejectHard(m.finder, 286) == m.finder;
  }

  /** However often it is refused, it asks again. */
  lemma {:induction false} StuckForever(m: Mtu, events: seq<Event>)
    requires Stuck(m) && forall i :: 0 <= i < |events| ==> events[i].Timer? && events[i].a == NEAR && events[i].result.TooLong?
    ensures Stuck(Last(m, events))
    decreases |events|
  {
    if events != [] {
      StaysStuck(m, events[0].cookie, events[0].now);
      hide Next, Stuck;
      StuckForever(Next(m, events[0]), events[1..]);
    }
  }

  lemma {:induction false} LastThen(m: Mtu, events: seq<Event>, e: Event)
    requires Valid(m)
    ensures Valid(Last(m, events)) && Last(m, events + [e]) == Next(Last(m, events), e)
    decreases |events|
  {
    StepKeeps(m, if events == [] then e else events[0]);
    hide Next, Valid;
    if events == [] {
      assert [e][1..] == [];
      assert Run(m, [e]) == [m] + Run(Next(m, e), []);
    } else {
      assert (events + [e])[1..] == events[1..] + [e];
      LastThen(Next(m, events[0]), events[1..], e);
    }
  }

  lemma Then(m: Mtu, events: seq<Event>, s: Mtu, e: Event, t: Mtu) returns (more: seq<Event>)
    requires Valid(m) && Last(m, events) == s && Next(s, e) == t
    ensures Last(m, more) == t && more == events + [e]
  {
    hide Next, Last;
    LastThen(m, events, e);
    more := events + [e];
  }

  function At(now: int, result: SendResult): Event { Timer(NEAR, [], result, now) }

  /** 256 bytes after a write that was too long, and no larger probe to confirm that with. */
  function Small(phase: Phase): Mtu {
    Mtu(316, 256, 1, 1, None, phase, Idle(), None, None, None, 0, false, phase.Confirm?)
  }

  function Watching(app: bool): Mtu {
    Small(Watch).(searchAfterConfirm := true, raiseAt := Some(RAISE_TIMER), confirmAt := Some(CONFIRM_TIMER), appSinceProbe := app)
  }

  /** The search after so many losses, with the next probe out or not. */
  function Hunting(lost: seq<int>, losses: nat, out: Option<int>, nextProbe: Option<int>): Mtu {
    Small(Search).(searchAfterConfirm := true, confirmAt := Some(CONFIRM_TIMER), nextProbe := nextProbe,
      finder := M.Finder(256, lost, losses > 0, losses + if out.Some? then 1 else 0),
      outstanding := if out.Some? then Some(Probe([], 286, 1, out.value, 0, SearchProbe)) else None)
  }

  lemma ToWatch()
    ensures Next(Initial(316), WriteTooLong(NEAR, 300)) == Small(Confirm)
    ensures Next(Small(Confirm), At(0, TooLong)) == Watching(false)
    ensures Next(Watching(false), ApplicationData) == Watching(true)
  {
  }

  lemma FirstProbe()
    ensures Next(Watching(true), At(600000, Sent)) == Hunting([316, -1, -1], 0, Some(616000), None)
  {
    assert M.NextSize(M.Init(256, 316)) == 286;
  }

  lemma Loses(lost: seq<int>, losses: nat, at: int, next: Option<int>)
    requires |lost| == 3 && losses < 3 && lost == [[316, -1, -1], [286, 316, -1], [286, 286, 316]][losses]
    ensures Next(Hunting(lost, losses, Some(at), next), At(at, Sent)) ==
      Hunting([[286, 316, -1], [286, 286, 316], [286, 286, 286]][losses], losses + 1, None, Some(at + PROBE_PACE))
  {
  }

  lemma Asks(lost: seq<int>, losses: nat, at: int)
    requires 0 < losses < 3 && lost == [[316, -1, -1], [286, 316, -1], [286, 286, 316]][losses]
    ensures Next(Hunting(lost, losses, None, Some(at)), At(at, Sent)) == Hunting(lost, losses, Some(at + PROBE_TIMEOUT), Some(at))
  {
    assert M.NextSize(M.Finder(256, lost, true, losses)) == 271;
  }

  /** With a 255-byte connection ID the smallest probe is 286 bytes. From 256 bytes the search for a larger size loses it three times,
      and from then on asks for 286 bytes again and again. */
  lemma SearchGetsStuck() returns (events: seq<Event>)
    ensures Valid(Initial(316)) && Stuck(Last(Initial(316), events))
  {
    ToWatch();
    FirstProbe();
    Loses([316, -1, -1], 0, 616000, None);
    Asks([286, 316, -1], 1, 617000);
    Loses([286, 316, -1], 1, 633000, Some(617000));
    Asks([286, 286, 316], 2, 634000);
    Loses([286, 286, 316], 2, 650000, Some(634000));
    hide Next, Last, Hunting, Watching, Small;
    var m := Initial(316);
    Nothing(m, []);
    events := Then(m, [], m, WriteTooLong(NEAR, 300), Small(Confirm));
    events := Then(m, events, Small(Confirm), At(0, TooLong), Watching(false));
    events := Then(m, events, Watching(false), ApplicationData, Watching(true));
    events := Then(m, events, Watching(true), At(600000, Sent), Hunting([316, -1, -1], 0, Some(616000), None));
    events := Then(m, events, Hunting([316, -1, -1], 0, Some(616000), None), At(616000, Sent), Hunting([286, 316, -1], 1, None, Some(617000)));
    events := Then(m, events, Hunting([286, 316, -1], 1, None, Some(617000)), At(617000, Sent), Hunting([286, 316, -1], 1, Some(633000), Some(617000)));
    events := Then(m, events, Hunting([286, 316, -1], 1, Some(633000), Some(617000)), At(633000, Sent), Hunting([286, 286, 316], 2, None, Some(634000)));
    events := Then(m, events, Hunting([286, 286, 316], 2, None, Some(634000)), At(634000, Sent), Hunting([286, 286, 316], 2, Some(650000), Some(634000)));
    events := Then(m, events, Hunting([286, 286, 316], 2, Some(650000), Some(634000)), At(650000, Sent), Hunting([286, 286, 286], 3, None, Some(651000)));
    IsStuck();
  }

  lemma IsStuck()
    ensures Stuck(Hunting([286, 286, 286], 3, None, Some(651000)))
  {
  }

  // ----- a connection ID that grows during the search -----

  const BARE := Around(true, false, 0, 0)

  /** A search below 300 bytes with these losses, and a probe out or not. */
  function Slipping(lost: seq<int>, losses: nat, out: Option<(int, int)>, nextProbe: int): Mtu {
    Mtu(300, 256, 1, 1, if out.Some? then Some(Probe([], out.value.0, 1, out.value.1, 0, SearchProbe)) else None, Search,
        M.Finder(256, lost, losses > 0, losses + if out.Some? then 1 else 0), Some(nextProbe), None, None, 0, false, true)
  }

  function Confirming(out: bool): Mtu {
    Mtu(300, 256, 1, 1, if out then Some(Probe([], 256, 1, 16000, 0, ConfirmProbe)) else None, Confirm, Idle(), None, None, None, 0, false, true)
  }

  lemma ToSearch()
    ensures Next(Initial(300), WriteTooLong(BARE, 300)) == Confirming(false)
    ensures Next(Confirming(false), Timer(BARE, [], Sent, 0)) == Confirming(true)
    ensures Next(Confirming(true), Replied(BARE, 0, Response, [], 1)) == Slipping([300, -1, -1], 0, None, 1001)
  {
  }

  lemma Probes(lost: seq<int>, losses: nat, size: int, a: Around, at: int)
    requires |lost| == 3 && M.NextSize(M.Finder(256, lost, losses > 0, losses)) > 0 && a in {BARE, NEAR}
    requires size == M.Asked(M.Finder(256, lost, losses > 0, losses), MinFor(a.cid)) && 256 < size <= 300
    ensures Next(Slipping(lost, losses, None, at), Timer(a, [], Sent, at)) == Slipping(lost, losses, Some((size, at + PROBE_TIMEOUT)), at)
  {
    hide M.NextSize;
  }

  lemma Misses(lost: seq<int>, losses: nat, size: int, at: int, after: seq<int>)
    requires |lost| == 3 && after == M.OnLost(M.Finder(256, lost, false, 0), size).lost && losses < 3
    requires !M.Done(M.Finder(256, after, true, losses + 1))
    ensures Next(Slipping(lost, losses, Some((size, at)), at - PROBE_TIMEOUT), Timer(BARE, [], Sent, at)) == Slipping(after, losses + 1, None, at + PROBE_PACE)
  {
    hide M.Done;
  }

  lemma Answered()
    ensures var n := Next(Slipping([261, 267, 278], 3, Some((286, 68001)), 52001), Replied(NEAR, 0, Response, [], 52002));
      n.phase.Watch? && Effective(n) == 286 && n.finder == M.Finder(286, [261, 267, 278], false, 4) && !M.Ordered(n.finder)
  {
  }

  lemma TwoLosses() returns (events: seq<Event>)
    ensures Valid(Initial(300)) && Last(Initial(300), events) == Slipping([267, 278, 300], 2, None, 35001)
  {
    ToSearch();
    Probes([300, -1, -1], 0, 278, BARE, 1001);
    Misses([300, -1, -1], 0, 278, 17001, [278, 300, -1]);
    Probes([278, 300, -1], 1, 267, BARE, 18001);
    Misses([278, 300, -1], 1, 267, 34001, [267, 278, 300]);
    hide Next, Last, Slipping, Confirming;
    var m := Initial(300);
    Nothing(m, []);
    events := Then(m, [], m, WriteTooLong(BARE, 300), Confirming(false));
    events := Then(m, events, Confirming(false), Timer(BARE, [], Sent, 0), Confirming(true));
    events := Then(m, events, Confirming(true), Replied(BARE, 0, Response, [], 1), Slipping([300, -1, -1], 0, None, 1001));
    events := Then(m, events, Slipping([300, -1, -1], 0, None, 1001), Timer(BARE, [], Sent, 1001), Slipping([300, -1, -1], 0, Some((278, 17001)), 1001));
    events := Then(m, events, Slipping([300, -1, -1], 0, Some((278, 17001)), 1001), Timer(BARE, [], Sent, 17001), Slipping([278, 300, -1], 1, None, 18001));
    events := Then(m, events, Slipping([278, 300, -1], 1, None, 18001), Timer(BARE, [], Sent, 18001), Slipping([278, 300, -1], 1, Some((267, 34001)), 18001));
    events := Then(m, events, Slipping([278, 300, -1], 1, Some((267, 34001)), 18001), Timer(BARE, [], Sent, 34001), Slipping([267, 278, 300], 2, None, 35001));
  }

  /** A session whose search lost 278, 267 and 261 bytes, and whose peer then takes a 255-byte connection ID: the next probe is larger
      than all of these, and its answer leaves the finder with losses below its floor. */
  lemma GrowingIdBreaksTheOrder() returns (events: seq<Event>)
    ensures Valid(Initial(300))
    ensures var n := Last(Initial(300), events); n.phase.Watch? && Effective(n) == 286 && !M.Ordered(n.finder)
  {
    Probes([267, 278, 300], 2, 261, BARE, 35001);
    Misses([267, 278, 300], 2, 261, 51001, [261, 267, 278]);
    Probes([261, 267, 278], 3, 286, NEAR, 52001);
    Answered();
    hide Next, Last, Slipping, M.Ordered;
    var m := Initial(300);
    events := TwoLosses();
    events := Then(m, events, Slipping([267, 278, 300], 2, None, 35001), Timer(BARE, [], Sent, 35001), Slipping([267, 278, 300], 2, Some((261, 51001)), 35001));
    events := Then(m, events, Slipping([267, 278, 300], 2, Some((261, 51001)), 35001), Timer(BARE, [], Sent, 51001), Slipping([261, 267, 278], 3, None, 52001));
    events := Then(m, events, Slipping([261, 267, 278], 3, None, 52001), Timer(NEAR, [], Sent, 52001), Slipping([261, 267, 278], 3, Some((286, 68001)), 52001));
    var n := Next(Slipping([261, 267, 278], 3, Some((286, 68001)), 52001), Replied(NEAR, 0, Response, [], 52002));
    events := Then(m, events, Slipping([261, 267, 278], 3, Some((286, 68001)), 52001), Replied(NEAR, 0, Response, [], 52002), n);
  }
}
