/** Return routability: a new peer address is validated on a credit of three times what it has sent. */
module Path {
  import opened Wire
  import opened Ledgers
  import opened Sizing

  const MAX_CREDIT := 0x4000_0000
  const INITIAL_CHALLENGE := 1000

  type Cid = seq<byte>

  /** local names the receiving socket. */
  datatype Route = Route(remote: nat, local: nat)

  datatype Phase = Old | Candidate

  datatype Probe = Probe(candidate: Route, phase: Phase, cookie: seq<byte>, deadline: int, credit: nat, cid: Cid)

  datatype State = State(
    peer: Route, probe: Option<Probe>, highest: RecordNumber, seen: bool, peerCid: Cid, spare: seq<Cid>, want: bool)

  /** What became of a packet: never encoded, encoded and refused by the socket, or sent. */
  datatype Delivery = Unencoded | Refused | Sent

  /** Everything one call draws from outside: the clock, the challenge timer, a fresh cookie, and the socket. */
  datatype Around = Around(now: int, timer: int, cookie: seq<byte>, delivery: Delivery)

  const CHALLENGE: byte := 0
  const RESPONSE: byte := 1
  const DROP: byte := 2

  /** The state after a call, and the message it put on the wire to one destination, with the bytes of its packet. */
  datatype Effect = Effect(state: State, dest: Route, bytes: nat, message: seq<byte>)

  predicate After(a: RecordNumber, b: RecordNumber) {
    a.epoch > b.epoch || (a.epoch == b.epoch && a.sequence > b.sequence)
  }

  function Initial(peer: Route, peerCid: Cid): State {
    State(peer, None, RecordNumber(0, 0), false, peerCid, [], false)
  }

  function Silent(p: State): Effect { Effect(p, p.peer, 0, []) }

  predicate ToCandidate(p: State, dest: Route) {
    p.probe.Some? && dest == p.probe.value.candidate
  }

  function MessageLength(p: State, dest: Route): nat {
    Overhead(|if ToCandidate(p, dest) && p.probe.value.phase.Candidate? then p.probe.value.cid else p.peerCid|) + RRC_MESSAGE
  }

  /** Beyond the validated address a message spends the candidate's credit, or a credit of its own; what it cannot pay for is dropped. */
  function SendMessage(p: State, dest: Route, message: seq<byte>, credit: nat, delivery: Delivery): Effect {
    var length := MessageLength(p, dest);
    var sent := if delivery.Sent? then Effect(p, dest, length, message) else Effect(p, dest, 0, []);
    if delivery.Unencoded? then Silent(p)
    else if dest.remote == p.peer.remote then sent
    else if ToCandidate(p, dest) then
      if length > p.probe.value.credit then Silent(p)
      else sent.(state := p.(probe := Some(p.probe.value.(credit := p.probe.value.credit - length))))
    else if length > credit then Silent(p)
    else sent
  }

  function Challenge(p: State, a: Around): Effect
    requires p.probe.Some?
  {
    var candidate := p.probe.value.phase.Candidate?;
    var timeout := if candidate && a.timer < INITIAL_CHALLENGE then INITIAL_CHALLENGE else a.timer;
    SendMessage(p.(probe := Some(p.probe.value.(cookie := a.cookie, deadline := a.now + timeout))),
                if candidate then p.probe.value.candidate else p.peer, [CHALLENGE] + a.cookie, 0, a.delivery)
  }

  function StartBasic(p: State, a: Around): Effect
    requires p.probe.Some?
  {
    var probe := p.probe.value.(phase := Candidate);
    if p.spare != []
    then Challenge(p.(probe := Some(probe.(cid := p.spare[0])), spare := p.spare[1..], want := |p.spare| - 1 < 2), a)
    else Challenge(p.(probe := Some(probe.(cid := p.peerCid))), a)
  }

  function Credited(probe: Probe, size: nat): Probe {
    probe.(credit := Min(MAX_CREDIT, probe.credit + 3 * size))
  }

  /** An authenticated record has arrived; the newest application record from elsewhere starts a validation. */
  function Observe(p: State, from: Route, number: RecordNumber, typ: byte, size: nat, allowed: bool, a: Around): Effect {
    var newest := !p.seen || After(number, p.highest);
    var s := if newest then p.(highest := number, seen := true) else p;
    if from.remote == p.peer.remote || number.epoch < 3 || typ == RRC_TYPE then Silent(s)
    else if p.probe.Some? then
      Silent(if ToCandidate(p, from) then s.(probe := Some(Credited(p.probe.value, size))) else s)
    else if !newest || !allowed then Silent(s)
    else Challenge(s.(probe := Some(Probe(from, Old, [], 0, 3 * size, []))), a)
  }

  /** A challenge is echoed: as a response on the socket of the path, as a drop elsewhere. */
  function Reply(p: State, from: Route, body: seq<byte>): seq<byte> {
    [if from.local == p.peer.local then RESPONSE else DROP] + if body == [] then [] else body[1..]
  }

  /** The reply to a validation message, when it is the one awaited. */
  predicate Answers(p: State, from: Route, cookie: seq<byte>, now: int) {
    && p.probe.Some? && p.probe.value.cookie == cookie && now < p.probe.value.deadline
    && from == if p.probe.value.phase.Old? then p.peer else p.probe.value.candidate
  }

  function Switch(p: State): State
    requires p.probe.Some?
  {
    if p.probe.value.phase.Candidate?
    then p.(peer := p.probe.value.candidate, peerCid := p.probe.value.cid, probe := None)
    else p.(probe := None)
  }

  function Receive(p: State, from: Route, body: seq<byte>, size: nat, a: Around): (Effect, Option<Error>) {
    if body == [] then (Silent(p), Some(Decode))
    else if body[0] > 2 then (Silent(p), None)
    else if |body| != RRC_MESSAGE then (Silent(p), Some(Decode))
    else if body[0] == 0 then
      var s := if ToCandidate(p, from) then p.(probe := Some(Credited(p.probe.value, size))) else p;
      (SendMessage(s, from, Reply(p, from, body), 3 * size, a.delivery), None)
    else if !Answers(p, from, body[1..], a.now) then (Silent(p), None)
    else if body[0] == 2 then
      (if p.probe.value.phase.Old? then StartBasic(p, a) else Silent(p), None)
    else (Silent(Switch(p)), None)
  }

  function Tick(p: State, a: Around): Effect {
    if p.probe.None? || a.now < p.probe.value.deadline then Silent(p)
    else if p.probe.value.phase.Old? then StartBasic(p, a)
    else Silent(p.(probe := None))
  }

  /** New connection IDs from the peer; an immediate rotation also replaces the one reserved for a candidate path. */
  function AdoptCids(p: State, ids: seq<Cid>, immediate: bool): State
    requires ids != []
  {
    if immediate then
      p.(peerCid := ids[0], spare := ids[1..],
         probe := if p.probe.Some? && p.probe.value.phase.Candidate? then Some(p.probe.value.(cid := ids[0])) else p.probe)
    else p.(spare := Gathered(p.spare, p.peerCid, ids))
  }

  function Gathered(spare: seq<Cid>, peerCid: Cid, ids: seq<Cid>): seq<Cid>
    decreases |ids|
  {
    if ids == [] then spare
    else Gathered(if |spare| < 8 && ids[0] != peerCid && ids[0] !in spare then spare + [ids[0]] else spare, peerCid, ids[1..])
  }

  /** Spares stay, and new ones join in the order they came: each once, none that is in use, up to eight; one left out was known or
      met a full list. */
  lemma {:induction false} SparesJoin(spare: seq<Cid>, peerCid: Cid, ids: seq<Cid>)
    ensures var r := Gathered(spare, peerCid, ids);
      && spare <= r && (|r| <= 8 || r == spare)
      && (forall i :: |spare| <= i < |r| ==> r[i] in ids && r[i] != peerCid && r[i] !in r[..i])
      && (forall id :: id in ids ==> id == peerCid || id in r || |r| >= 8)
    decreases |ids|
  {
    if ids != [] {
      var next := if |spare| < 8 && ids[0] != peerCid && ids[0] !in spare then spare + [ids[0]] else spare;
      var r := Gathered(next, peerCid, ids[1..]);
      assert Gathered(spare, peerCid, ids) == r;
      hide Gathered;
      SparesJoin(next, peerCid, ids[1..]);
      assert ids == [ids[0]] + ids[1..];
      if next != spare {
        assert r[|spare|] == next[|spare|] == ids[0] && r[..|spare|] == spare;
      }
      forall id | id in ids ensures id == peerCid || id in r || |r| >= 8 {
        if id !in ids[1..] && id in spare { assert id in r; }
      }
    }
  }

  /** An immediate list replaces the ID in use, the spares, and the one set aside for a candidate; any other list only adds spares. */
  lemma NewCidsAreAdopted(p: State, ids: seq<Cid>, immediate: bool)
    requires ids != []
    ensures var q := AdoptCids(p, ids, immediate);
      && (if immediate then q.peerCid == ids[0] && q.spare == ids[1..] else q.peerCid == p.peerCid && p.spare <= q.spare)
      && q.(peerCid := p.peerCid, spare := p.spare, probe := p.probe) == p && q.probe.Some? == p.probe.Some?
      && (p.probe.Some? ==>
            && q.probe.value.(cid := p.probe.value.cid) == p.probe.value
            && q.probe.value.cid == if immediate && p.probe.value.phase.Candidate? then ids[0] else p.probe.value.cid)
      && (!immediate ==> forall id :: id in ids ==> id == p.peerCid || id in q.spare || |q.spare| >= 8)
  {
    SparesJoin(p.spare, p.peerCid, ids);
  }

  // ----- the ledger -----

  /** Bytes sent to and authenticated from each address since it was last the peer. */
  datatype Ledger = Ledger(sent: map<nat, nat>, received: map<nat, nat>)

  /** A switch away from an address starts its account afresh. */
  function Account(l: Ledger, before: State, from: Route, size: nat, e: Effect): Ledger {
    var received := Plus(l.received, from.remote, size);
    var sent := Plus(l.sent, e.dest.remote, e.bytes);
    if e.state.peer.remote == before.peer.remote then Ledger(sent, received)
    else Ledger(sent[before.peer.remote := 0], received[before.peer.remote := 0])
  }

  datatype Event =
    | Record(from: Route, number: RecordNumber, typ: byte, size: nat, body: seq<byte>, allowed: bool, a: Around)
    | Timer(a: Around)
    | NewCids(ids: seq<Cid>, immediate: bool)

  /** A record is observed, and handed on if it is a validation message. */
  function Arrive(p: State, e: Event): Effect
    requires e.Record?
  {
    var observed := Observe(p, e.from, e.number, e.typ, e.size, e.allowed, e.a);
    if e.typ == RRC_TYPE && e.number.epoch >= 3 then Receive(observed.state, e.from, e.body, e.size, e.a).0 else observed
  }

  datatype World = World(state: State, ledger: Ledger)

  function Next(w: World, e: Event): World {
    match e
    case Record(from, _, _, size, _, _, _) =>
      var r := Arrive(w.state, e);
      World(r.state, Account(w.ledger, w.state, from, size, r))
    case Timer(a) =>
      var r := Tick(w.state, a);
      World(r.state, Account(w.ledger, w.state, w.state.peer, 0, r))
    case NewCids(ids, immediate) =>
      if ids == [] then w else w.(state := AdoptCids(w.state, ids, immediate))
  }

  function Run(w: World, events: seq<Event>): World
    decreases |events|
  {
    if events == [] then w else Run(Next(w, events[0]), events[1..])
  }

  // ----- anti-amplification -----

  /** Credit still held for an address. */
  function Held(p: State, r: nat): nat {
    if p.probe.Some? && p.probe.value.candidate.remote == r then p.probe.value.credit else 0
  }

  /** Bytes sent to an unvalidated address, with the credit still held for it, within three times its own. */
  predicate Covered(w: World, r: nat) {
    Total(w.ledger.sent, r) + Held(w.state, r) <= 3 * Total(w.ledger.received, r)
  }

  /** Only an address other than the peer's is ever a candidate. */
  predicate Proper(p: State) {
    p.probe.Some? ==> p.probe.value.candidate.remote != p.peer.remote
  }

  ghost predicate Invariant(w: World) {
    && Proper(w.state)
    && forall r: nat :: r != w.state.peer.remote ==> Covered(w, r)
  }

  /** What a call may do with credit: spend what it has, or spend or keep at most three times what has just arrived. */
  predicate Pays(p: State, e: Effect, r: nat, earned: nat) {
    (if e.dest.remote == r then e.bytes else 0) + Held(e.state, r) <= Held(p, r) + earned
  }

  lemma SendPays(p: State, dest: Route, message: seq<byte>, credit: nat, delivery: Delivery, r: nat)
    requires Proper(p) && r != p.peer.remote
    ensures var e := SendMessage(p, dest, message, credit, delivery);
      && Proper(e.state) && e.state.peer == p.peer
      && Pays(p, e, r, if dest.remote == r && !ToCandidate(p, dest) then credit else 0)
  {
  }

  lemma ChallengePays(p: State, a: Around, r: nat)
    requires Proper(p) && p.probe.Some? && r != p.peer.remote
    ensures Proper(Challenge(p, a).state) && Challenge(p, a).state.peer == p.peer && Pays(p, Challenge(p, a), r, 0)
  {
    var candidate := p.probe.value.phase.Candidate?;
    var timeout := if candidate && a.timer < INITIAL_CHALLENGE then INITIAL_CHALLENGE else a.timer;
    SendPays(p.(probe := Some(p.probe.value.(cookie := a.cookie, deadline := a.now + timeout))),
             if candidate then p.probe.value.candidate else p.peer, [CHALLENGE] + a.cookie, 0, a.delivery, r);
    hide SendMessage;
  }

  lemma BasicPays(p: State, a: Around, r: nat)
    requires Proper(p) && p.probe.Some? && r != p.peer.remote
    ensures Proper(StartBasic(p, a).state) && StartBasic(p, a).state.peer == p.peer && Pays(p, StartBasic(p, a), r, 0)
  {
    hide Challenge;
    var probe := p.probe.value.(phase := Candidate);
    if p.spare != [] {
      ChallengePays(p.(probe := Some(probe.(cid := p.spare[0])), spare := p.spare[1..], want := |p.spare| - 1 < 2), a, r);
    } else {
      ChallengePays(p.(probe := Some(probe.(cid := p.peerCid))), a, r);
    }
  }

  lemma ObservePays(p: State, from: Route, number: RecordNumber, typ: byte, size: nat, allowed: bool, a: Around, r: nat)
    requires Proper(p) && r != p.peer.remote
    ensures var e := Observe(p, from, number, typ, size, allowed, a);
      && Proper(e.state) && e.state.peer == p.peer
      && Pays(p, e, r, if from.remote == r && typ != RRC_TYPE then 3 * size else 0)
      && (typ == RRC_TYPE ==> e == Silent(p.(highest := e.state.highest, seen := e.state.seen)))
  {
    hide Challenge;
    if p.probe.None? && from.remote != p.peer.remote {
      var s := p.(highest := number, seen := true, probe := Some(Probe(from, Old, [], 0, 3 * size, [])));
      ChallengePays(s, a, r);
    }
  }

  /** A validation message keeps the peer, or moves it to the candidate that answered in time with the right cookie. */
  lemma ReceivePays(p: State, from: Route, body: seq<byte>, size: nat, a: Around, r: nat)
    requires Proper(p)
    ensures var e := Receive(p, from, body, size, a).0;
      && Proper(e.state)
      && (r != p.peer.remote ==> Pays(p, e, r, if from.remote == r then 3 * size else 0))
      && (e.state.peer != p.peer ==>
            && Answers(p, from, body[1..], a.now) && body[0] == 1 && p.probe.value.phase.Candidate?
            && e.state.peer == from == p.probe.value.candidate && e.bytes == 0)
  {
    hide SendMessage, StartBasic;
    if r != p.peer.remote {
      var s := if ToCandidate(p, from) then p.(probe := Some(Credited(p.probe.value, size))) else p;
      SendPays(s, from, Reply(p, from, body), 3 * size, a.delivery, r);
      if p.probe.Some? { BasicPays(p, a, r); }
    } else {
      var q := p.peer.remote + 1;
      var s := if ToCandidate(p, from) then p.(probe := Some(Credited(p.probe.value, size))) else p;
      SendPays(s, from, Reply(p, from, body), 3 * size, a.delivery, q);
      if p.probe.Some? { BasicPays(p, a, q); }
    }
  }

  lemma ArriveCovers(w: World, e: Event, r: nat)
    requires e.Record? && Invariant(w)
    ensures Proper(Next(w, e).state)
    ensures r != Next(w, e).state.peer.remote ==> Covered(Next(w, e), r)
  {
    var p := w.state;
    var observed := Observe(p, e.from, e.number, e.typ, e.size, e.allowed, e.a);
    var q := if r == p.peer.remote then r + 1 else r;
    ObservePays(p, e.from, e.number, e.typ, e.size, e.allowed, e.a, q);
    ReceivePays(observed.state, e.from, e.body, e.size, e.a, q);
    hide Observe, Receive;
    assert r != p.peer.remote ==> Covered(w, r);
  }

  lemma StepKeeps(w: World, e: Event)
    requires Invariant(w)
    ensures Invariant(Next(w, e))
  {
    match e
    case Record(_, _, _, _, _, _, _) =>
      ArriveCovers(w, e, 0);
      forall r: nat | r != Next(w, e).state.peer.remote ensures Covered(Next(w, e), r) { ArriveCovers(w, e, r); }
    case Timer(a) =>
      forall r: nat | r != w.state.peer.remote ensures Covered(Next(w, e), r) {
        assert Covered(w, r);
        if w.state.probe.Some? { BasicPays(w.state, a, r); }
      }
      if w.state.probe.Some? { BasicPays(w.state, a, w.state.peer.remote + 1); }
    case NewCids(ids, immediate) =>
      forall r: nat | r != w.state.peer.remote ensures Covered(Next(w, e), r) { assert Covered(w, r); }
  }

  lemma {:induction false} RunKeeps(w: World, events: seq<Event>)
    requires Invariant(w)
    ensures Invariant(Run(w, events))
    decreases |events|
  {
    if events != [] {
      StepKeeps(w, events[0]);
      RunKeeps(Next(w, events[0]), events[1..]);
    }
  }

  /** In every run no address but the validated peer has been sent more than three times what it sent, even with its credit spent. */
  lemma AmplificationIsBounded(peer: Route, peerCid: Cid, events: seq<Event>, r: nat)
    ensures var w := Run(World(Initial(peer, peerCid), Ledger(map[], map[])), events);
      r != w.state.peer.remote ==> Total(w.ledger.sent, r) + Held(w.state, r) <= 3 * Total(w.ledger.received, r)
  {
    var w := World(Initial(peer, peerCid), Ledger(map[], map[]));
    RunKeeps(w, events);
    assert r != Run(w, events).state.peer.remote ==> Covered(Run(w, events), r);
  }

  /** The candidate's own answer to its challenge. */
  predicate Confirms(p: State, e: Event) {
    && e.Record? && e.typ == RRC_TYPE && e.number.epoch >= 3 && p.probe.Some? && p.probe.value.phase.Candidate?
    && |e.body| == RRC_MESSAGE && e.body == [1] + p.probe.value.cookie && e.a.now < p.probe.value.deadline
    && e.from == p.probe.value.candidate
  }

  /** The peer changes exactly when the candidate itself returns its cookie in time, and then to the candidate and the ID reserved for it. */
  lemma OnlyValidatedPeers(w: World, e: Event)
    requires Invariant(w)
    ensures Next(w, e).state.peer != w.state.peer <==> Confirms(w.state, e)
    ensures Confirms(w.state, e) ==>
      && Next(w, e).state.peer == w.state.probe.value.candidate && Next(w, e).state.peerCid == w.state.probe.value.cid
      && Next(w, e).state.probe.None?
  {
    if w.state.probe.Some? && e.Timer? { BasicPays(w.state, e.a, w.state.peer.remote + 1); }
    if e.Record? {
      var observed := Observe(w.state, e.from, e.number, e.typ, e.size, e.allowed, e.a);
      ObservePays(w.state, e.from, e.number, e.typ, e.size, e.allowed, e.a, w.state.peer.remote + 1);
      ReceivePays(observed.state, e.from, e.body, e.size, e.a, w.state.peer.remote);
      if Confirms(w.state, e) { ConfirmSwitches(observed.state, e); }
    }
    hide Observe, Receive, StartBasic;
  }

  lemma ConfirmSwitches(p: State, e: Event)
    requires Confirms(p, e)
    ensures Receive(p, e.from, e.body, e.size, e.a).0 == Silent(Switch(p))
  {
    hide SendMessage, StartBasic;
    assert e.body[1..] == p.probe.value.cookie;
  }

  /** A call that keeps the peer: every other address gets no more than its credit and what it has just earned. */
  ghost predicate Spends(p: State, e: Effect, source: nat, earned: nat) {
    && Proper(e.state) && e.state.peer == p.peer
    && forall r: nat :: r != p.peer.remote ==> Earns(p, e, r, source, earned)
  }

  predicate Earns(p: State, e: Effect, r: nat, source: nat, earned: nat) {
    Pays(p, e, r, if r == source then earned else 0)
  }

  lemma SendSpends(p: State, dest: Route, message: seq<byte>, credit: nat, delivery: Delivery)
    requires Proper(p)
    ensures Spends(p, SendMessage(p, dest, message, credit, delivery), dest.remote, if ToCandidate(p, dest) then 0 else credit)
  {
    SendPays(p, dest, message, credit, delivery, p.peer.remote + 1);
    var e, earned := SendMessage(p, dest, message, credit, delivery), if ToCandidate(p, dest) then 0 else credit;
    forall r: nat | r != p.peer.remote ensures Earns(p, e, r, dest.remote, earned) {
      SendPays(p, dest, message, credit, delivery, r);
    }
  }

  lemma ChallengeSpends(p: State, a: Around)
    requires Proper(p) && p.probe.Some?
    ensures Spends(p, Challenge(p, a), p.peer.remote, 0)
  {
    hide Challenge, Pays;
    ChallengePays(p, a, p.peer.remote + 1);
    forall r: nat | r != p.peer.remote ensures Earns(p, Challenge(p, a), r, p.peer.remote, 0) { ChallengePays(p, a, r); }
  }

  lemma BasicSpends(p: State, a: Around)
    requires Proper(p) && p.probe.Some?
    ensures Spends(p, StartBasic(p, a), p.peer.remote, 0)
  {
    hide StartBasic, Pays;
    BasicPays(p, a, p.peer.remote + 1);
    forall r: nat | r != p.peer.remote ensures Earns(p, StartBasic(p, a), r, p.peer.remote, 0) { BasicPays(p, a, r); }
  }

  lemma ObserveSpends(p: State, from: Route, number: RecordNumber, typ: byte, size: nat, allowed: bool, a: Around)
    requires Proper(p)
    ensures Spends(p, Observe(p, from, number, typ, size, allowed, a), from.remote, if typ == RRC_TYPE then 0 else 3 * size)
  {
    hide Observe, Pays;
    ObservePays(p, from, number, typ, size, allowed, a, p.peer.remote + 1);
    var e, earned := Observe(p, from, number, typ, size, allowed, a), if typ == RRC_TYPE then 0 else 3 * size;
    forall r: nat | r != p.peer.remote ensures Earns(p, e, r, from.remote, earned) {
      ObservePays(p, from, number, typ, size, allowed, a, r);
    }
  }

  lemma ReceivedAllWell(p: State, from: Route, body: seq<byte>, size: nat, a: Around)
    requires Proper(p)
    ensures var e := Receive(p, from, body, size, a).0;
      && Proper(e.state) && (forall r: nat :: r != p.peer.remote ==> Earns(p, e, r, from.remote, 3 * size))
      && (e.state.peer != p.peer ==> body != [] && Answers(p, from, body[1..], a.now) && body[0] == 1 && e.state.peer == from && e.bytes == 0)
  {
    forall r: nat ensures ReceivedWell(p, from, body, size, a, r) { ReceivedOneWell(p, from, body, size, a, r); }
    hide Receive, Earns, Answers;
    assert ReceivedWell(p, from, body, size, a, 0);
    var e := Receive(p, from, body, size, a).0;
    forall r: nat | r != p.peer.remote ensures Earns(p, e, r, from.remote, 3 * size) { assert ReceivedWell(p, from, body, size, a, r); }
  }

  lemma ReceivedOneWell(p: State, from: Route, body: seq<byte>, size: nat, a: Around, r: nat)
    requires Proper(p)
    ensures ReceivedWell(p, from, body, size, a, r)
  {
    ReceivePays(p, from, body, size, a, r);
    assert body == [] ==> Receive(p, from, body, size, a).0 == Silent(p);
    hide Receive, Answers;
  }

  ghost predicate ReceivedWell(p: State, from: Route, body: seq<byte>, size: nat, a: Around, r: nat) {
    var e := Receive(p, from, body, size, a).0;
    && Proper(e.state)
    && (r != p.peer.remote ==> Earns(p, e, r, from.remote, 3 * size))
    && (e.state.peer != p.peer ==> body != [] && Answers(p, from, body[1..], a.now) && body[0] == 1 && e.state.peer == from && e.bytes == 0)
  }

  lemma Properly(w: World)
    requires Invariant(w)
    ensures Proper(w.state)
  {
  }

  lemma AllCovered(w: World)
    requires Invariant(w)
    ensures forall r: nat :: r != w.state.peer.remote ==> Total(w.ledger.sent, r) + Held(w.state, r) <= 3 * Total(w.ledger.received, r)
  {
    forall r: nat | r != w.state.peer.remote ensures Total(w.ledger.sent, r) + Held(w.state, r) <= 3 * Total(w.ledger.received, r) {
      assert Covered(w, r);
    }
  }

  // ----- what is sent, and when -----

  /** The connection ID on packets to an address. */
  function CidTo(p: State, dest: Route): Cid {
    if p.probe.Some? && dest == p.probe.value.candidate && p.probe.value.phase.Candidate? then p.probe.value.cid else p.peerCid
  }

  /** A challenge is answered, to its sender and with its cookie: a response on the path's own socket, a drop on another. It is answered
      exactly when the packet goes out and its sender is the peer, or the candidate with the credit for it, or has paid for it. */
  ghost predicate Echoes(p: State, from: Route, body: seq<byte>, size: nat, a: Around, e: Effect)
    requires body != []
  {
    var length := 31 + |CidTo(p, from)|;
    var paid := if from.remote == p.peer.remote then true
                else if p.probe.Some? && from == p.probe.value.candidate then length <= Min(MAX_CREDIT, p.probe.value.credit + 3 * size)
                else length <= 3 * size;
    && (e.bytes > 0 <==> a.delivery.Sent? && paid)
    && (e.bytes > 0 ==> e.dest == from && e.bytes == length && e.message == [if from.local == p.peer.local then 1 else 2] + body[1..])
    && e.state.peer == p.peer && (e.state.probe.Some? <==> p.probe.Some?)
  }

  /** The candidate itself is challenged, with a fresh cookie and under the first spare connection ID if there is one; the packet goes
      out exactly when the candidate's credit covers it, and is paid for out of that. */
  ghost predicate ChallengesCandidate(p: State, a: Around, e: Effect)
    requires p.probe.Some?
  {
    var probe, cid := p.probe.value, if p.spare == [] then p.peerCid else p.spare[0];
    var length := 31 + |cid|;
    var paid := !a.delivery.Unencoded? && length <= probe.credit;
    && e.state.probe == Some(Probe(probe.candidate, Candidate, a.cookie, a.now + (if a.timer < 1000 then 1000 else a.timer),
                                   if paid then probe.credit - length else probe.credit, cid))
    && e.state.spare == (if p.spare == [] then [] else p.spare[1..]) && e.state.peer == p.peer && e.state.peerCid == p.peerCid
    && (p.spare != [] ==> (e.state.want <==> |p.spare| <= 2))
    && (e.bytes > 0 <==> paid && a.delivery.Sent?)
    && (e.bytes > 0 ==> e.dest == probe.candidate && e.bytes == length && e.message == [0] + a.cookie)
  }

  /** A validation begins: the candidate has three times its record as credit, and the old path is challenged first. */
  ghost predicate ChallengesOldPath(p: State, from: Route, size: nat, a: Around, e: Effect) {
    var length := 31 + |p.peerCid|;
    && e.state.probe == Some(Probe(from, Old, a.cookie, a.now + a.timer, 3 * size, []))
    && e.state.peer == p.peer && e.state.peerCid == p.peerCid && e.state.spare == p.spare
    && (e.bytes > 0 <==> a.delivery.Sent?) && (e.bytes > 0 ==> e.dest == p.peer && e.bytes == length && e.message == [0] + a.cookie)
  }

  lemma ChallengeIsAnswered(p: State, from: Route, body: seq<byte>, size: nat, a: Around)
    requires Proper(p) && |body| == 9 && body[0] == 0
    ensures Echoes(p, from, body, size, a, Receive(p, from, body, size, a).0) && Receive(p, from, body, size, a).1.None?
  {
  }

  lemma CandidateIsChallenged(p: State, a: Around)
    requires Proper(p) && p.probe.Some?
    ensures ChallengesCandidate(p, a, StartBasic(p, a))
  {
  }

  /** A record starts a validation exactly when none is under way and it is the newest record, application data of the current keys, from
      an address that is not the peer's and is allowed. */
  lemma ValidationStarts(p: State, from: Route, number: RecordNumber, typ: byte, size: nat, allowed: bool, a: Around)
    requires Proper(p)
    ensures var e := Observe(p, from, number, typ, size, allowed, a);
      && (p.probe.None? ==>
            (e.state.probe.Some? <==> from.remote != p.peer.remote && number.epoch >= 3 && typ != 27 && allowed && (!p.seen || After(number, p.highest))))
      && (p.probe.None? && e.state.probe.Some? ==> ChallengesOldPath(p, from, size, a, e))
      && (p.probe.None? && e.state.probe.None? ==> e.bytes == 0)
      && (p.probe.Some? ==> e.bytes == 0 && e.state.probe.Some? && e.state.probe.value.(credit := p.probe.value.credit) == p.probe.value)
      && (p.probe.Some? ==>
            e.state.probe.value.credit ==
            if from == p.probe.value.candidate && number.epoch >= 3 && typ != 27 then Min(MAX_CREDIT, p.probe.value.credit + 3 * size) else p.probe.value.credit)
  {
  }

  /** Without an answer by the deadline the candidate is challenged after the old path, and given up after itself. */
  lemma TimerMoves(p: State, a: Around)
    requires Proper(p)
    ensures var e := Tick(p, a);
      if p.probe.None? || a.now < p.probe.value.deadline then e.state == p && e.bytes == 0
      else if p.probe.value.phase.Old? then ChallengesCandidate(p, a, e)
      else e.state == p.(probe := None) && e.bytes == 0
  {
    if p.probe.Some? { CandidateIsChallenged(p, a); }
    hide StartBasic, ChallengesCandidate;
  }

  /** What a response or a drop does: it counts only with the awaited cookie, in time and from where the challenge went. */
  lemma AnswerMoves(p: State, from: Route, body: seq<byte>, size: nat, a: Around)
    requires Proper(p) && |body| == 9 && 1 <= body[0] <= 2
    ensures var (e, error) := Receive(p, from, body, size, a);
      error.None? &&
      var awaited := p.probe.Some? && body[1..] == p.probe.value.cookie && a.now < p.probe.value.deadline
                     && from == if p.probe.value.phase.Old? then p.peer else p.probe.value.candidate;
      if !awaited then e.state == p && e.bytes == 0
      else if body[0] == 1 then
        e.bytes == 0 && e.state.probe.None?
        && (e.state.peer, e.state.peerCid) == if p.probe.value.phase.Old? then (p.peer, p.peerCid) else (from, p.probe.value.cid)
      else if p.probe.value.phase.Old? then ChallengesCandidate(p, a, e)
      else e.state == p && e.bytes == 0
  {
    if p.probe.Some? { CandidateIsChallenged(p, a); }
    hide StartBasic, ChallengesCandidate, SendMessage;
  }

  lemma MalformedMessages(p: State, from: Route, body: seq<byte>, size: nat, a: Around)
    ensures Receive(p, from, body, size, a).1 == if body == [] || (body[0] <= 2 && |body| != 9) then Some(Decode) else None
    ensures body == [] || body[0] > 2 || |body| != 9 ==> Receive(p, from, body, size, a).0 == Silent(p)
  {
    hide SendMessage, StartBasic;
  }

  /** What sets the candidate's own challenge off: the deadline of the old path's challenge, or a drop from there. */
  ghost predicate OldPathIsGone(p: State, e: Event) {
    p.probe.Some? &&
    match e
    case Timer(a) => a.now >= p.probe.value.deadline
    case Record(from, number, typ, _, body, _, a) =>
      typ == 27 && number.epoch >= 3 && from == p.peer && body == [2] + p.probe.value.cookie && |body| == 9 && a.now < p.probe.value.deadline
    case _ => false
  }

  lemma GoneChallenges(w: World, e: Event)
    requires Proper(w.state) && OldPathIsGone(w.state, e) && w.state.probe.value.phase.Old?
    ensures e.Timer? || e.Record?
    ensures var v := Next(w, e);
      && v.state.probe.Some? && v.state.peer == w.state.peer && v.state.probe.value.candidate == w.state.probe.value.candidate
      && v.state.probe.value.phase.Candidate? && v.state.probe.value.cookie == e.a.cookie && v.state.probe.value.deadline >= e.a.now + 1000
  {
    match e
    case Timer(a) => TimerMoves(w.state, a);
    case Record(from, number, typ, size, body, allowed, a) =>
      var observed := Observe(w.state, from, number, typ, size, allowed, a).state;
      assert observed == w.state.(highest := observed.highest, seen := observed.seen);
      assert body[1..] == w.state.probe.value.cookie;
      AnswerMoves(observed, from, body, size, a);
      hide Receive, Observe;
  }

  /** A peer that has moved is followed: the newest record from its new address, an old path that is gone, and the new address's answer. */
  lemma MovedPeerIsFollowed(w: World, moved: Event, gone: Event, answer: Event)
    requires Invariant(w) && w.state.probe.None?
    requires moved.Record? && moved.from.remote != w.state.peer.remote && moved.number.epoch >= 3 && moved.typ != 27 && moved.allowed
    requires !w.state.seen || After(moved.number, w.state.highest)
    requires OldPathIsGone(Next(w, moved).state, gone) && (gone.Timer? || gone.Record?) && |gone.a.cookie| == 8
    requires answer.Record? && answer.from == moved.from && answer.typ == 27 && answer.number.epoch >= 3
    requires answer.body == [1] + gone.a.cookie && answer.a.now < gone.a.now + 1000
    ensures Run(w, [moved, gone, answer]).state.peer == moved.from && w.state.peer != moved.from
  {
    ValidationStarts(w.state, moved.from, moved.number, moved.typ, moved.size, moved.allowed, moved.a);
    StepKeeps(w, moved);
    var v := Next(w, moved);
    assert v.state.probe.Some? && v.state.probe.value.phase.Old? && v.state.probe.value.candidate == moved.from && v.state.peer == w.state.peer by {
      hide Observe, Receive;
    }
    GoneChallenges(v, gone);
    StepKeeps(v, gone);
    var u := Next(v, gone);
    hide Next, Invariant, OldPathIsGone;
    OnlyValidatedPeers(u, answer);
    assert Confirms(u.state, answer);
    assert [moved, gone, answer][1..] == [gone, answer] && [gone, answer][1..] == [answer] && [answer][1..] == [];
    assert Run(Next(u, answer), []) == Next(u, answer);
    assert Run(u, [answer]) == Next(u, answer);
    assert Run(v, [gone, answer]) == Next(u, answer);
  }

  // ----- the path state of a session, updated in place -----

  class PathState {
    var peer: Route
    var probe: Option<Probe>
    var highest: RecordNumber
    var seen: bool
    var peerCid: Cid
    var spare: seq<Cid>
    var want: bool

    /** What has been sent to and received from each address. */
    ghost var ledger: Ledger

    function Value(): State
      reads this
    {
      State(peer, probe, highest, seen, peerCid, spare, want)
    }

    /** Everything sent to an address that is not the peer's is covered by what came from it. */
    ghost predicate Valid()
      reads this
    {
      Invariant(World(Value(), ledger))
    }

    constructor (route: Route, cid: Cid)
      ensures Valid() && Value() == Initial(route, cid) && ledger == Ledger(map[], map[])
    {
      peer, probe, highest, seen, peerCid, spare, want := route, None, RecordNumber(0, 0), false, cid, [], false;
      ledger := Ledger(map[], map[]);
    }

    /** Bytes to an address that is not the peer's are paid for, out of the candidate's credit or the credit given. */
    method Send(destination: Route, text: seq<byte>, credit: nat, delivery: Delivery) returns (dest: Route, bytes: nat, message: seq<byte>)
      requires Proper(Value())
      modifies this`probe
      ensures Spends(old(Value()), Effect(Value(), dest, bytes, message), destination.remote, if ToCandidate(old(Value()), destination) then 0 else credit)
      ensures bytes > 0 ==> dest == destination && delivery.Sent? && bytes == MessageLength(old(Value()), destination)
      ensures Effect(Value(), dest, bytes, message) == SendMessage(old(Value()), destination, text, credit, delivery)
    {
      SendSpends(Value(), destination, text, credit, delivery);
      hide Spends;
      if delivery.Unencoded? {
        return peer, 0, [];
      }
      var length := MessageLength(Value(), destination);
      if destination.remote != peer.remote {
        if probe.Some? && destination == probe.value.candidate {
          if length > probe.value.credit {
            return peer, 0, [];
          }
          probe := Some(probe.value.(credit := probe.value.credit - length));
        } else if length > credit {
          return peer, 0, [];
        }
      }
      if !delivery.Sent? {
        return destination, 0, [];
      }
      return destination, length, text;
    }

    /** A challenge to the old path is free; one to the candidate is paid for out of its credit. The awaited cookie is a fresh one. */
    method SendChallenge(a: Around) returns (dest: Route, bytes: nat, message: seq<byte>)
      requires Proper(Value()) && probe.Some?
      modifies this`probe
      ensures Spends(old(Value()), Effect(Value(), dest, bytes, message), peer.remote, 0)
      ensures probe.Some? && probe.value.cookie == a.cookie && probe.value.candidate == old(probe).value.candidate
      ensures Effect(Value(), dest, bytes, message) == Challenge(old(Value()), a)
    {
      ChallengeSpends(Value(), a);
      hide SendMessage, Spends;
      var timeout, target := a.timer, peer;
      if probe.value.phase.Candidate? {
        if timeout < INITIAL_CHALLENGE {
          timeout := INITIAL_CHALLENGE;
        }
        target := probe.value.candidate;
      }
      probe := Some(probe.value.(cookie := a.cookie, deadline := a.now + timeout));
      dest, bytes, message := Send(target, [CHALLENGE] + a.cookie, 0, a.delivery);
    }

    /** The candidate itself is challenged, under a connection ID of its own if the peer has given one to spare. */
    method ChallengeCandidate(a: Around) returns (dest: Route, bytes: nat, message: seq<byte>)
      requires Proper(Value()) && probe.Some?
      modifies this`probe, this`spare, this`want
      ensures Spends(old(Value()), Effect(Value(), dest, bytes, message), peer.remote, 0)
      ensures probe.Some? && probe.value.phase.Candidate? && [probe.value.cid] + spare == (if old(spare) == [] then [peerCid] else old(spare))
      ensures Effect(Value(), dest, bytes, message) == StartBasic(old(Value()), a)
    {
      BasicSpends(Value(), a);
      hide Challenge, Spends;
      if spare != [] {
        probe := Some(probe.value.(phase := Candidate, cid := spare[0]));
        spare := spare[1..];
        want := |spare| < 2;
      } else {
        probe := Some(probe.value.(phase := Candidate, cid := peerCid));
      }
      dest, bytes, message := SendChallenge(a);
    }

    /** A record pays for at most three times its size, to where it came from; the newest record number never goes back. */
    method ObserveRecord(from: Route, number: RecordNumber, typ: byte, size: nat, allowed: bool, a: Around) returns (dest: Route, bytes: nat, message: seq<byte>)
      requires Proper(Value())
      modifies this`probe, this`highest, this`seen
      ensures Spends(old(Value()), Effect(Value(), dest, bytes, message), from.remote, if typ == RRC_TYPE then 0 else 3 * size)
      ensures seen && !After(number, highest) && (old(seen) ==> !After(old(highest), highest))
      ensures old(probe).None? ==>
        (probe.Some? <==> from.remote != peer.remote && number.epoch >= 3 && typ != 27 && allowed && (!old(seen) || After(number, old(highest))))
      ensures old(probe).None? && probe.Some? ==> ChallengesOldPath(old(Value()), from, size, a, Effect(Value(), dest, bytes, message))
      ensures Effect(Value(), dest, bytes, message) == Observe(old(Value()), from, number, typ, size, allowed, a)
    {
      ObserveSpends(Value(), from, number, typ, size, allowed, a);
      ValidationStarts(Value(), from, number, typ, size, allowed, a);
      hide Challenge, Spends, ChallengesOldPath;
      var newest := !seen || After(number, highest);
      if newest {
        highest, seen := number, true;
      }
      if from.remote == peer.remote || number.epoch < 3 || typ == RRC_TYPE {
        return peer, 0, [];
      }
      if probe.Some? {
        if from == probe.value.candidate {
          probe := Some(Credited(probe.value, size));
        }
        return peer, 0, [];
      }
      if !newest || !allowed {
        return peer, 0, [];
      }
      probe := Some(Probe.Probe(from, Old, [], 0, 3 * size, []));
      dest, bytes, message := SendChallenge(a);
    }

    /** An answer pays for at most three times the message; the peer moves only to a candidate that answers its own challenge in time. */
    method ReceiveMessage(from: Route, body: seq<byte>, size: nat, a: Around) returns (dest: Route, bytes: nat, message: seq<byte>, error: Option<Error>)
      requires Proper(Value())
      modifies this`peer, this`peerCid, this`probe, this`spare, this`want
      ensures Proper(Value())
      ensures forall r: nat :: r != old(peer).remote ==> Earns(old(Value()), Effect(Value(), dest, bytes, message), r, from.remote, 3 * size)
      ensures peer != old(peer) ==> body != [] && Answers(old(Value()), from, body[1..], a.now) && body[0] == 1 && peer == from && bytes == 0
      ensures |body| == 9 && body[0] == 0 ==> Echoes(old(Value()), from, body, size, a, Effect(Value(), dest, bytes, message))
      ensures |body| == 9 && body[0] == 2 && Answers(old(Value()), from, body[1..], a.now) && old(probe).value.phase.Old? ==>
        ChallengesCandidate(old(Value()), a, Effect(Value(), dest, bytes, message))
      ensures error == if body == [] || (body[0] <= 2 && |body| != 9) then Some(Decode) else None
      ensures (Effect(Value(), dest, bytes, message), error) == Receive(old(Value()), from, body, size, a)
    {
      ReceivedAllWell(Value(), from, body, size, a);
      MalformedMessages(Value(), from, body, size, a);
      if |body| == 9 && body[0] == 0 { ChallengeIsAnswered(Value(), from, body, size, a); }
      if |body| == 9 && 1 <= body[0] <= 2 { AnswerMoves(Value(), from, body, size, a); }
      hide SendMessage, StartBasic, Earns, Echoes, ChallengesCandidate;
      if body == [] {
        return peer, 0, [], Some(Decode);
      }
      if body[0] > 2 {
        return peer, 0, [], None;
      }
      if |body| != RRC_MESSAGE {
        return peer, 0, [], Some(Decode);
      }
      error := None;
      if body[0] == 0 {
        if probe.Some? && from == probe.value.candidate {
          probe := Some(Credited(probe.value, size));
        }
        dest, bytes, message := Send(from, Reply(Value(), from, body), 3 * size, a.delivery);
        return;
      }
      if probe.None? || probe.value.cookie != body[1..] || a.now >= probe.value.deadline {
        return peer, 0, [], None;
      }
      var expected := if probe.value.phase.Old? then peer else probe.value.candidate;
      if from != expected {
        return peer, 0, [], None;
      }
      if body[0] == 2 {
        if probe.value.phase.Old? {
          dest, bytes, message := ChallengeCandidate(a);
          return;
        }
        return peer, 0, [], None;
      }
      if probe.value.phase.Candidate? {
        peer, peerCid := probe.value.candidate, probe.value.cid;
      }
      probe := None;
      return peer, 0, [], None;
    }

    /** One arriving record: observed, and handed on if it is a validation message. No address but the peer's is ever owed. */
    method Take(e: Event) returns (dest: Route, bytes: nat, message: seq<byte>)
      requires Valid() && e.Record?
      modifies this
      ensures Valid() && forall r: nat :: r != peer.remote ==> Total(ledger.sent, r) + Held(Value(), r) <= 3 * Total(ledger.received, r)
      ensures ledger == Account(old(ledger), old(Value()), e.from, e.size, Effect(Value(), dest, bytes, message))
      ensures peer != old(peer) <==> Confirms(old(Value()), e)
      ensures e.typ == 27 && e.number.epoch >= 3 && |e.body| == 9 && e.body[0] == 0 ==>
        Echoes(old(Value()), e.from, e.body, e.size, e.a, Effect(Value(), dest, bytes, message))
      ensures e.typ != 27 && old(probe).None? && probe.Some? ==> ChallengesOldPath(old(Value()), e.from, e.size, e.a, Effect(Value(), dest, bytes, message))
    {
      ghost var w := World(Value(), ledger);
      StepKeeps(w, e);
      OnlyValidatedPeers(w, e);
      hide Invariant, Confirms, Receive, Observe;
      assert Proper(Value()) by { Properly(w); }
      ObserveSpends(Value(), e.from, e.number, e.typ, e.size, e.allowed, e.a);
      dest, bytes, message := ObserveRecord(e.from, e.number, e.typ, e.size, e.allowed, e.a);
      if e.typ == RRC_TYPE && e.number.epoch >= 3 {
        var error;
        dest, bytes, message, error := ReceiveMessage(e.from, e.body, e.size, e.a);
      }
      ledger := Account(ledger, w.state, e.from, e.size, Effect(Value(), dest, bytes, message));
      assert World(Value(), ledger) == Next(w, e);
      AllCovered(World(Value(), ledger));
    }

    /** The timer: a validation that got no answer is tried again on the candidate's credit, or given up. */
    method Expire(a: Around) returns (dest: Route, bytes: nat, message: seq<byte>)
      requires Valid()
      modifies this
      ensures Valid() && peer == old(peer)
      ensures forall r: nat :: r != peer.remote ==> Total(ledger.sent, r) + Held(Value(), r) <= 3 * Total(ledger.received, r)
      ensures ledger == Account(old(ledger), old(Value()), old(peer), 0, Effect(Value(), dest, bytes, message))
      ensures old(probe).Some? && a.now >= old(probe).value.deadline ==>
        if old(probe).value.phase.Old? then ChallengesCandidate(old(Value()), a, Effect(Value(), dest, bytes, message)) else probe.None? && bytes == 0
      ensures Effect(Value(), dest, bytes, message) == Tick(old(Value()), a)
    {
      ghost var w := World(Value(), ledger);
      assert Proper(Value()) by { Properly(w); }
      TimerMoves(Value(), a);
      hide ChallengesCandidate;
      StepKeeps(w, Timer(a));
      OnlyValidatedPeers(w, Timer(a));
      hide Invariant;
      assert Proper(Value()) by { Properly(w); }
      dest, bytes, message := Fire(a);
      ledger := Account(ledger, w.state, w.state.peer, 0, Effect(Value(), dest, bytes, message));
      assert World(Value(), ledger) == Next(w, Timer(a));
      AllCovered(World(Value(), ledger));
    }

    method Fire(a: Around) returns (dest: Route, bytes: nat, message: seq<byte>)
      requires Proper(Value())
      modifies this`probe, this`spare, this`want
      ensures Effect(Value(), dest, bytes, message) == Tick(old(Value()), a)
    {
      hide StartBasic, Spends;
      if probe.None? || a.now < probe.value.deadline {
        return peer, 0, [];
      }
      if probe.value.phase.Old? {
        dest, bytes, message := ChallengeCandidate(a);
        return;
      }
      probe := None;
      return peer, 0, [];
    }
  }
}
