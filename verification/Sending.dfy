/** The sending half of a session: flights, write epochs and their counters, local KeyUpdate. */
module Sending {
  import opened Wire
  import opened Bitmap
  import opened Fragments
  import opened Flights
  import opened Outlets
  import Receiving

  /** The handshake flight's key among the flights; the others are keyed by their message type. */
  const OUTBOUND: nat := 0
  const LAST_EPOCH := 0xffff_ffff_ffff

  datatype Sender = Sender(
    history: seq<Message>, flights: map<nat, FlightState>, write: map<nat, WriteEpoch>, top: nat,
    installed: set<nat>, complete: bool, localPending: bool, updating: bool, handed: seq<RecordNumber>)

  function Initial(): Sender {
    Sender([], map[], map[0 := WriteEpoch(0, 0x1_0000_0000_0000)], 0, {}, false, false, false, [])
  }

  datatype Event =
    | InstallKeys(epoch: nat, limit: nat)
    | BeginHandshake(messages: seq<Message>, interval: int)
    | BeginPost(typ: byte, body: seq<byte>, interval: int, end: nat)
    | SendPart(key: nat, part: Part, capacity: int, onlyNew: bool)
    | SendOther(epoch: nat)
    | LoseNumber(epoch: nat)
    | Acknowledged(key: nat, number: RecordNumber, authenticated: bool)
    | FlightDone(key: nat)
    | Answered
    | HandshakeDone(limit: nat)
    | RetireHandshakeKeys
    | NextKeys(limit: nat)
    | Forget(key: nat)
    | RequestUpdate

  predicate OutboundDone(s: Sender) {
    OUTBOUND !in s.flights || s.flights[OUTBOUND].complete
  }

  predicate CanNumber(s: Sender, epoch: nat) {
    epoch in s.write && s.write[epoch].sequence < s.write[epoch].limit
  }

  function NextNumber(s: Sender, epoch: nat): RecordNumber
    requires epoch in s.write
  {
    RecordNumber(epoch, s.write[epoch].sequence)
  }

  /** Takes the epoch's next number for one packet, sent or not. */
  function Spend(s: Sender, epoch: nat): Sender
    requires epoch in s.write
  {
    var w := s.write[epoch];
    s.(write := s.write[epoch := w.(sequence := w.sequence + 1)], handed := s.handed + [NextNumber(s, epoch)])
  }

  function InstallWrite(s: Sender, epoch: nat, limit: nat): Sender {
    if epoch in s.installed then s
    else s.(write := s.write[epoch := WriteEpoch(0, limit)], installed := s.installed + {epoch},
            top := if epoch > s.top then epoch else s.top)
  }

  function PostMessage(s: Sender, key: byte, body: seq<byte>): Message
    requires |s.history| < 0x1_0000
  {
    Message(key, |s.history|, s.top, body)
  }

  ghost predicate Enabled(s: Sender, e: Event) {
    match e
    case InstallKeys(epoch, _) => epoch in {2, 3} && epoch !in s.installed && !s.complete
    case BeginHandshake(ms, _) =>
      && !s.complete && OutboundDone(s) && 0 < |ms| <= MAX_PENDING && |s.history| + |ms| <= 0x1_0000
      && forall j :: 0 <= j < |ms| ==>
           ms[j].sequence == |s.history| + j && ms[j].epoch in s.write && ms[j].epoch < 3 && |ms[j].body| <= MAX_BODY
    case BeginPost(key, body, interval, end) =>
      && s.complete && !s.updating && OutboundDone(s) && |s.history| < 0x1_0000 && |body| <= MAX_BODY
      && key in {Receiving.REQUEST_CONNECTION_ID, Receiving.NEW_CONNECTION_ID, Receiving.KEY_UPDATE}
      && (key in s.flights ==> s.flights[key].complete)
      && (key == Receiving.KEY_UPDATE ==> s.localPending && body in {[0], [1]} && s.top < LAST_EPOCH)
      && CanNumber(s, s.top)
      && end <= |body| && (|body| > 0 ==> end > 0)
    case SendPart(key, part, capacity, onlyNew) =>
      && key in s.flights && !s.flights[key].complete && Within(s.flights[key], part)
      && Sendable(s.flights[key].items[part.message], part, capacity, onlyNew)
      && CanNumber(s, s.flights[key].items[part.message].message.epoch)
    case SendOther(epoch) => CanNumber(s, epoch)
    case LoseNumber(epoch) => CanNumber(s, epoch)
    case Acknowledged(key, _, _) => key in s.flights && !s.flights[key].complete && Flights.Valid(s.flights[key])
    case FlightDone(key) => key in s.flights && !s.flights[key].complete && AllAcknowledged(s.flights[key])
    case Answered => !s.complete && OUTBOUND in s.flights && !s.flights[OUTBOUND].complete
    case HandshakeDone(_) => !s.complete
    case RetireHandshakeKeys => s.complete && OutboundDone(s)
    case NextKeys(_) =>
      s.complete && s.updating && s.write.Keys == {s.top} && forall key :: key in s.flights ==> s.flights[key].complete
    case Forget(key) => key in s.flights && s.flights[key].complete && s.complete && !s.updating
    case RequestUpdate => s.complete && s.top < LAST_EPOCH
  }

  ghost function Next(s: Sender, e: Event): Sender
    requires Enabled(s, e)
  {
    match e
    case InstallKeys(epoch, limit) => InstallWrite(s, epoch, limit)
    case BeginHandshake(ms, interval) =>
      s.(history := s.history + ms, flights := s.flights[OUTBOUND := Begin(ms, interval)])
    case BeginPost(key, body, interval, end) =>
      var m := PostMessage(s, key, body);
      var f := Note(Begin([m], interval), Sending(NextNumber(s, s.top), Part(0, 0, end)));
      var update := key == Receiving.KEY_UPDATE;
      Spend(s, s.top).(history := s.history + [m], flights := s.flights[key := f],
                       updating := update, localPending := s.localPending && !update)
    case SendPart(key, part, _, _) =>
      var epoch := s.flights[key].items[part.message].message.epoch;
      Spend(s, epoch).(flights := s.flights[key := Note(s.flights[key], Sending(NextNumber(s, epoch), part))])
    case SendOther(epoch) => Spend(s, epoch)
    case LoseNumber(epoch) => Spend(s, epoch)
    case Acknowledged(key, n, authenticated) =>
      s.(flights := s.flights[key := AckOne(s.flights[key], n, authenticated).0])
    case FlightDone(key) => s.(flights := s.flights[key := Finish(s.flights[key])])
    case Answered => s.(flights := s.flights[OUTBOUND := Finish(s.flights[OUTBOUND])])
    case HandshakeDone(limit) => InstallWrite(s, 3, limit).(complete := true)
    case RetireHandshakeKeys => s.(write := s.write - {0, 2})
    case NextKeys(limit) => s.(write := map[s.top + 1 := WriteEpoch(0, limit)], top := s.top + 1, updating := false)
    case Forget(key) => s.(flights := s.flights - {key})
    case RequestUpdate => s.(localPending := true)
  }

  ghost function Run(s: Sender, events: seq<Event>): Option<Sender>
    decreases |events|
  {
    if events == [] then Some(s)
    else if Enabled(s, events[0]) then Run(Next(s, events[0]), events[1..])
    else None
  }

  // ----- what every step keeps -----

  /** Epoch 0 from the start, 2 and 3 once installed, later ones only above 3. */
  predicate Known(s: Sender, epoch: nat) {
    epoch <= s.top && (epoch == 0 || epoch in s.installed || epoch > 3)
  }

  ghost predicate NumbersInv(s: Sender) {
    && s.installed <= {2, 3} && s.top in s.write
    && (forall e :: e in s.write ==> Known(s, e) && s.write[e].sequence <= s.write[e].limit)
    && (forall n :: n in s.handed ==>
          Known(s, n.epoch) && (n.epoch in s.write ==> n.sequence < s.write[n.epoch].sequence))
    && (forall i, j :: 0 <= i < j < |s.handed| ==> s.handed[i] != s.handed[j])
    && (s.complete || 3 in s.installed ==> 3 <= s.top)
    && (!s.complete ==> s.top <= 3 && 0 in s.write)
  }

  /** Every message still owed can be sent: its epoch has keys. Messages after the handshake are of the current epoch. */
  ghost predicate FlightsInv(s: Sender) {
    forall key :: key in s.flights ==>
      && Flights.Valid(s.flights[key])
      && (key != OUTBOUND ==> s.complete)
      && (!s.flights[key].complete ==>
            forall j :: 0 <= j < |s.flights[key].items| ==>
              var epoch := s.flights[key].items[j].message.epoch;
              epoch in s.write && (if key == OUTBOUND then epoch < 3 else epoch == s.top))
  }

  /** A flight only ever used numbers that were handed out. */
  ghost predicate PartsHanded(s: Sender) {
    forall key, n :: key in s.flights && n in s.flights[key].sent ==> n in s.handed
  }

  ghost predicate SenderInv(s: Sender) {
    NumbersInv(s) && FlightsInv(s) && PartsHanded(s)
  }

  lemma SpendKeeps(s: Sender, epoch: nat)
    requires NumbersInv(s) && CanNumber(s, epoch)
    ensures NumbersInv(Spend(s, epoch)) && NextNumber(s, epoch) !in s.handed
  {
  }

  lemma InstallKeeps(s: Sender, epoch: nat, limit: nat)
    requires SenderInv(s) && !s.complete && epoch in {2, 3}
    ensures SenderInv(InstallWrite(s, epoch, limit))
    ensures epoch == 3 ==> SenderInv(InstallWrite(s, epoch, limit).(complete := true))
  {
    InstallNumbers(s, epoch, limit);
    InstallFlights(s, epoch, limit);
    hide NumbersInv, FlightsInv, InstallWrite;
    InstallParts(s, epoch, limit);
  }

  lemma InstallParts(s: Sender, epoch: nat, limit: nat)
    requires PartsHanded(s)
    ensures PartsHanded(InstallWrite(s, epoch, limit)) && PartsHanded(InstallWrite(s, epoch, limit).(complete := true))
  {
  }

  lemma InstallNumbers(s: Sender, epoch: nat, limit: nat)
    requires NumbersInv(s) && !s.complete && epoch in {2, 3}
    ensures NumbersInv(InstallWrite(s, epoch, limit))
    ensures epoch == 3 ==> NumbersInv(InstallWrite(s, epoch, limit).(complete := true))
  {
    var t := InstallWrite(s, epoch, limit);
    forall n | n in t.handed ensures Known(t, n.epoch) && (n.epoch in t.write ==> n.sequence < t.write[n.epoch].sequence) { }
  }

  lemma InstallFlights(s: Sender, epoch: nat, limit: nat)
    requires FlightsInv(s) && !s.complete
    ensures FlightsInv(InstallWrite(s, epoch, limit)) && FlightsInv(InstallWrite(s, epoch, limit).(complete := true))
  {
    hide Flights.Valid;
  }

  /** Replacing one flight by a valid one whose messages are the same. */
  lemma FlightReplaced(s: Sender, key: nat, f: FlightState)
    requires FlightsInv(s) && PartsHanded(s) && key in s.flights && Flights.Valid(f)
    requires f.complete || (!s.flights[key].complete && |f.items| == |s.flights[key].items| &&
      forall j :: 0 <= j < |f.items| ==> f.items[j].message == s.flights[key].items[j].message)
    requires forall n :: n in f.sent ==> n in s.handed
    ensures FlightsInv(s.(flights := s.flights[key := f])) && PartsHanded(s.(flights := s.flights[key := f]))
  {
    hide Flights.Valid;
  }

  /** Spending a number disturbs no flight. */
  lemma SpendKeepsFlights(s: Sender, epoch: nat)
    requires FlightsInv(s) && PartsHanded(s) && epoch in s.write
    ensures FlightsInv(Spend(s, epoch)) && PartsHanded(Spend(s, epoch))
  {
    hide Flights.Valid;
  }

  lemma SendPartKeeps(s: Sender, key: nat, part: Part, capacity: int, onlyNew: bool)
    requires SenderInv(s) && Enabled(s, SendPart(key, part, capacity, onlyNew))
    ensures SenderInv(Next(s, SendPart(key, part, capacity, onlyNew)))
  {
    var f := s.flights[key];
    var epoch := f.items[part.message].message.epoch;
    var number := NextNumber(s, epoch);
    SpendKeeps(s, epoch);
    SpendKeepsFlights(s, epoch);
    assert Flights.Valid(f) && number !in f.sent;
    hide Flights.Valid, Sendable, NumbersInv, FlightsInv;
    PartNoted(f, number, part, capacity, onlyNew);
    FlightReplaced(Spend(s, epoch), key, Note(f, Sending(number, part)));
    NumbersOnly(Spend(s, epoch), Next(s, SendPart(key, part, capacity, onlyNew)));
  }

  /** Noting a sendable part under a new number keeps the flight valid and names only that number more. */
  lemma PartNoted(f: FlightState, n: RecordNumber, part: Part, capacity: int, onlyNew: bool)
    requires Flights.Valid(f) && Within(f, part) && Sendable(f.items[part.message], part, capacity, onlyNew)
    requires n !in f.sent && n.epoch == f.items[part.message].message.epoch
    ensures var g := Note(f, Sending(n, part));
      && Flights.Valid(g) && g.complete == f.complete && |g.items| == |f.items|
      && (forall j :: 0 <= j < |g.items| ==> g.items[j].message == f.items[j].message)
      && g.sent == f.sent[n := part]
  {
    NoteKeeps(f, Sending(n, part), capacity, onlyNew);
  }

  /** The numbering invariant does not depend on flights, history or flags. */
  lemma NumbersOnly(s: Sender, t: Sender)
    requires NumbersInv(s)
    requires t.(flights := s.flights, history := s.history, localPending := s.localPending, updating := s.updating) == s
    ensures NumbersInv(t)
  {
    forall e: nat ensures Known(s, e) == Known(t, e) { }
  }

  lemma AcknowledgedKeeps(s: Sender, key: nat, n: RecordNumber, authenticated: bool)
    requires SenderInv(s) && Enabled(s, Acknowledged(key, n, authenticated))
    ensures SenderInv(Next(s, Acknowledged(key, n, authenticated)))
  {
    var f := s.flights[key];
    AckOneKeeps(f, n, authenticated);
    hide Flights.Valid, NumbersInv, FlightsInv;
    FlightReplaced(s, key, AckOne(f, n, authenticated).0);
    NumbersOnly(s, Next(s, Acknowledged(key, n, authenticated)));
  }

  lemma BeginKeeps(s: Sender, key: nat, f: FlightState)
    requires FlightsInv(s) && PartsHanded(s) && Flights.Valid(f) && (key != OUTBOUND ==> s.complete)
    requires forall j :: 0 <= j < |f.items| ==>
      var epoch := f.items[j].message.epoch; epoch in s.write && (if key == OUTBOUND then epoch < 3 else epoch == s.top)
    requires forall n :: n in f.sent ==> n in s.handed
    ensures FlightsInv(s.(flights := s.flights[key := f])) && PartsHanded(s.(flights := s.flights[key := f]))
  {
    hide Flights.Valid;
  }

  lemma BeginPostKeeps(s: Sender, typ: byte, body: seq<byte>, interval: int, end: nat)
    requires SenderInv(s) && Enabled(s, BeginPost(typ, body, interval, end))
    ensures SenderInv(Next(s, BeginPost(typ, body, interval, end)))
  {
    var m := PostMessage(s, typ, body);
    var f := Begin([m], interval);
    BeginValid([m], interval);
    var number := NextNumber(s, s.top);
    assert Sendable(f.items[0], Part(0, 0, end), end, false);
    SpendKeeps(s, s.top);
    SpendKeepsFlights(s, s.top);
    hide Flights.Valid, Sendable, NumbersInv, FlightsInv;
    PartNoted(f, number, Part(0, 0, end), end, false);
    BeginKeeps(Spend(s, s.top), typ, Note(f, Sending(number, Part(0, 0, end))));
    var t := Next(s, BeginPost(typ, body, interval, end));
    NumbersOnly(Spend(s, s.top), t);
    FlightsOnly(Spend(s, s.top).(flights := t.flights), t);
  }

  /** The flight invariants do not depend on history or flags. */
  lemma FlightsOnly(s: Sender, t: Sender)
    requires FlightsInv(s) && PartsHanded(s)
    requires t.(history := s.history, localPending := s.localPending, updating := s.updating) == s
    ensures FlightsInv(t) && PartsHanded(t)
  {
    hide Flights.Valid;
  }

  lemma BeginHandshakeKeeps(s: Sender, ms: seq<Message>, interval: int)
    requires SenderInv(s) && Enabled(s, BeginHandshake(ms, interval))
    ensures SenderInv(Next(s, BeginHandshake(ms, interval)))
  {
    BeginValid(ms, interval);
    var t := Next(s, BeginHandshake(ms, interval));
    hide Flights.Valid, NumbersInv, FlightsInv;
    BeginKeeps(s, OUTBOUND, Begin(ms, interval));
    NumbersOnly(s, t);
    FlightsOnly(s.(flights := t.flights), t);
  }

  lemma FinishKeeps(s: Sender, key: nat)
    requires SenderInv(s) && key in s.flights
    ensures SenderInv(s.(flights := s.flights[key := Finish(s.flights[key])]))
  {
    var f := Finish(s.flights[key]);
    assert Flights.Valid(f);
    hide Flights.Valid, NumbersInv, FlightsInv;
    FlightReplaced(s, key, f);
    NumbersOnly(s, s.(flights := s.flights[key := f]));
  }

  /** Old keys go only when nothing unfinished names them. */
  lemma KeyChangesKeep(s: Sender, e: Event)
    requires SenderInv(s) && Enabled(s, e) && (e.RetireHandshakeKeys? || e.NextKeys? || e.Forget? || e.RequestUpdate?)
    ensures SenderInv(Next(s, e))
  {
    hide Flights.Valid;
  }

  lemma StepKeeps(s: Sender, e: Event)
    requires SenderInv(s) && Enabled(s, e)
    ensures SenderInv(Next(s, e))
  {
    hide Flights.Valid, NumbersInv, FlightsInv, PartsHanded;
    match e
    case InstallKeys(epoch, limit) => InstallKeeps(s, epoch, limit);
    case BeginHandshake(ms, interval) => BeginHandshakeKeeps(s, ms, interval);
    case BeginPost(typ, body, interval, end) => BeginPostKeeps(s, typ, body, interval, end);
    case SendPart(key, part, capacity, onlyNew) => SendPartKeeps(s, key, part, capacity, onlyNew);
    case SendOther(epoch) => SpendKeeps(s, epoch); SpendKeepsFlights(s, epoch);
    case LoseNumber(epoch) => SpendKeeps(s, epoch); SpendKeepsFlights(s, epoch);
    case Acknowledged(key, n, authenticated) => AcknowledgedKeeps(s, key, n, authenticated);
    case FlightDone(key) => FinishKeeps(s, key);
    case Answered => FinishKeeps(s, OUTBOUND);
    case HandshakeDone(limit) => InstallKeeps(s, 3, limit);
    case _ => KeyChangesKeep(s, e);
  }

  lemma {:induction false} RunKeeps(s: Sender, events: seq<Event>)
    requires SenderInv(s) && Run(s, events).Some?
    ensures SenderInv(Run(s, events).value)
    decreases |events|
  {
    if events != [] {
      StepKeeps(s, events[0]);
      RunKeeps(Next(s, events[0]), events[1..]);
    }
  }

  /** Over any run no record number is used twice, none reaches its epoch's limit, and every unfinished flight can still be sent. */
  lemma NumbersAndLiveEpochs(events: seq<Event>)
    requires Run(Initial(), events).Some?
    ensures var s := Run(Initial(), events).value;
      && (forall i, j :: 0 <= i < j < |s.handed| ==> s.handed[i] != s.handed[j])
      && (forall n :: n in s.handed && n.epoch in s.write ==> n.sequence < s.write[n.epoch].limit)
      && (forall key, j :: key in s.flights && !s.flights[key].complete && 0 <= j < |s.flights[key].items| ==>
            s.flights[key].items[j].message.epoch in s.write)
  {
    RunKeeps(Initial(), events);
  }

  /** The state in which a run's event i happens. */
  ghost function At(s: Sender, events: seq<Event>, i: nat): Sender
    requires Run(s, events).Some? && i < |events|
    ensures Enabled(At(s, events, i), events[i])
    decreases |events|
  {
    if i == 0 then s else At(Next(s, events[0]), events[1..], i - 1)
  }

  /** The event installs the epoch's keys, by itself or on completing the handshake. */
  ghost predicate Installs(s: Sender, e: Event, epoch: nat) {
    Enabled(s, e) && epoch !in s.installed && epoch in Next(s, e).installed
  }

  lemma {:induction false} StaysInstalled(s: Sender, events: seq<Event>, epoch: nat, i: nat)
    requires Run(s, events).Some? && epoch in s.installed && i < |events|
    ensures epoch in At(s, events, i).installed
    decreases |events|
  {
    if i > 0 {
      assert epoch in Next(s, events[0]).installed;
      hide Enabled, Next;
      StaysInstalled(Next(s, events[0]), events[1..], epoch, i - 1);
    }
  }

  /** In every run the keys of a handshake epoch are installed at most once, even after they were dropped. */
  lemma {:induction false} InstalledOnce(s: Sender, events: seq<Event>, epoch: nat, i: nat, j: nat)
    requires Run(s, events).Some? && i < j < |events| && Installs(At(s, events, i), events[i], epoch)
    ensures !Installs(At(s, events, j), events[j], epoch)
    decreases |events|
  {
    hide Enabled, Next;
    if i > 0 {
      InstalledOnce(Next(s, events[0]), events[1..], epoch, i - 1, j - 1);
    } else {
      StaysInstalled(Next(s, events[0]), events[1..], epoch, j - 1);
    }
  }
}
