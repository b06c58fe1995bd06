/** A flight of handshake messages on the sending side, as a value: what is sent, acknowledged and still owed. */
module Flights {
  import opened Wire
  import opened Bitmap
  import opened Fragments

  const MAX_FLIGHT_RECORDS := 65536
  const MAX_RETRIES := 8
  const BURST := 10
  const INITIAL_RETRANSMIT := 1000
  const MAXIMUM_RETRANSMIT := 60000

  /** One message of a flight and the positions of its body sent and acknowledged so far. */
  datatype Item = Item(message: Message, acked: set<nat>, sent: set<nat>, emptyAcked: bool, emptySent: bool) {
    function Length(): nat { |message.body| }

    /** Only what was sent is acknowledged. */
    ghost predicate Valid() {
      && Length() <= MAX_BODY
      && acked <= sent <= Range(0, Length())
      && (emptyAcked ==> emptySent)
    }

    /** Bytes, or the one empty message, not yet acknowledged. */
    function Unacked(): int {
      if Length() == 0 then if emptyAcked then 0 else 1 else Length() - |acked|
    }

    /** Bytes, or the one empty message, never sent. */
    function Unsent(): int {
      if Length() == 0 then if emptyAcked || emptySent then 0 else 1 else Length() - |sent|
    }
  }

  datatype Part = Part(message: nat, start: nat, end: nat)

  datatype FlightState = FlightState(
    items: seq<Item>, sent: map<RecordNumber, Part>, interval: int, deadline: Option<int>,
    retries: int, complete: bool, sentOnce: bool, ackedSinceSend: bool)

  // ----- validity -----

  predicate Within(f: FlightState, part: Part) {
    part.message < |f.items| && part.start <= part.end <= f.items[part.message].Length()
  }

  /** Everything the part names really went out, in its message's epoch. */
  ghost predicate WentOut(f: FlightState, n: RecordNumber, part: Part) {
    Within(f, part) &&
    var m := f.items[part.message];
    && n.epoch == m.message.epoch
    && Range(part.start, part.end) <= m.sent
    && (m.Length() == 0 ==> m.emptySent)
  }

  ghost predicate Valid(f: FlightState) {
    && (forall j :: 0 <= j < |f.items| ==> f.items[j].Valid())
    && (forall n :: n in f.sent ==> WentOut(f, n, f.sent[n]))
    && 0 <= f.retries <= MAX_RETRIES
    && (f.complete ==> f.items == [] && f.sent == map[])
  }

  // ----- totals -----

  function TotalUnacked(items: seq<Item>): int {
    if items == [] then 0 else items[0].Unacked() + TotalUnacked(items[1..])
  }

  function TotalUnsent(items: seq<Item>): int {
    if items == [] then 0 else items[0].Unsent() + TotalUnsent(items[1..])
  }

  lemma {:induction false} Replace(items: seq<Item>, j: nat, m: Item)
    requires j < |items|
    ensures TotalUnacked(items[j := m]) == TotalUnacked(items) - items[j].Unacked() + m.Unacked()
    ensures TotalUnsent(items[j := m]) == TotalUnsent(items) - items[j].Unsent() + m.Unsent()
  {
    if j == 0 {
      assert items[j := m][1..] == items[1..];
    } else {
      assert items[j := m][1..] == items[1..][j - 1 := m];
      Replace(items[1..], j - 1, m);
    }
  }

  lemma {:induction false} TotalsExact(items: seq<Item>)
    requires forall j :: 0 <= j < |items| ==> items[j].Valid()
    ensures 0 <= TotalUnacked(items) && 0 <= TotalUnsent(items)
    ensures TotalUnacked(items) == 0 <==> forall j :: 0 <= j < |items| ==> items[j].Unacked() == 0
    ensures TotalUnsent(items) == 0 <==> forall j :: 0 <= j < |items| ==> items[j].Unsent() == 0
  {
    if items != [] {
      OwedIsNatural(items[0]);
      hide Item.Valid, Item.Unacked, Item.Unsent;
      TotalsExact(items[1..]);
      assert items == [items[0]] + items[1..];
    }
  }

  lemma OwedIsNatural(m: Item)
    requires m.Valid()
    ensures 0 <= m.Unacked() && 0 <= m.Unsent()
  {
    FullOrSmaller(m.acked, m.Length());
    FullOrSmaller(m.sent, m.Length());
  }

  predicate PendingSend(f: FlightState) {
    exists j :: 0 <= j < |f.items| && f.items[j].Unsent() != 0
  }

  predicate AllAcknowledged(f: FlightState) {
    forall j :: 0 <= j < |f.items| ==> f.items[j].Unacked() == 0
  }

  // ----- creating -----

  function Prepare(m: Message): Item {
    Item(m, {}, {}, false, false)
  }

  function Clamp(interval: int): int {
    if interval <= 0 then INITIAL_RETRANSMIT else if interval > MAXIMUM_RETRANSMIT then MAXIMUM_RETRANSMIT else interval
  }

  function Begin(messages: seq<Message>, interval: int): FlightState {
    FlightState(seq(|messages|, i requires 0 <= i < |messages| => Prepare(messages[i])), map[], Clamp(interval),
                None, 0, false, false, false)
  }

  lemma BeginValid(messages: seq<Message>, interval: int)
    requires forall j :: 0 <= j < |messages| ==> |messages[j].body| <= MAX_BODY
    ensures Valid(Begin(messages, interval))
  {
  }

  // ----- sending -----

  datatype Sending = Sending(number: RecordNumber, part: Part)

  ghost function MarkSent(m: Item, start: nat, end: nat): Item {
    if m.Length() == 0 then m.(emptySent := true) else m.(sent := m.sent + Range(start, end))
  }

  /** May this part go out now: nothing acknowledged in it, nothing already sent when only new bytes are wanted. */
  ghost predicate Sendable(m: Item, part: Part, capacity: int, onlyNew: bool) {
    && part.end - part.start <= capacity
    && (m.Length() == 0 ==> !m.emptyAcked && !(onlyNew && m.emptySent))
    && (m.Length() > 0 ==> part.start < part.end)
    && Range(part.start, part.end) !! m.acked
    && (onlyNew ==> Range(part.start, part.end) !! m.sent)
  }

  ghost predicate Eligible(f: FlightState, s: Sending, capacity: int, onlyNew: bool) {
    Within(f, s.part) && s.number !in f.sent &&
    var m := f.items[s.part.message];
    s.number.epoch == m.message.epoch && Sendable(m, s.part, capacity, onlyNew)
  }

  ghost function Note(f: FlightState, s: Sending): (g: FlightState)
    requires Within(f, s.part)
    ensures |g.items| == |f.items|
    ensures forall j :: 0 <= j < |g.items| ==> g.items[j].message == f.items[j].message && g.items[j].acked == f.items[j].acked
  {
    var k := s.part.message;
    f.(items := f.items[k := MarkSent(f.items[k], s.part.start, s.part.end)], sent := f.sent[s.number := s.part])
  }

  /** Recording a transmission keeps the books straight and never grows what is owed; a new part shrinks what is unsent. */
  lemma NoteKeeps(f: FlightState, s: Sending, capacity: int, onlyNew: bool)
    requires Valid(f) && Eligible(f, s, capacity, onlyNew)
    ensures Valid(Note(f, s))
    ensures TotalUnacked(Note(f, s).items) == TotalUnacked(f.items)
    ensures TotalUnsent(Note(f, s).items) <= TotalUnsent(f.items) - if onlyNew then 1 else 0
  {
    var k := s.part.message;
    var p := MarkSent(f.items[k], s.part.start, s.part.end);
    MarkSentKeeps(f.items[k], s.part.start, s.part.end, onlyNew);
    hide TotalUnacked, TotalUnsent, Range, Item.Unsent, Item.Unacked;
    Replace(f.items, k, p);
    NoteValid(f, s, p);
  }

  lemma NoteValid(f: FlightState, s: Sending, p: Item)
    requires Valid(f) && !f.complete && Within(f, s.part) && p == MarkSent(f.items[s.part.message], s.part.start, s.part.end)
    requires s.number.epoch == p.message.epoch && p.Valid() && f.items[s.part.message].sent <= p.sent
    requires if p.Length() == 0 then p.emptySent else Range(s.part.start, s.part.end) <= p.sent
    ensures Valid(Note(f, s))
  {
    ReplaceValid(f, s.part.message, p);
    var g := f.(items := f.items[s.part.message := p]);
    assert WentOut(g, s.number, s.part);
    forall n | n in g.sent ensures WentOut(g, n, g.sent[n]) { }
  }

  /** Growing one item leaves the flight valid. */
  lemma ReplaceValid(f: FlightState, k: nat, p: Item)
    requires Valid(f) && k < |f.items| && p.Valid() && p.message == f.items[k].message
    requires f.items[k].sent <= p.sent && (f.items[k].emptySent ==> p.emptySent)
    ensures Valid(f.(items := f.items[k := p]))
  {
    var g := f.(items := f.items[k := p]);
    forall n | n in g.sent ensures WentOut(g, n, g.sent[n]) { assert WentOut(f, n, f.sent[n]); }
  }

  lemma MarkSentKeeps(m: Item, start: nat, end: nat, onlyNew: bool)
    requires m.Valid() && start <= end <= m.Length()
    requires onlyNew ==> if m.Length() == 0 then !m.emptyAcked && !m.emptySent else start < end && start !in m.sent
    ensures var p := MarkSent(m, start, end);
      && p.Valid() && m.sent <= p.sent && (m.emptySent ==> p.emptySent)
      && (if m.Length() == 0 then p.emptySent else Range(start, end) <= p.sent)
      && p.Unacked() == m.Unacked() && p.Unsent() <= m.Unsent() - if onlyNew then 1 else 0
  {
    if m.Length() > 0 { Adding(m.sent, Range(start, end)); }
  }

  // ----- acknowledging -----

  ghost function MarkAcked(m: Item, start: nat, end: nat): Item {
    m.(acked := m.acked + Range(start, end), emptyAcked := m.emptyAcked || m.Length() == 0)
  }

  /** Whether an acknowledgement of this number counts: unknown numbers and unauthenticated ones for protected records do not. */
  predicate Counts(f: FlightState, n: RecordNumber, authenticated: bool) {
    n in f.sent && (authenticated || n.epoch == 0)
  }

  ghost function AckOne(f: FlightState, n: RecordNumber, authenticated: bool): (r: (FlightState, bool))
    requires Valid(f)
    ensures |r.0.items| == |f.items|
  {
    if !Counts(f, n, authenticated) then (f, false)
    else
      var part := f.sent[n];
      var m := f.items[part.message];
      var p := MarkAcked(m, part.start, part.end);
      (f.(items := f.items[part.message := p], sent := f.sent - {n}), p != m)
  }

  lemma AckOneKeeps(f: FlightState, n: RecordNumber, authenticated: bool)
    requires Valid(f)
    ensures var (g, progress) := AckOne(f, n, authenticated);
      && Valid(g)
      && TotalUnacked(g.items) <= TotalUnacked(f.items)
      && TotalUnsent(g.items) == TotalUnsent(f.items)
      && progress == (TotalUnacked(g.items) < TotalUnacked(f.items))
  {
    if Counts(f, n, authenticated) {
      var part := f.sent[n];
      assert WentOut(f, n, part);
      var m := f.items[part.message];
      var p := MarkAcked(m, part.start, part.end);
      hide TotalUnacked, TotalUnsent, Range, MarkAcked, Item.Unacked, Item.Unsent, Item.Valid;
      MarkAckedKeeps(m, part.start, part.end);
      Replace(f.items, part.message, p);
      ReplaceValid(f, part.message, p);
      ForgetValid(f.(items := f.items[part.message := p]), n);
      hide Valid, WentOut;
    }
  }

  lemma ForgetValid(f: FlightState, n: RecordNumber)
    requires Valid(f)
    ensures Valid(f.(sent := f.sent - {n}))
  {
    hide Range, Item.Valid;
    var g := f.(sent := f.sent - {n});
    forall x | x in g.sent ensures WentOut(g, x, g.sent[x]) { assert WentOut(f, x, f.sent[x]); }
  }

  lemma MarkAckedKeeps(m: Item, start: nat, end: nat)
    requires m.Valid() && start <= end <= m.Length()
    requires Range(start, end) <= m.sent && (m.Length() == 0 ==> m.emptySent)
    ensures var p := MarkAcked(m, start, end);
      && p.Valid() && p.sent == m.sent && p.emptySent == m.emptySent
      && p.Unsent() == m.Unsent() && p.Unacked() <= m.Unacked() && (p != m) == (p.Unacked() < m.Unacked())
  {
    Adding(m.acked, Range(start, end));
    if Range(start, end) <= m.acked { assert m.acked + Range(start, end) == m.acked; }
    if m.Length() == 0 { assert Range(start, end) == {}; }
  }

  ghost function AckAll(f: FlightState, records: seq<RecordNumber>, authenticated: bool): (r: (FlightState, bool))
    requires Valid(f)
    ensures Valid(r.0)
    decreases |records|
  {
    if records == [] then (f, false)
    else
      AckOneKeeps(f, records[0], authenticated);
      var (g, first) := AckOne(f, records[0], authenticated);
      var (h, rest) := AckAll(g, records[1..], authenticated);
      (h, first || rest)
  }

  function Finish(f: FlightState): FlightState {
    f.(complete := true, deadline := None, items := [], sent := map[])
  }

  ghost function Acknowledge(f: FlightState, records: seq<RecordNumber>, authenticated: bool): (r: (FlightState, bool))
    requires Valid(f)
    ensures Valid(r.0)
  {
    if f.complete then (f, false)
    else
      var (g, progress) := AckAll(f, records, authenticated);
      var h := if progress then g.(retries := 0, ackedSinceSend := true) else g;
      (if AllAcknowledged(h) then Finish(h) else h, progress)
  }

  lemma {:induction false} AckAllKeeps(f: FlightState, records: seq<RecordNumber>, authenticated: bool)
    requires Valid(f)
    ensures var (g, progress) := AckAll(f, records, authenticated);
      && TotalUnacked(g.items) <= TotalUnacked(f.items)
      && TotalUnsent(g.items) == TotalUnsent(f.items)
      && progress == (TotalUnacked(g.items) < TotalUnacked(f.items))
      && g.(items := f.items, sent := f.sent) == f
    decreases |records|
  {
    if records != [] {
      AckOneKeeps(f, records[0], authenticated);
      AckAllKeeps(AckOne(f, records[0], authenticated).0, records[1..], authenticated);
    }
  }

  // ----- timer -----

  function Expire(f: FlightState, now: int): (r: Result<(FlightState, bool)>) {
    if f.complete || f.deadline == None || now < f.deadline.value then Ok((f, false))
    else if PendingSend(f) then Ok((f.(deadline := Some(now + f.interval)), true))
    else if f.retries == MAX_RETRIES then Err(HandshakeTimeout)
    else
      var interval := if 2 * f.interval < MAXIMUM_RETRANSMIT then 2 * f.interval else MAXIMUM_RETRANSMIT;
      Ok((f.(retries := f.retries + 1, interval := interval, deadline := Some(now + interval)), true))
  }

  // ----- a whole transmission -----

  /** The flight after the parts of a burst have gone out one after the other. */
  ghost function NoteAll(f: FlightState, log: seq<Sending>): (g: FlightState)
    requires forall k :: 0 <= k < |log| ==> Within(f, log[k].part)
    ensures |g.items| == |f.items|
    ensures forall j :: 0 <= j < |g.items| ==> g.items[j].message == f.items[j].message && g.items[j].acked == f.items[j].acked
    decreases |log|
  {
    if log == [] then f
    else
      var s := log[|log| - 1];
      var g := NoteAll(f, log[..|log| - 1]);
      assert Within(f, s.part) && g.items[s.part.message].message == f.items[s.part.message].message;
      Note(g, s)
  }

  /** Each part of the burst was eligible when its turn came. */
  ghost predicate AllEligible(f: FlightState, log: seq<Sending>, capacity: int, onlyNew: bool)
    decreases |log|
  {
    && (forall k :: 0 <= k < |log| ==> Within(f, log[k].part))
    && (log != [] ==>
          && AllEligible(f, log[..|log| - 1], capacity, onlyNew)
          && Eligible(NoteAll(f, log[..|log| - 1]), log[|log| - 1], capacity, onlyNew))
  }

  lemma {:induction false} NoteAllKeeps(f: FlightState, log: seq<Sending>, capacity: int, onlyNew: bool)
    requires Valid(f) && AllEligible(f, log, capacity, onlyNew)
    ensures Valid(NoteAll(f, log))
    ensures TotalUnacked(NoteAll(f, log).items) == TotalUnacked(f.items)
    ensures TotalUnsent(NoteAll(f, log).items) <= TotalUnsent(f.items) - if onlyNew then |log| else 0
    ensures NoteAll(f, log).(items := f.items, sent := f.sent) == f
    decreases |log|
  {
    if log != [] {
      NoteAllKeeps(f, log[..|log| - 1], capacity, onlyNew);
      NoteKeeps(NoteAll(f, log[..|log| - 1]), log[|log| - 1], capacity, onlyNew);
    }
  }

  /** The burst named position i of message j; an empty message counts as its position 0. */
  predicate Touched(log: seq<Sending>, j: nat, i: nat) {
    exists k :: 0 <= k < |log| && log[k].part.message == j
                && (log[k].part.start <= i < log[k].part.end || log[k].part.start == log[k].part.end == i)
  }

  /** Message j needs nothing more from this pass: its new bytes are sent, or a retransmission named all that is unacknowledged. */
  ghost predicate Served(m: Item, log: seq<Sending>, j: nat, upTo: nat, onlyNew: bool) {
    if m.Length() == 0 then m.emptyAcked || (if onlyNew then m.emptySent else Touched(log, j, 0))
    else forall i :: 0 <= i < upTo ==> i in m.acked || (if onlyNew then i in m.sent else Touched(log, j, i))
  }

  ghost predicate Exhausted(g: FlightState, log: seq<Sending>, n: nat, onlyNew: bool)
    requires n <= |g.items|
  {
    forall j :: 0 <= j < n ==> Served(g.items[j], log, j, g.items[j].Length(), onlyNew)
  }

  /** One successful transmission: new bytes first, and only without any, what is unacknowledged again. */
  ghost predicate Transmitted(f: FlightState, g: FlightState, log: seq<Sending>, now: int, capacity: int) {
    var unsent := PendingSend(f);
    && !f.complete && 1 <= capacity <= MAX_CONTENT - HANDSHAKE_HEADER
    && |log| <= BURST && AllEligible(f, log, capacity, unsent)
    && (unsent ==> log != [])
    && (|log| < BURST ==> Exhausted(NoteAll(f, log), log, |f.items|, unsent))
    && g == NoteAll(f, log).(sentOnce := f.sentOnce || !PendingSend(NoteAll(f, log)), deadline := Some(now + f.interval))
  }

  lemma TransmittedKeeps(f: FlightState, g: FlightState, log: seq<Sending>, now: int, capacity: int)
    requires Valid(f) && Transmitted(f, g, log, now, capacity)
    ensures Valid(g) && TotalUnacked(g.items) == TotalUnacked(f.items)
    ensures TotalUnsent(g.items) <= TotalUnsent(f.items) - if PendingSend(f) then 1 else 0
    ensures !g.complete && g.retries == f.retries
  {
    NoteAllKeeps(f, log, capacity, PendingSend(f));
  }

  // ----- every flight ends -----

  datatype Event =
    | Timer(now: int, log: seq<Sending>, capacity: int)
    | Ack(records: seq<RecordNumber>, authenticated: bool, now: int, log: seq<Sending>, capacity: int)
    | Idle(records: seq<RecordNumber>, authenticated: bool)

  /** A due timer that sends; an acknowledgement that makes progress and, unless it completes the flight, sends again; or one that
      acknowledges nothing new, and only makes the flight forget the numbers it names. */
  ghost predicate Step(f: FlightState, event: Event, g: FlightState)
    requires Valid(f)
  {
    match event
    case Timer(now, log, capacity) =>
      var due := Expire(f, now);
      due.Ok? && due.value.1 && Transmitted(due.value.0, g, log, now, capacity)
    case Ack(records, authenticated, now, log, capacity) =>
      var (h, progress) := Acknowledge(f, records, authenticated);
      progress && (if h.complete then g == h else Transmitted(h, g, log, now, capacity))
    case Idle(records, authenticated) =>
      var (h, progress) := Acknowledge(f, records, authenticated);
      !f.complete && !progress && g == h
  }

  /** What is owed, then what is new, then the retries left, as one number. */
  function Rank(f: FlightState, total: nat): int {
    (TotalUnacked(f.items) * (total + 1) + TotalUnsent(f.items)) * (MAX_RETRIES + 1) + MAX_RETRIES - f.retries
  }

  /** Less is owed; or as much is owed and less is new; or both are the same and one more retry is spent. */
  ghost predicate Ahead(f: FlightState, g: FlightState) {
    || TotalUnacked(g.items) < TotalUnacked(f.items)
    || (TotalUnacked(g.items) == TotalUnacked(f.items) && TotalUnsent(g.items) < TotalUnsent(f.items))
    || (TotalUnacked(g.items) == TotalUnacked(f.items) && TotalUnsent(g.items) == TotalUnsent(f.items)
        && g.retries > f.retries)
  }

  lemma StepAdvances(f: FlightState, event: Event, g: FlightState)
    requires Valid(f) && Step(f, event, g) && !event.Idle?
    ensures Valid(g) && Ahead(f, g) && (g.complete || TotalUnsent(g.items) <= TotalUnsent(f.items))
  {
    hide TotalUnacked, TotalUnsent, Transmitted, AckAll;
    match event
    case Timer(now, log, capacity) =>
      TransmittedKeeps(Expire(f, now).value.0, g, log, now, capacity);
    case Ack(records, authenticated, now, log, capacity) =>
      AckAllKeeps(f, records, authenticated);
      var h := Acknowledge(f, records, authenticated).0;
      if h.complete {
        NothingOwed(f, AckAll(f, records, authenticated).0, g);
      } else {
        TransmittedKeeps(h, g, log, now, capacity);
      }
  }

  lemma NothingOwed(f: FlightState, h: FlightState, g: FlightState)
    requires Valid(h) && TotalUnacked(h.items) < TotalUnacked(f.items) && g.items == []
    ensures TotalUnacked(g.items) < TotalUnacked(f.items)
  {
    TotalsExact(h.items);
  }

  lemma IdleKeeps(f: FlightState, event: Event, g: FlightState)
    requires Valid(f) && Step(f, event, g) && event.Idle?
    ensures Valid(g) && (g.complete || (TotalUnacked(g.items) == TotalUnacked(f.items) && TotalUnsent(g.items) == TotalUnsent(f.items)))
    ensures g.complete || (g.retries == f.retries && g.deadline == f.deadline)
  {
    hide TotalUnacked, TotalUnsent, AckAll;
    AckAllKeeps(f, event.records, event.authenticated);
  }

  lemma StepDecreases(f: FlightState, event: Event, g: FlightState, total: nat)
    requires Valid(f) && Step(f, event, g) && TotalUnsent(f.items) <= total
    ensures Valid(g) && (g.complete || TotalUnsent(g.items) <= total)
    ensures g.complete || (if event.Idle? then Rank(g, total) == Rank(f, total) else Rank(g, total) < Rank(f, total))
  {
    if event.Idle? {
      IdleKeeps(f, event, g);
      return;
    }
    StepAdvances(f, event, g);
    TotalsExact(f.items);
    TotalsExact(g.items);
    if g.complete { return; }
    hide TotalUnacked, TotalUnsent, Step;
    Lexicographic(TotalUnacked(f.items), TotalUnsent(f.items), f.retries, TotalUnacked(g.items), TotalUnsent(g.items), g.retries, total);
  }

  lemma Lexicographic(a: int, u: int, r: int, a': int, u': int, r': int, total: nat)
    requires 0 <= u <= total && 0 <= u' <= total && 0 <= r <= MAX_RETRIES && 0 <= r' <= MAX_RETRIES
    requires a' < a || (a' == a && u' < u) || (a' == a && u' == u && r' > r)
    ensures (a' * (total + 1) + u') * (MAX_RETRIES + 1) + MAX_RETRIES - r'
            < (a * (total + 1) + u) * (MAX_RETRIES + 1) + MAX_RETRIES - r
  {
    if a' < a {
      assert a' * (total + 1) <= (a - 1) * (total + 1);
      assert a' * (total + 1) + u' < a * (total + 1) + u;
    }
  }

  /** States of one flight, each the result of a timer or an acknowledgement on the one before. */
  ghost predicate IsRun(states: seq<FlightState>, events: seq<Event>) {
    && |states| == |events| + 1
    && (forall i :: 0 <= i < |states| ==> Valid(states[i]))
    && forall i :: 0 <= i < |events| ==> Step(states[i], events[i], states[i + 1])
  }

  /** Due timers and acknowledgements that made progress. */
  function Counted(events: seq<Event>): nat {
    if events == [] then 0 else Counted(events[..|events| - 1]) + if events[|events| - 1].Idle? then 0 else 1
  }

  /** Nothing leaves an unfinished flight without a timer. */
  lemma StepArms(f: FlightState, event: Event, g: FlightState)
    requires Valid(f) && Step(f, event, g) && f.deadline.Some?
    ensures g.complete || g.deadline.Some?
  {
    if event.Idle? { IdleKeeps(f, event, g); }
    hide Valid, AckAll, NoteAll;
  }

  /** However timers and acknowledgements interleave, a flight under way always has its timer set; that timer, once due, counts or
      ends the flight in a timeout; and at most Rank + 1 timers and progressing acknowledgements later it is complete. */
  lemma FlightEnds(states: seq<FlightState>, events: seq<Event>, now: int)
    requires IsRun(states, events) && states[0].deadline.Some?
    ensures Counted(events) <= Rank(states[0], Owed(states[0])) + 1
    ensures Counted(events) == Rank(states[0], Owed(states[0])) + 1 ==> states[|events|].complete
    ensures var f := states[|events|];
      !f.complete ==> f.deadline.Some? && (now >= f.deadline.value ==> Expire(f, now) == Err(HandshakeTimeout) || (Expire(f, now).Ok? && Expire(f, now).value.1))
  {
    RankBounds(states, events, |events|);
    assert events[..|events|] == events;
    hide TotalUnacked, TotalUnsent;
    if !states[|events|].complete { RankNonNegative(states[|events|], Owed(states[0])); }
  }

  function Owed(f: FlightState): nat {
    if TotalUnsent(f.items) < 0 then 0 else TotalUnsent(f.items)
  }

  lemma CountedNext(events: seq<Event>, k: nat)
    requires k < |events|
    ensures Counted(events[..k + 1]) == Counted(events[..k]) + if events[k].Idle? then 0 else 1
  {
    assert events[..k + 1][..k] == events[..k];
  }

  lemma {:induction false} RankBounds(states: seq<FlightState>, events: seq<Event>, k: nat)
    requires IsRun(states, events) && states[0].deadline.Some? && k <= |events|
    ensures Counted(events[..k]) <= Rank(states[0], Owed(states[0])) + 1
    ensures !states[k].complete ==>
      && states[k].deadline.Some? && TotalUnsent(states[k].items) <= Owed(states[0])
      && Rank(states[k], Owed(states[0])) <= Rank(states[0], Owed(states[0])) - Counted(events[..k])
  {
    hide TotalUnacked, TotalUnsent, Step, Valid, Rank;
    RankNonNegative(states[0], Owed(states[0]));
    if k > 0 {
      RankBounds(states, events, k - 1);
      CountedNext(events, k - 1);
      assert Step(states[k - 1], events[k - 1], states[k]);
      NotComplete(states[k - 1], events[k - 1], states[k]);
      StepArms(states[k - 1], events[k - 1], states[k]);
      StepDecreases(states[k - 1], events[k - 1], states[k], Owed(states[0]));
      RankNonNegative(states[k - 1], Owed(states[0]));
    }
  }

  /** A complete flight neither expires nor acknowledges anything. */
  lemma NotComplete(f: FlightState, event: Event, g: FlightState)
    requires Valid(f) && Step(f, event, g)
    ensures !f.complete
  {
  }

  lemma RankNonNegative(f: FlightState, total: nat)
    requires Valid(f)
    ensures 0 <= Rank(f, total)
  {
    TotalsExact(f.items);
    hide TotalUnacked, TotalUnsent;
    Product(TotalUnacked(f.items), total + 1);
  }

  lemma Product(a: nat, b: nat)
    ensures a * b >= 0
  {
  }
}
