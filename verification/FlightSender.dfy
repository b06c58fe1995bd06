/** The flight object: bitmaps and counters behind the sets of Flights, and the loops that send and acknowledge. */
module FlightSender {
  import opened Wire
  import opened Bitmap
  import opened Fragments
  import opened Flights
  import opened Outlets

  datatype Outbound = Outbound(
    message: Message, acknowledged: seq<bv8>, sent: seq<bv8>, remaining: int, sentCount: int,
    emptyAcknowledged: bool, emptySent: bool)
  {
    predicate Shaped() {
      |acknowledged| == |sent| == (|message.body| + 7) / 8
    }

    /** Bitmaps and counters stand for this item. */
    ghost predicate Represents(m: Item) {
      && Shaped() && message == m.message
      && Bits(acknowledged, |message.body|) == m.acked && remaining == |message.body| - |m.acked|
      && Bits(sent, |message.body|) == m.sent && sentCount == |m.sent|
      && emptyAcknowledged == m.emptyAcked && emptySent == m.emptySent
    }
  }

  /** Marks a part as sent in the bitmap and its counter. */
  method MarkPart(o: Outbound, start: nat, end: nat, ghost m: Item) returns (p: Outbound)
    requires o.Represents(m) && start <= end <= m.Length()
    ensures p.Represents(MarkSent(m, start, end))
  {
    hide Bits;
    if |o.message.body| == 0 { return o.(emptySent := true); }
    var bits, added := MarkRun(o.sent, start, end, |o.message.body|);
    p := o.(sent := bits, sentCount := o.sentCount + added);
  }

  /** Finds the next run of bytes to send from position from on, at most capacity long. */
  method NextRange(o: Outbound, from: nat, capacity: nat, onlyNew: bool, ghost m: Item) returns (start: nat, end: nat)
    requires o.Represents(m) && from <= m.Length()
    ensures from <= start <= end <= m.Length()
    ensures forall i :: from <= i < start ==> i in m.acked || (onlyNew && i in m.sent)
    ensures forall i :: start <= i < end ==> i !in m.acked && !(onlyNew && i in m.sent)
    ensures end - start <= capacity && (start < m.Length() && capacity > 0 ==> start < end)
  {
    hide Has, Bits;
    start := from;
    while start < |o.message.body| && (Has(o.acknowledged, start) || (onlyNew && Has(o.sent, start)))
      invariant from <= start <= m.Length()
      invariant forall i :: from <= i < start ==> i in m.acked || (onlyNew && i in m.sent)
    {
      HasBits(o.acknowledged, start, m.Length());
      HasBits(o.sent, start, m.Length());
      start := start + 1;
    }
    end := start;
    if start < m.Length() {
      HasBits(o.acknowledged, start, m.Length());
      HasBits(o.sent, start, m.Length());
    }
    while end < |o.message.body| && end - start < capacity && !Has(o.acknowledged, end) && (!onlyNew || !Has(o.sent, end))
      invariant start <= end <= m.Length() && end - start <= capacity
      invariant forall i :: start <= i < end ==> i !in m.acked && !(onlyNew && i in m.sent)
      invariant end == start && start < m.Length() ==> !Has(o.acknowledged, end) && (!onlyNew || !Has(o.sent, end))
    {
      HasBits(o.acknowledged, end, m.Length());
      HasBits(o.sent, end, m.Length());
      end := end + 1;
    }
  }


  /** Marks what one record carried as acknowledged and reports whether any of it was not before. */
  method AcknowledgeRun(o: Outbound, part: Part, ghost m: Item) returns (p: Outbound, progress: bool)
    requires o.Represents(m) && part.start <= part.end <= m.Length()
    ensures p.Represents(MarkAcked(m, part.start, part.end))
    ensures progress <==> MarkAcked(m, part.start, part.end) != m
  {
    hide Bits, Range;
    AckProgress(m, part);
    p := o;
    progress := false;
    if |p.message.body| == 0 && !p.emptyAcknowledged {
      p := p.(emptyAcknowledged := true);
      progress := true;
    }
    var bits, added := MarkRun(p.acknowledged, part.start, part.end, |p.message.body|);
    p := p.(acknowledged := bits, remaining := p.remaining - added);
    progress := progress || added > 0;
  }

  // ----- what a burst puts on the wire -----

  ghost function PacketOf(f: FlightState, s: Sending): Packet
    requires Within(f, s.part)
  {
    var m := f.items[s.part.message].message;
    Packet(s.number, if |m.body| <= MAX_BODY then Encode(m, s.part.start, s.part.end - s.part.start).value else [])
  }

  ghost function Packets(f: FlightState, log: seq<Sending>): (r: seq<Packet>)
    requires forall k :: 0 <= k < |log| ==> Within(f, log[k].part)
    decreases |log|
  {
    if log == [] then [] else Packets(f, log[..|log| - 1]) + [PacketOf(f, log[|log| - 1])]
  }

  /** Sending one more part extends the burst. */
  lemma Extend(f: FlightState, log: seq<Sending>, s: Sending, capacity: int, onlyNew: bool)
    requires AllEligible(f, log, capacity, onlyNew) && Eligible(NoteAll(f, log), s, capacity, onlyNew)
    ensures AllEligible(f, log + [s], capacity, onlyNew)
    ensures NoteAll(f, log + [s]) == Note(NoteAll(f, log), s)
    ensures Packets(f, log + [s]) == Packets(f, log) + [PacketOf(NoteAll(f, log), s)]
  {
    hide Encode, Range, Sendable;
    var longer := log + [s];
    assert longer[..|longer| - 1] == log;
    var g := NoteAll(f, log);
    assert Within(g, s.part) && g.items[s.part.message].message == f.items[s.part.message].message;
    assert forall k :: 0 <= k < |longer| ==> Within(f, longer[k].part);
  }

  /** More sent and a longer log never undo what a pass has served. */
  lemma ServedMore(m: Item, p: Item, log: seq<Sending>, longer: seq<Sending>, j: nat, upTo: nat, onlyNew: bool)
    requires Served(m, log, j, upTo, onlyNew) && log <= longer
    requires m.message == p.message && m.acked <= p.acked && m.sent <= p.sent
    requires (m.emptyAcked ==> p.emptyAcked) && (m.emptySent ==> p.emptySent)
    ensures Served(p, longer, j, upTo, onlyNew)
  {
    forall i: nat | Touched(log, j, i) ensures Touched(longer, j, i) {
      var k :| 0 <= k < |log| && log[k].part.message == j
               && (log[k].part.start <= i < log[k].part.end || log[k].part.start == log[k].part.end == i);
      assert longer[k] == log[k];
    }
  }

  function TotalLength(batch: seq<Message>): nat {
    if batch == [] then 0 else TotalLength(batch[..|batch| - 1]) + |batch[|batch| - 1].body|
  }

  lemma {:induction false} TotalGrows(batch: seq<Message>, i: nat)
    requires i <= |batch|
    ensures TotalLength(batch[..i]) <= TotalLength(batch)
    decreases |batch| - i
  {
    if i == |batch| { assert batch[..i] == batch; }
    else {
      assert batch[..i + 1][..i] == batch[..i];
      TotalGrows(batch, i + 1);
    }
  }

  /** Refuses an empty batch, too many messages, and too much body. */
  method NewFlight(batch: seq<Message>, wait: int) returns (r: Result<Flight>)
    ensures r.Ok? <==>
      && 0 < |batch| <= MAX_PENDING && TotalLength(batch) <= 2 * MAX_BODY
      && forall j :: 0 <= j < |batch| ==> |batch[j].body| <= MAX_BODY
    ensures r.Ok? ==> fresh(r.value) && r.value.Valid() && r.value.State() == Begin(batch, wait)
    ensures r.Err? ==> r.error == HandshakeLimit
  {
    if |batch| == 0 || |batch| > MAX_PENDING { return Err(HandshakeLimit); }
    var total, i := 0, 0;
    while i < |batch|
      invariant 0 <= i <= |batch| && total == TotalLength(batch[..i]) <= 2 * MAX_BODY
      invariant forall j :: 0 <= j < i ==> |batch[j].body| <= MAX_BODY
    {
      assert batch[..i + 1][..i] == batch[..i];
      TotalGrows(batch, i + 1);
      total := total + |batch[i].body|;
      if |batch[i].body| > MAX_BODY || total > 2 * MAX_BODY { return Err(HandshakeLimit); }
      i := i + 1;
    }
    assert batch[..i] == batch;
    var flight := new Flight(batch, wait);
    return Ok(flight);
  }

  class Flight {
    var messages: seq<Outbound>
    var sent: map<RecordNumber, Part>
    var interval: int
    var deadline: Option<int>
    var retries: int
    var complete: bool
    var sentOnce: bool
    var ackedSinceSend: bool
    ghost var items: seq<Item>

    constructor (batch: seq<Message>, wait: int)
      requires forall j :: 0 <= j < |batch| ==> |batch[j].body| <= MAX_BODY
      ensures Valid() && State() == Begin(batch, wait)
    {
      messages := seq(|batch|, i requires 0 <= i < |batch| =>
        Outbound(batch[i], Empty(|batch[i].body|), Empty(|batch[i].body|), |batch[i].body|, 0, false, false));
      items := seq(|batch|, i requires 0 <= i < |batch| => Prepare(batch[i]));
      sent, interval, deadline, retries := map[], Clamp(wait), None, 0;
      complete, sentOnce, ackedSinceSend := false, false, false;
      new;
      forall j | 0 <= j < |batch| ensures messages[j].Represents(items[j]) {
        EmptyBits(|batch[j].body|, |batch[j].body|);
      }
      BeginValid(batch, wait);
    }

    ghost function State(): FlightState
      reads this
    {
      FlightState(items, sent, interval, deadline, retries, complete, sentOnce, ackedSinceSend)
    }

    ghost predicate Tied()
      reads this
    {
      |messages| == |items| && forall j :: 0 <= j < |messages| ==> messages[j].Represents(items[j])
    }

    ghost predicate Valid()
      reads this
    {
      Tied() && Flights.Valid(State())
    }

    /** The outlet has moved past every number this flight used. */
    ghost predicate Below(link: Outlet)
      reads this, link
    {
      forall n :: n in sent && n.epoch in link.epochs ==> n.sequence < link.epochs[n.epoch].sequence
    }

    method HasUnsent() returns (pending: bool)
      requires Valid()
      ensures pending == PendingSend(State())
    {
      hide Bits, Flights.Valid;
      var i := 0;
      while i < |messages|
        invariant 0 <= i <= |messages|
        invariant forall j :: 0 <= j < i ==> items[j].Unsent() == 0
      {
        var m := messages[i];
        assert m.Represents(items[i]);
        if |m.message.body| == 0 {
          if !m.emptyAcknowledged && !m.emptySent { return true; }
        } else if m.sentCount < |m.message.body| {
          return true;
        }
        UnsentExact(i);
        i := i + 1;
      }
      return false;
    }

    lemma UnsentExact(i: nat)
      requires Valid() && i < |messages|
      ensures |items[i].sent| <= |items[i].message.body|
    {
      hide Bits;
      FullOrSmaller(items[i].sent, |items[i].message.body|);
    }

    /** Records a part under the number it went out with. */
    method Record(number: RecordNumber, part: Part, ghost capacity: int, ghost onlyNew: bool)
      requires Valid() && Eligible(State(), Sending(number, part), capacity, onlyNew)
      modifies `messages, `sent, `items
      ensures Valid() && State() == Note(old(State()), Sending(number, part))
    {
      hide Bits, Flights.Valid, MarkSent, Outbound.Represents;
      NoteKeeps(State(), Sending(number, part), capacity, onlyNew);
      assert messages[part.message].Represents(items[part.message]);
      var m := MarkPart(messages[part.message], part.start, part.end, items[part.message]);
      sent := sent[number := part];
      messages := messages[part.message := m];
      items := items[part.message := MarkSent(items[part.message], part.start, part.end)];
    }

    /** Sends one part; its number is new to the flight because the outlet never repeats one. */
    method SendPart(part: Part, link: Outlet, ghost capacity: int, ghost onlyNew: bool)
      returns (err: Option<Error>, ghost s: Sending)
      requires Valid() && link.Valid() && Below(link)
      requires Within(State(), part) && Sendable(items[part.message], part, capacity, onlyNew)
      modifies `messages, `sent, `items, link`epochs, link`handed, link`wire
      ensures Valid() && link.Valid() && Below(link)
      ensures err.None? ==>
        && s.part == part && Eligible(old(State()), s, capacity, onlyNew) && State() == Note(old(State()), s)
        && link.wire == old(link.wire) + [PacketOf(old(State()), s)]
      ensures err.Some? ==> State() == old(State()) && link.wire == old(link.wire)
    {
      hide Bits, Encode, Range, Issued, Note, Sendable;
      if |sent| >= MAX_FLIGHT_RECORDS { return Some(HandshakeLimit), Sending(RecordNumber(0, 0), part); }
      assert messages[part.message].Represents(items[part.message]);
      var m := messages[part.message].message;
      assert |m.body| <= MAX_BODY by { assert items[part.message].Valid(); }
      EncodeOk(m, part);
      var r := link.Send(m.epoch, Encode(m, part.start, part.end - part.start).value);
      if r.Err? { return Some(r.error), Sending(RecordNumber(0, 0), part); }
      s := Sending(r.value, part);
      assert r.value !in sent;
      Record(r.value, part, capacity, onlyNew);
      NoteSent(old(State()), s);
      err := None;
    }

    /** Part way through a pass that began at base with wire0 on the wire, after sending log. */
    ghost predicate InPass(link: Outlet, base: FlightState, wire0: seq<Packet>, log: seq<Sending>, capacity: int, onlyNew: bool)
      reads this, link
    {
      && Valid() && link.Valid() && Below(link)
      && AllEligible(base, log, capacity, onlyNew) && State() == NoteAll(base, log)
      && link.wire == wire0 + Packets(base, log)
    }

    method SendNext(part: Part, link: Outlet, ghost base: FlightState, ghost wire0: seq<Packet>, ghost log0: seq<Sending>,
                    ghost capacity: int, ghost onlyNew: bool)
      returns (err: Option<Error>, ghost log: seq<Sending>)
      requires InPass(link, base, wire0, log0, capacity, onlyNew)
      requires Within(State(), part) && Sendable(items[part.message], part, capacity, onlyNew)
      modifies `messages, `sent, `items, link`epochs, link`handed, link`wire
      ensures InPass(link, base, wire0, log, capacity, onlyNew)
      ensures err.Some? ==> log == log0 && State() == old(State())
      ensures err.None? ==> |log| == |log0| + 1 && log[..|log0|] == log0 && log[|log0|].part == part
      ensures err.None? ==> State() == Note(old(State()), log[|log0|])
    {
      hide Bits, Encode, Range, Issued, Note, Sendable, Flights.Valid, Packets, AllEligible, NoteAll;
      ghost var s;
      err, s := SendPart(part, link, capacity, onlyNew);
      if err.Some? {
        log := log0;
      } else {
        log := log0 + [s];
        Extend(base, log0, s, capacity, onlyNew);
      }
    }

    /** Finds the next run of bytes to send, from a position on, and sends it; without one the message needs nothing more. */
    method SendRun(index: nat, start: nat, capacity: nat, link: Outlet, onlyNew: bool, ghost base: FlightState,
                   ghost wire0: seq<Packet>, ghost log0: seq<Sending>)
      returns (more: bool, next: nat, err: Option<Error>, ghost log: seq<Sending>)
      requires InPass(link, base, wire0, log0, capacity, onlyNew) && index < |messages| && capacity > 0
      requires start <= items[index].Length() && (if items[index].Length() == 0 then !items[index].emptyAcked else Served(items[index], log0, index, start, onlyNew))
      modifies `messages, `sent, `items, link`epochs, link`handed, link`wire
      ensures InPass(link, base, wire0, log, capacity, onlyNew) && GrowsItems(old(items), items)
      ensures log0 <= log && |log| == |log0| + if more && err.None? then 1 else 0
      ensures err.None? && !more ==> Served(items[index], log, index, items[index].Length(), onlyNew)
      ensures err.None? && more ==>
        && next <= items[index].Length() && (items[index].Length() > 0 ==> start < next) && Served(items[index], log, index, next, onlyNew)
      ensures |messages| == |items| == old(|items|) && messages[index].Represents(items[index]) && items[index].Length() == old(items[index].Length())
    {
      hide Bits, Encode, Issued, Flights.Valid, Packets, AllEligible, NoteAll, Range;
      log, more, next, err := log0, false, start, None;
      assert messages[index].Represents(items[index]);
      var from, to := NextRange(messages[index], start, capacity, onlyNew, items[index]);
      if from == |messages[index].message.body| && |messages[index].message.body| != 0 {
        assert Served(items[index], log, index, items[index].Length(), onlyNew);
        return;
      }
      if |messages[index].message.body| == 0 && onlyNew && messages[index].emptySent { return; }
      RunSendable(items[index], index, from, to, capacity, onlyNew);
      ghost var before := items;
      more, next := true, to;
      err, log := SendNext(Part(index, from, to), link, base, wire0, log, capacity, onlyNew);
      if err.Some? { return; }
      NoteGrows(before, items, log[|log0|]);
      RunServed(before[index], items[index], log0, log, index, start, from, to, onlyNew);
    }

    /** One message's share of a pass: run after run until it is served, the burst is full or a send fails. */
    method SendMessage(index: nat, capacity: nat, link: Outlet, onlyNew: bool, ghost base: FlightState,
                       ghost wire0: seq<Packet>, ghost log0: seq<Sending>, sofar: nat)
      returns (count: nat, err: Option<Error>, ghost log: seq<Sending>)
      requires InPass(link, base, wire0, log0, capacity, onlyNew) && index < |messages| && capacity > 0
      requires |log0| == sofar < BURST
      modifies `messages, `sent, `items, link`epochs, link`handed, link`wire
      ensures InPass(link, base, wire0, log, capacity, onlyNew)
      ensures log0 <= log && |log| == count <= BURST
      ensures GrowsItems(old(items), items)
      ensures err.None? && count < BURST ==> Served(items[index], log, index, items[index].Length(), onlyNew)
    {
      ServedNothing(items[index], log0, index, onlyNew);
      assert messages[index].Represents(items[index]) && |messages| == |items|;
      GrowsNot(items);
      hide Flight.InPass, Served, GrowsItem, GrowsItems, Outbound.Represents;
      SameBody(messages[index], items[index]);
      log, count, err := log0, sofar, None;
      var start := 0;
      while start < |messages[index].message.body| || (|messages[index].message.body| == 0 && !messages[index].emptyAcknowledged)
        invariant InPass(link, base, wire0, log, capacity, onlyNew) && log0 <= log && |log| == count < BURST
        invariant GrowsItems(old(items), items) && |messages| == |items| == old(|items|)
        invariant start <= items[index].Length() == |messages[index].message.body| && err == None
        invariant messages[index].emptyAcknowledged == items[index].emptyAcked
        invariant if items[index].Length() == 0 then items[index].emptyAcked ==> Served(items[index], log, index, 0, onlyNew)
                  else Served(items[index], log, index, start, onlyNew)
        decreases items[index].Length() - start
      {
        var more;
        ghost var before := items;
        more, start, err, log := SendRun(index, start, capacity, link, onlyNew, base, wire0, log);
        GrowsOn(old(items), before, items);
        SameBody(messages[index], items[index]);
        if err.Some? || !more { return; }
        count := count + 1;
        if count == BURST || |messages[index].message.body| == 0 { return; }
      }
    }

    /** A pass over the whole flight: at most ten records, and fewer only when nothing was left out or a send failed. */
    method SendRanges(capacity: nat, link: Outlet, onlyNew: bool) returns (count: nat, err: Option<Error>, ghost log: seq<Sending>)
      requires Valid() && link.Valid() && Below(link) && capacity > 0
      modifies `messages, `sent, `items, link`epochs, link`handed, link`wire
      ensures InPass(link, old(State()), old(link.wire), log, capacity, onlyNew)
      ensures |log| == count <= BURST
      ensures err.None? && count < BURST ==> Exhausted(State(), log, |items|, onlyNew)
    {
      hide Bits, Encode, Issued, Flights.Valid, Range, Served;
      log, count, err := [], 0, None;
      var index := 0;
      while index < |messages|
        invariant InPass(link, old(State()), old(link.wire), log, capacity, onlyNew)
        invariant index <= |messages| == |items| && |log| == count < BURST && err == None
        invariant Exhausted(State(), log, index, onlyNew)
      {
        ghost var before, shorter := items, log;
        count, err, log := SendMessage(index, capacity, link, onlyNew, old(State()), old(link.wire), log, count);
        if err.Some? || count == BURST { return; }
        StillServed(before, items, shorter, log, index, onlyNew);
        index := index + 1;
      }
    }

    /** New bytes if there are any, and otherwise everything unacknowledged again. */
    method SendBurst(capacity: nat, link: Outlet) returns (err: Option<Error>, ghost log: seq<Sending>)
      requires Valid() && link.Valid() && Below(link) && capacity > 0
      modifies `messages, `sent, `items, link`epochs, link`handed, link`wire
      ensures InPass(link, old(State()), old(link.wire), log, capacity, PendingSend(old(State()))) && |log| <= BURST
      ensures err.None? && PendingSend(old(State())) ==> log != []
      ensures err.None? && |log| < BURST ==> Exhausted(State(), log, |items|, PendingSend(old(State())))
    {
      hide Bits, Encode, Issued, Range, Served, Note, Flights.Valid, PendingSend, Packets, Exhausted;
      ghost var f := State();
      var count;
      count, err, log := SendRanges(capacity, link, true);
      NewPass(f, log, capacity, err.None?);
      if err.None? && count == 0 {
        assert State() == f;
        assert link.wire == old(link.wire);
        count, err, log := SendRanges(capacity, link, false);
      }
    }

    /** Sends at most ten records, new bytes before unacknowledged ones, and restarts the timer. */
    method Transmit(now: int, capacity: int, link: Outlet) returns (err: Option<Error>, ghost log: seq<Sending>)
      requires Valid() && link.Valid() && Below(link)
      modifies this, link`epochs, link`handed, link`wire
      ensures Valid() && link.Valid() && Below(link)
      ensures old(complete) ==> err == None && State() == old(State()) && link.wire == old(link.wire)
      ensures !old(complete) && !(1 <= capacity <= MAX_CONTENT - HANDSHAKE_HEADER) ==>
        err == Some(RecordOverflow) && State() == old(State()) && link.wire == old(link.wire)
      ensures !old(complete) && err.None? ==> Transmitted(old(State()), State(), log, now, capacity)
      ensures AllEligible(old(State()), log, capacity, PendingSend(old(State()))) && |log| <= BURST
      ensures link.wire == old(link.wire) + Packets(old(State()), log)
      ensures err.Some? ==> State() == NoteAll(old(State()), log)
    {
      hide Bits, Encode, Issued, Range, Served, PendingSend, Exhausted;
      if complete { return None, []; }
      if capacity < 1 || capacity > MAX_CONTENT - HANDSHAKE_HEADER { return Some(RecordOverflow), []; }
      err, log := SendBurst(capacity, link);
      if err.None? { Rearm(now, capacity, old(State()), log); }
    }

    method Rearm(now: int, ghost capacity: int, ghost f: FlightState, ghost log: seq<Sending>)
      requires Valid() && !f.complete && 1 <= capacity <= MAX_CONTENT - HANDSHAKE_HEADER
      requires AllEligible(f, log, capacity, PendingSend(f)) && State() == NoteAll(f, log) && |log| <= BURST
      requires (PendingSend(f) ==> log != []) && (|log| < BURST ==> Exhausted(State(), log, |items|, PendingSend(f)))
      modifies `sentOnce, `deadline
      ensures Valid() && Transmitted(f, State(), log, now, capacity)
    {
      hide Bits, Range, Served, PendingSend, Exhausted, NoteAll, AllEligible;
      NoteAllSame(f, log, capacity, PendingSend(f));
      var unsent := HasUnsent();
      if !unsent { sentOnce := true; }
      deadline := Some(now + interval);
    }

    /** Acknowledges one record, once: later duplicates of its number find nothing. */
    method AcknowledgeRecord(number: RecordNumber, authenticated: bool) returns (progress: bool)
      requires Valid()
      modifies `messages, `sent, `items
      ensures Valid() && (State(), progress) == AckOne(old(State()), number, authenticated)
    {
      hide Bits, Flights.Valid, Range, Outbound.Represents, MarkAcked;
      AckOneKeeps(State(), number, authenticated);
      if number !in sent || (!authenticated && number.epoch != 0) { return false; }
      var part := sent[number];
      SentWithin(State(), number);
      assert messages[part.message].Represents(items[part.message]);
      var m;
      m, progress := AcknowledgeRun(messages[part.message], part, items[part.message]);
      messages := messages[part.message := m];
      items := items[part.message := MarkAcked(items[part.message], part.start, part.end)];
      sent := sent - {number};
    }

    method Acknowledge(records: seq<RecordNumber>, authenticated: bool) returns (progress: bool)
      requires Valid()
      modifies this
      ensures Valid() && (State(), progress) == Flights.Acknowledge(old(State()), records, authenticated)
    {
      hide Bits, Flights.Valid, Range, AckOne, AllAcknowledged;
      if complete { return false; }
      progress := false;
      var k := 0;
      while k < |records|
        invariant 0 <= k <= |records| && Valid()
        invariant AckAll(old(State()), records, authenticated) ==
          (AckAll(State(), records[k..], authenticated).0, progress || AckAll(State(), records[k..], authenticated).1)
      {
        AckSplit(State(), records, k, authenticated);
        var more := AcknowledgeRecord(records[k], authenticated);
        progress := progress || more;
        k := k + 1;
      }
      AckAllKeeps(old(State()), records, authenticated);
      Settle(progress);
    }

    /** Books progress and, when nothing is left unacknowledged, ends the flight. */
    method Settle(progress: bool)
      requires Valid() && !complete
      modifies this
      ensures Valid()
      ensures var h := if progress then old(State()).(retries := 0, ackedSinceSend := true) else old(State());
        State() == if AllAcknowledged(h) then Finish(h) else h
    {
      hide Bits, Range;
      if progress { retries, ackedSinceSend := 0, true; }
      var i := 0;
      while i < |messages|
        invariant 0 <= i <= |messages|
        invariant forall j :: 0 <= j < i ==> items[j].Unacked() == 0
      {
        assert messages[i].Represents(items[i]);
        if messages[i].remaining != 0 || (|messages[i].message.body| == 0 && !messages[i].emptyAcknowledged) {
          if |messages[i].message.body| == 0 { NothingToAck(items[i]); }
          assert items[i].Unacked() != 0;
          return;
        }
        i := i + 1;
      }
      messages, items, sent := [], [], map[];
      complete, deadline := true, None;
    }

    method Expire(now: int) returns (due: bool, err: Option<Error>)
      requires Valid()
      modifies `retries, `interval, `deadline
      ensures Valid()
      ensures match Flights.Expire(old(State()), now)
        case Ok((f, d)) => err == None && due == d && State() == f
        case Err(e) => err == Some(e) && !due && State() == old(State())
    {
      hide Bits, Range;
      if complete || deadline == None || now < deadline.value { return false, None; }
      var unsent := HasUnsent();
      if !unsent {
        if retries == MAX_RETRIES { return false, Some(HandshakeTimeout); }
        retries := retries + 1;
        interval := if 2 * interval < MAXIMUM_RETRANSMIT then 2 * interval else MAXIMUM_RETRANSMIT;
      }
      deadline := Some(now + interval);
      return true, None;
    }
  }

  lemma NothingToAck(m: Item)
    requires m.Valid() && m.Length() == 0
    ensures m.acked == {}
  {
  }

  lemma SentWithin(f: FlightState, n: RecordNumber)
    requires Flights.Valid(f) && n in f.sent
    ensures Within(f, f.sent[n]) && f.items[f.sent[n].message].Length() <= MAX_BODY
  {
    assert WentOut(f, n, f.sent[n]);
  }

  lemma AckProgress(m: Item, part: Part)
    requires part.start <= part.end <= m.Length()
    ensures MarkAcked(m, part.start, part.end) != m <==>
      !(Range(part.start, part.end) <= m.acked) || (m.Length() == 0 && !m.emptyAcked)
  {
    if Range(part.start, part.end) <= m.acked { assert m.acked + Range(part.start, part.end) == m.acked; }
  }

  lemma AckSplit(f: FlightState, records: seq<RecordNumber>, k: nat, authenticated: bool)
    requires Flights.Valid(f) && k < |records|
    ensures var (g, first) := AckOne(f, records[k], authenticated);
      Flights.Valid(g) &&
      AckAll(f, records[k..], authenticated) ==
      (AckAll(g, records[k + 1..], authenticated).0, first || AckAll(g, records[k + 1..], authenticated).1)
  {
    AckOneKeeps(f, records[k], authenticated);
    assert records[k..][1..] == records[k + 1..];
  }

  lemma {:induction false} NoteAllSame(f: FlightState, log: seq<Sending>, capacity: int, onlyNew: bool)
    requires AllEligible(f, log, capacity, onlyNew)
    ensures NoteAll(f, log).(items := f.items, sent := f.sent) == f && |NoteAll(f, log).items| == |f.items|
    decreases |log|
  {
    hide Sendable, MarkSent;
    if log != [] { NoteAllSame(f, log[..|log| - 1], capacity, onlyNew); }
  }

  lemma StillServed(before: seq<Item>, after: seq<Item>, log: seq<Sending>, longer: seq<Sending>, index: nat, onlyNew: bool)
    requires GrowsItems(before, after) && log <= longer && index < |before|
    requires forall j :: 0 <= j < index ==> Served(before[j], log, j, before[j].Length(), onlyNew)
    requires Served(after[index], longer, index, after[index].Length(), onlyNew)
    ensures forall j :: 0 <= j < index + 1 ==> Served(after[j], longer, j, after[j].Length(), onlyNew)
  {
    forall j | 0 <= j < index ensures Served(after[j], longer, j, after[j].Length(), onlyNew) {
      ServedMore(before[j], after[j], log, longer, j, before[j].Length(), onlyNew);
    }
  }

  /** A pass for new bytes sends nothing exactly when there is nothing new. */
  lemma NewPass(f: FlightState, log: seq<Sending>, capacity: int, ok: bool)
    requires Flights.Valid(f) && AllEligible(f, log, capacity, true)
    requires ok && |log| < BURST ==> Exhausted(NoteAll(f, log), log, |f.items|, true)
    ensures log != [] ==> PendingSend(f)
    ensures ok && log == [] ==> !PendingSend(f) && NoteAll(f, log) == f && Packets(f, log) == []
  {
    NoteAllKeeps(f, log, capacity, true);
    TotalsExact(f.items);
    TotalsExact(NoteAll(f, log).items);
    if ok && log == [] {
      forall j | 0 <= j < |f.items| ensures f.items[j].Unsent() == 0 {
        var m := f.items[j];
        assert Served(m, log, j, m.Length(), true);
        assert Range(0, m.Length()) <= m.acked + m.sent;
        assert m.sent == Range(0, m.Length());
        FullOrSmaller(m.sent, m.Length());
      }
    }
  }

  ghost predicate GrowsItem(a: Item, b: Item) {
    && a.message == b.message && a.acked == b.acked && a.emptyAcked == b.emptyAcked
    && a.sent <= b.sent && (a.emptySent ==> b.emptySent)
  }

  ghost predicate GrowsItems(a: seq<Item>, b: seq<Item>) {
    |a| == |b| && forall j :: 0 <= j < |a| ==> GrowsItem(a[j], b[j])
  }

  lemma NoteGrows(a: seq<Item>, b: seq<Item>, s: Sending)
    requires s.part.message < |a| && b == a[s.part.message := MarkSent(a[s.part.message], s.part.start, s.part.end)]
    ensures GrowsItems(a, b)
  {
  }

  /** The run NextRange found may be sent. */
  lemma RunSendable(m: Item, index: nat, from: nat, to: nat, capacity: int, onlyNew: bool)
    requires from <= to <= m.Length() && to - from <= capacity
    requires forall i :: from <= i < to ==> i !in m.acked && !(onlyNew && i in m.sent)
    requires if m.Length() == 0 then !m.emptyAcked && !(onlyNew && m.emptySent) else from < to
    ensures Sendable(m, Part(index, from, to), capacity, onlyNew)
  {
  }

  lemma RunServed(m: Item, p: Item, log: seq<Sending>, longer: seq<Sending>, index: nat, start: nat, from: nat, to: nat, onlyNew: bool)
    requires |longer| == |log| + 1 && longer[..|log|] == log && longer[|log|].part == Part(index, from, to)
    requires p == MarkSent(m, from, to) && start <= from <= to <= m.Length()
    requires m.Length() > 0 ==> Served(m, log, index, start, onlyNew)
    requires forall i :: start <= i < from ==> i in m.acked || (onlyNew && i in m.sent)
    ensures m.Length() > 0 ==> Served(p, longer, index, to, onlyNew)
    ensures m.Length() == 0 ==> Served(p, longer, index, 0, onlyNew)
  {
    if m.Length() > 0 {
      ServedMore(m, p, log, longer, index, start, onlyNew);
      forall i: nat | from <= i < to ensures Touched(longer, index, i) { assert longer[|log|].part.message == index; }
    } else {
      assert longer[|log|].part.message == index;
    }
  }

  lemma SameBody(o: Outbound, m: Item)
    requires o.Represents(m)
    ensures |o.message.body| == m.Length() && o.emptyAcknowledged == m.emptyAcked
  {
  }

  lemma GrowsNot(a: seq<Item>)
    ensures GrowsItems(a, a)
  {
  }

  lemma GrowsOn(a: seq<Item>, b: seq<Item>, c: seq<Item>)
    requires GrowsItems(a, b) && GrowsItems(b, c)
    ensures GrowsItems(a, c)
  {
  }

  lemma ServedNothing(m: Item, log: seq<Sending>, index: nat, onlyNew: bool)
    ensures m.Length() > 0 || m.emptyAcked ==> Served(m, log, index, 0, onlyNew)
  {
  }

  lemma NoteSent(f: FlightState, s: Sending)
    requires Within(f, s.part)
    ensures Note(f, s).sent == f.sent[s.number := s.part]
  {
  }

  lemma EncodeOk(m: Message, part: Part)
    requires |m.body| <= MAX_BODY && part.start <= part.end <= |m.body|
    ensures Encode(m, part.start, part.end - part.start).Ok?
  {
  }
}
