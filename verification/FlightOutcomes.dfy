/** What acknowledgements and silence do to a flight: exactly which bytes are settled, when the flight is over, and when it gives up. */
module FlightOutcomes {
  import opened Wire
  import opened Bitmap
  import opened Flights
  import Fragments

  // ----- acknowledgements -----

  /** One of these records counts and carried position i of message j; an empty message has position 0. */
  ghost predicate Carried(f: FlightState, records: seq<RecordNumber>, authenticated: bool, j: nat, i: nat) {
    exists n :: n in records && n in f.sent && (authenticated || n.epoch == 0) && f.sent[n].message == j
                && (f.sent[n].start <= i < f.sent[n].end || (0 <= j < |f.items| && f.items[j].message.body == []))
  }

  ghost predicate Settled(m: Item, i: nat) {
    if m.message.body == [] then m.emptyAcked else i in m.acked
  }

  lemma OneSettles(f: FlightState, n: RecordNumber, authenticated: bool, j: nat, i: nat)
    requires Valid(f) && j < |f.items|
    ensures var g := AckOne(f, n, authenticated).0;
      && g.items[j].message == f.items[j].message && g.items[j].sent == f.items[j].sent && g.items[j].emptySent == f.items[j].emptySent
      && (Settled(g.items[j], i) <==> Settled(f.items[j], i) || Carried(f, [n], authenticated, j, i))
      && g.sent == f.sent - (if Counts(f, n, authenticated) then {n} else {})
  {
    assert n in [n];
    if Counts(f, n, authenticated) { assert WentOut(f, n, f.sent[n]); }
  }

  lemma CarriedSplits(f: FlightState, g: FlightState, records: seq<RecordNumber>, authenticated: bool, j: nat, i: nat)
    requires records != [] && |g.items| == |f.items| && j < |f.items| && g.items[j].message == f.items[j].message
    requires g.sent == f.sent - (if Counts(f, records[0], authenticated) then {records[0]} else {})
    ensures Carried(f, records, authenticated, j, i) <==>
      Carried(f, [records[0]], authenticated, j, i) || Carried(g, records[1..], authenticated, j, i)
  {
    assert records == [records[0]] + records[1..];
  }

  lemma {:induction false} AllSettle(f: FlightState, records: seq<RecordNumber>, authenticated: bool, j: nat, i: nat)
    requires Valid(f) && j < |f.items|
    ensures var g := AckAll(f, records, authenticated).0;
      && |g.items| == |f.items| && g.items[j].message == f.items[j].message && g.items[j].sent == f.items[j].sent
      && (Settled(g.items[j], i) <==> Settled(f.items[j], i) || Carried(f, records, authenticated, j, i))
    decreases |records|
  {
    if records == [] {
      assert !Carried(f, records, authenticated, j, i);
      return;
    }
    hide Valid, AckOne, Settled, Carried;
    AckOneKeeps(f, records[0], authenticated);
    var g := AckOne(f, records[0], authenticated).0;
    OneSettles(f, records[0], authenticated, j, i);
    CarriedSplits(f, g, records, authenticated, j, i);
    AllSettle(g, records[1..], authenticated, j, i);
  }

  /** Nothing of the message is open: the one empty message, or each byte, is settled. */
  ghost predicate AllSettled(m: Item) {
    if m.message.body == [] then m.emptyAcked else forall i: nat :: i < |m.message.body| ==> i in m.acked
  }

  lemma SettledIsNothingOwed(m: Item)
    requires m.Valid()
    ensures m.Unacked() == 0 <==> AllSettled(m)
  {
    FullOrSmaller(m.acked, m.Length());
    if AllSettled(m) && m.Length() > 0 { assert m.acked == Range(0, m.Length()); }
  }

  /** Message j of the flight would have nothing open once these records are acknowledged. */
  ghost predicate Answered(f: FlightState, records: seq<RecordNumber>, authenticated: bool, j: nat)
    requires j < |f.items|
  {
    var n := |f.items[j].message.body|;
    forall i: nat :: i < (if n == 0 then 1 else n) ==> Settled(f.items[j], i) || Carried(f, records, authenticated, j, i)
  }

  lemma AnsweredSettles(f: FlightState, records: seq<RecordNumber>, authenticated: bool, j: nat)
    requires Valid(f) && j < |f.items|
    ensures |AckAll(f, records, authenticated).0.items| == |f.items|
    ensures AllSettled(AckAll(f, records, authenticated).0.items[j]) <==> Answered(f, records, authenticated, j)
  {
    var g := AckAll(f, records, authenticated).0;
    var n := |f.items[j].message.body|;
    AllSettle(f, records, authenticated, j, 0);
    hide Valid, AckAll, Carried;
    forall i: nat | i < (if n == 0 then 1 else n)
      ensures Settled(g.items[j], i) <==> Settled(f.items[j], i) || Carried(f, records, authenticated, j, i)
    {
      AllSettle(f, records, authenticated, j, i);
    }
    if AllSettled(g.items[j]) {
      forall i: nat | i < (if n == 0 then 1 else n) ensures Settled(f.items[j], i) || Carried(f, records, authenticated, j, i) {
        assert Settled(g.items[j], i);
      }
    }
    if Answered(f, records, authenticated, j) {
      assert n == 0 ==> Settled(g.items[j], 0);
      forall i: nat | i < n ensures i in g.items[j].acked { assert Settled(g.items[j], i); }
    }
  }

  lemma {:induction false} SameLength(f: FlightState, records: seq<RecordNumber>, authenticated: bool)
    requires Valid(f)
    ensures |AckAll(f, records, authenticated).0.items| == |f.items|
    decreases |records|
  {
    if records != [] {
      AckOneKeeps(f, records[0], authenticated);
      SameLength(AckOne(f, records[0], authenticated).0, records[1..], authenticated);
    }
  }

  /** An acknowledgement completes a flight exactly when the records it names, with those acknowledged before, carried every byte of
      every message; it does so whichever transmission of a byte they carried. */
  lemma CompletesExactly(f: FlightState, records: seq<RecordNumber>, authenticated: bool)
    requires Valid(f) && !f.complete
    ensures Acknowledge(f, records, authenticated).0.complete <==>
      forall j: nat :: j < |f.items| ==> Answered(f, records, authenticated, j)
  {
    var g := AckAll(f, records, authenticated).0;
    AckAllKeeps(f, records, authenticated);
    assert Valid(g);
    hide AckAll, Answered;
    SameLength(f, records, authenticated);
    forall j: nat | j < |f.items| ensures g.items[j].Unacked() == 0 <==> Answered(f, records, authenticated, j) {
      AnsweredSettles(f, records, authenticated, j);
      SettledIsNothingOwed(g.items[j]);
    }
  }

  /** Acknowledging these records would settle position i of message j, open until now. */
  ghost predicate News(f: FlightState, records: seq<RecordNumber>, authenticated: bool, j: nat, i: nat) {
    j < |f.items| && i <= f.items[j].Length() && !Settled(f.items[j], i) && Carried(f, records, authenticated, j, i)
  }

  lemma OneProgress(f: FlightState, n: RecordNumber, authenticated: bool)
    requires Valid(f)
    ensures AckOne(f, n, authenticated).1 <==> exists j: nat, i: nat :: News(f, [n], authenticated, j, i)
  {
    assert n in [n];
    if Counts(f, n, authenticated) {
      var part := f.sent[n];
      assert WentOut(f, n, part);
      var m := f.items[part.message];
      var p := MarkAcked(m, part.start, part.end);
      if p != m {
        if m.Length() == 0 {
          assert part.start == part.end == 0 && m.acked + Range(0, 0) == m.acked;
          assert News(f, [n], authenticated, part.message, 0);
        } else {
          assert p.acked != m.acked;
          var i :| i in p.acked && i !in m.acked;
          assert News(f, [n], authenticated, part.message, i);
        }
      }
    }
  }

  lemma NewsSplits(f: FlightState, records: seq<RecordNumber>, authenticated: bool, j: nat, i: nat)
    requires Valid(f) && records != []
    ensures Valid(AckOne(f, records[0], authenticated).0)
    ensures News(f, records, authenticated, j, i) <==>
      News(f, [records[0]], authenticated, j, i) || News(AckOne(f, records[0], authenticated).0, records[1..], authenticated, j, i)
  {
    AckOneKeeps(f, records[0], authenticated);
    if j < |f.items| {
      OneSettles(f, records[0], authenticated, j, i);
      CarriedSplits(f, AckOne(f, records[0], authenticated).0, records, authenticated, j, i);
    }
    hide Valid, AckOne, Settled, Carried;
  }

  lemma {:induction false} ProgressIsNews(f: FlightState, records: seq<RecordNumber>, authenticated: bool)
    requires Valid(f)
    ensures AckAll(f, records, authenticated).1 <==> exists j: nat, i: nat :: News(f, records, authenticated, j, i)
    decreases |records|
  {
    if records == [] {
      assert forall j: nat, i: nat :: !News(f, records, authenticated, j, i);
      return;
    }
    hide Valid, AckOne, News;
    AckOneKeeps(f, records[0], authenticated);
    OneProgress(f, records[0], authenticated);
    ProgressIsNews(AckOne(f, records[0], authenticated).0, records[1..], authenticated);
    forall j: nat, i: nat
      ensures News(f, records, authenticated, j, i) <==>
        News(f, [records[0]], authenticated, j, i) || News(AckOne(f, records[0], authenticated).0, records[1..], authenticated, j, i)
    {
      NewsSplits(f, records, authenticated, j, i);
    }
  }

  /** An acknowledgement that settles anything new, and no other, makes progress and starts the retries over; the timer runs on. */
  lemma ProgressStartsOver(f: FlightState, records: seq<RecordNumber>, authenticated: bool)
    requires Valid(f) && !f.complete
    ensures var (g, progress) := Acknowledge(f, records, authenticated);
      && (progress <==> exists j: nat, i: nat :: News(f, records, authenticated, j, i))
      && g.retries == (if progress then 0 else f.retries) && g.ackedSinceSend == (f.ackedSinceSend || progress)
      && (if g.complete then g.deadline == None && g.items == [] else g.deadline == f.deadline && g.interval == f.interval)
  {
    ProgressIsNews(f, records, authenticated);
    AckAllKeeps(f, records, authenticated);
    hide AckAll, News, AllAcknowledged, TotalUnacked, TotalUnsent, Valid;
  }

  // ----- nothing sent is forgotten -----

  ghost predicate Sent(m: Item, i: nat) {
    if m.message.body == [] then m.emptySent else i in m.sent
  }

  /** A record still remembered carried position i of message j. */
  ghost predicate Recalled(f: FlightState, j: nat, i: nat)
    requires j < |f.items|
  {
    exists n :: n in f.sent && f.sent[n].message == j && (f.sent[n].start <= i < f.sent[n].end || f.items[j].message.body == [])
  }

  /** Whatever went out and is not settled can still be acknowledged. */
  ghost predicate Remembers(f: FlightState) {
    forall j: nat, i: nat :: j < |f.items| && Sent(f.items[j], i) ==> Settled(f.items[j], i) || Recalled(f, j, i)
  }

  lemma NoteRemembers(f: FlightState, s: Sending)
    requires Valid(f) && Remembers(f) && Within(f, s.part) && s.number !in f.sent
    ensures Remembers(Note(f, s))
  {
    var g := Note(f, s);
    forall j: nat, i: nat | j < |g.items| && Sent(g.items[j], i) ensures Settled(g.items[j], i) || Recalled(g, j, i) {
      if Sent(f.items[j], i) {
        if Recalled(f, j, i) {
          var n :| n in f.sent && f.sent[n].message == j && (f.sent[n].start <= i < f.sent[n].end || f.items[j].message.body == []);
          assert n in g.sent && g.sent[n] == f.sent[n];
        }
      } else {
        assert s.number in g.sent && g.sent[s.number].message == j;
      }
    }
  }

  lemma {:induction false} NoteAllRemembers(f: FlightState, log: seq<Sending>, capacity: int, onlyNew: bool)
    requires Valid(f) && Remembers(f) && AllEligible(f, log, capacity, onlyNew)
    ensures Remembers(NoteAll(f, log))
    decreases |log|
  {
    if log != [] {
      var before := log[..|log| - 1];
      NoteAllRemembers(f, before, capacity, onlyNew);
      NoteAllKeeps(f, before, capacity, onlyNew);
      hide Valid, Remembers;
      NoteRemembers(NoteAll(f, before), log[|log| - 1]);
    }
  }

  lemma AckOneRemembers(f: FlightState, n: RecordNumber, authenticated: bool)
    requires Valid(f) && Remembers(f)
    ensures Remembers(AckOne(f, n, authenticated).0)
  {
    var g := AckOne(f, n, authenticated).0;
    forall j: nat, i: nat | j < |g.items| && Sent(g.items[j], i) ensures Settled(g.items[j], i) || Recalled(g, j, i) {
      OneSettles(f, n, authenticated, j, i);
      hide AckOne, Valid;
      if !Settled(g.items[j], i) {
        assert Recalled(f, j, i);
        var x :| x in f.sent && f.sent[x].message == j && (f.sent[x].start <= i < f.sent[x].end || f.items[j].message.body == []);
        assert n in [n] && (x == n && Counts(f, n, authenticated) ==> Carried(f, [n], authenticated, j, i));
        assert x in g.sent && g.sent[x] == f.sent[x];
      }
    }
  }

  lemma {:induction false} AckAllRemembers(f: FlightState, records: seq<RecordNumber>, authenticated: bool)
    requires Valid(f) && Remembers(f)
    ensures Remembers(AckAll(f, records, authenticated).0)
    decreases |records|
  {
    if records != [] {
      AckOneKeeps(f, records[0], authenticated);
      AckOneRemembers(f, records[0], authenticated);
      hide Valid, Remembers, AckOne;
      AckAllRemembers(AckOne(f, records[0], authenticated).0, records[1..], authenticated);
    }
  }

  lemma SameParts(f: FlightState, g: FlightState)
    requires Remembers(f) && g.items == f.items && g.sent == f.sent
    ensures Remembers(g)
  {
    forall j: nat, i: nat | j < |g.items| && Sent(g.items[j], i) ensures Settled(g.items[j], i) || Recalled(g, j, i) {
      assert Recalled(f, j, i) ==> Recalled(g, j, i);
    }
  }

  lemma TransmittedRemembers(f: FlightState, g: FlightState, log: seq<Sending>, now: int, capacity: int)
    requires Valid(f) && Remembers(f) && Transmitted(f, g, log, now, capacity)
    ensures Remembers(g)
  {
    NoteAllRemembers(f, log, capacity, PendingSend(f));
    hide Remembers, NoteAll;
    SameParts(NoteAll(f, log), g);
  }

  lemma AcknowledgeRemembers(f: FlightState, records: seq<RecordNumber>, authenticated: bool)
    requires Valid(f) && Remembers(f)
    ensures Remembers(Acknowledge(f, records, authenticated).0)
  {
    AckAllRemembers(f, records, authenticated);
    var g := AckAll(f, records, authenticated).0;
    hide AckAll;
    if !f.complete { SameParts(g, g.(retries := 0, ackedSinceSend := true)); }
  }

  lemma StepRemembers(f: FlightState, event: Event, g: FlightState)
    requires Valid(f) && Remembers(f) && Step(f, event, g)
    ensures Remembers(g)
  {
    hide Remembers, Transmitted, Acknowledge;
    match event
    case Timer(now, log, capacity) =>
      var due := Expire(f, now).value.0;
      SameParts(f, due);
      TransmittedRemembers(due, g, log, now, capacity);
    case Ack(records, authenticated, now, log, capacity) =>
      AcknowledgeRemembers(f, records, authenticated);
      var h := Acknowledge(f, records, authenticated).0;
      if !h.complete { TransmittedRemembers(h, g, log, now, capacity); }
    case Idle(records, authenticated) => AcknowledgeRemembers(f, records, authenticated);
  }

  lemma {:induction false} RunRemembers(states: seq<FlightState>, events: seq<Event>, k: nat)
    requires IsRun(states, events) && Remembers(states[0]) && k <= |events|
    ensures Remembers(states[k])
  {
    hide Remembers, Step;
    if k > 0 {
      RunRemembers(states, events, k - 1);
      assert Step(states[k - 1], events[k - 1], states[k]);
      StepRemembers(states[k - 1], events[k - 1], states[k]);
    }
  }

  lemma EverythingSent(f: FlightState, records: seq<RecordNumber>, j: nat)
    requires Valid(f) && Remembers(f) && !PendingSend(f) && j < |f.items| && forall n :: n in f.sent ==> n in records
    ensures Answered(f, records, true, j)
  {
    var m := f.items[j];
    var n := |m.message.body|;
    assert m.Valid() && m.Unsent() == 0;
    FullOrSmaller(m.sent, m.Length());
    forall i: nat | i < (if n == 0 then 1 else n) ensures Settled(m, i) || Carried(f, records, true, j, i) {
      if !Settled(m, i) {
        assert Sent(m, i) && Recalled(f, j, i);
        var x :| x in f.sent && f.sent[x].message == j && (f.sent[x].start <= i < f.sent[x].end || m.message.body == []);
        assert x in records;
      }
    }
  }

  /** However a flight was sent, acknowledged and sent again, once all of it has gone out an authenticated acknowledgement of the
      records it still waits for completes it. */
  lemma AcknowledgedFlightsComplete(messages: seq<Fragments.Message>, interval: int, states: seq<FlightState>, events: seq<Event>,
                                    log: seq<Sending>, now: int, capacity: int, records: seq<RecordNumber>)
    requires forall j :: 0 <= j < |messages| ==> |messages[j].body| <= Fragments.MAX_BODY
    requires IsRun(states, events) && Transmitted(Begin(messages, interval), states[0], log, now, capacity)
    requires var f := states[|events|]; !PendingSend(f) && forall n :: n in f.sent ==> n in records
    ensures states[|events|].complete || Acknowledge(states[|events|], records, true).0.complete
  {
    var f := states[|events|];
    BeginValid(messages, interval);
    assert Remembers(Begin(messages, interval));
    hide Remembers, Transmitted, Acknowledge, Answered, Begin, PendingSend;
    TransmittedRemembers(Begin(messages, interval), states[0], log, now, capacity);
    RunRemembers(states, events, |events|);
    forall j: nat | j < |f.items| ensures Answered(f, records, true, j) { EverythingSent(f, records, j); }
    if !f.complete { CompletesExactly(f, records, true); }
  }

  // ----- silence -----

  function Power(k: nat): (p: nat)
    ensures p >= 1
  {
    if k == 0 then 1 else 2 * Power(k - 1)
  }

  function Capped(interval: int): int { if interval < MAXIMUM_RETRANSMIT then interval else MAXIMUM_RETRANSMIT }

  /** How many of the first k timers found everything already sent, so that they repeated it. */
  ghost function Repeats(states: seq<FlightState>, k: nat): nat
    requires k <= |states|
  {
    if k == 0 then 0 else Repeats(states, k - 1) + if PendingSend(states[k - 1]) then 0 else 1
  }

  lemma TransmittedTimer(f: FlightState, g: FlightState, log: seq<Sending>, now: int, capacity: int)
    requires Valid(f) && Transmitted(f, g, log, now, capacity)
    ensures g.retries == f.retries && g.interval == f.interval && g.deadline == Some(now + f.interval) && !g.complete
  {
    hide NoteAll, AllEligible, Exhausted, TotalUnsent, TotalUnacked, PendingSend, Valid;
    NoteAllKeeps(f, log, capacity, PendingSend(f));
  }

  lemma SilentStep(f: FlightState, event: Event, g: FlightState, v: int, n: nat)
    requires Valid(f) && Step(f, event, g) && event.Timer? && 0 < v <= MAXIMUM_RETRANSMIT
    requires f.interval == Capped(v * Power(n))
    ensures g.retries == f.retries + (if PendingSend(f) then 0 else 1)
    ensures g.interval == Capped(v * Power(if PendingSend(f) then n else n + 1))
    ensures g.deadline == Some(event.now + g.interval) && !g.complete
  {
    hide Transmitted, PendingSend;
    TransmittedTimer(Expire(f, event.now).value.0, g, event.log, event.now, event.capacity);
    assert v * Power(n + 1) == 2 * (v * Power(n));
  }

  lemma {:induction false} SilentRun(states: seq<FlightState>, events: seq<Event>, k: nat, v: int)
    requires IsRun(states, events) && (forall i :: 0 <= i < |events| ==> events[i].Timer?) && k <= |events|
    requires states[0].interval == v && 0 < v <= MAXIMUM_RETRANSMIT
    ensures states[k].retries == states[0].retries + Repeats(states, k)
    ensures states[k].interval == Capped(v * Power(Repeats(states, k)))
    ensures k > 0 ==> states[k].deadline == Some(events[k - 1].now + states[k].interval) && !states[k].complete
  {
    hide Valid, Step, PendingSend;
    if k > 0 {
      SilentRun(states, events, k - 1, v);
      assert Step(states[k - 1], events[k - 1], states[k]);
      SilentStep(states[k - 1], events[k - 1], states[k], v, Repeats(states, k - 1));
    }
  }

  /** Unanswered, a flight sends its remaining bytes burst by burst without spending a retry, repeats what is open at intervals that
      double up to a minute, and is ended by the timer after the eighth repetition and by no other. */
  lemma UnansweredFlight(states: seq<FlightState>, events: seq<Event>, now: int)
    requires IsRun(states, events) && (forall i :: 0 <= i < |events| ==> events[i].Timer?) && |events| > 0
    requires states[0].retries == 0 && 0 < states[0].interval <= MAXIMUM_RETRANSMIT
    ensures var f, n := states[|events|], Repeats(states, |events|);
      && n <= 8 && f.interval == Capped(states[0].interval * Power(n))
      && f.deadline == Some(events[|events| - 1].now + f.interval)
      && (Expire(f, now).Err? <==> now >= f.deadline.value && !PendingSend(f) && n == 8)
      && (Expire(f, now).Err? ==> Expire(f, now).error == HandshakeTimeout)
  {
    SilentRun(states, events, |events|, states[0].interval);
    assert Valid(states[|events|]);
    hide IsRun, PendingSend, Repeats;
  }
}
