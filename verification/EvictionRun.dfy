/** How a plaintext flight can be acknowledged in full with no receiver holding it: an eviction between two honest acknowledgements. */
module EvictionRun {
  import opened Wire
  import opened Bitmap
  import opened Budget
  import opened Fragments
  import opened Flights
  import Outlets
  import Reassembly
  import S = Sending
  import R = Receiving
  import C = Channel
  import K = KeyUpdate
  import U = UpdateRun

  function Hello(): Message { Message(1, 0, 0, [7, 9]) }

  function Number(i: nat): RecordNumber { RecordNumber(0, i) }

  function Half(i: nat): Part { Part(0, i, i + 1) }

  // ----- the flight -----

  function Fresh(): FlightState { Begin([Hello()], 1000) }

  ghost function HalfSent(): FlightState { Note(Fresh(), Sending(Number(0), Half(0))) }

  ghost function AllSent(): FlightState { Note(HalfSent(), Sending(Number(1), Half(1))) }

  ghost predicate Item(f: FlightState, sent: set<nat>, acked: set<nat>) {
    && |f.items| == 1 && f.items[0].message == Hello() && f.items[0].sent == sent && f.items[0].acked == acked
    && !f.items[0].emptyAcked && !f.items[0].emptySent && !f.complete
  }

  lemma Halves()
    ensures Range(0, 1) == {0} && Range(1, 2) == {1}
  {
  }

  lemma Sends()
    ensures Flights.Valid(Fresh()) && Item(Fresh(), {}, {}) && Fresh().sent == map[]
    ensures Flights.Valid(HalfSent()) && Item(HalfSent(), {0}, {}) && HalfSent().sent == map[Number(0) := Half(0)]
    ensures Flights.Valid(AllSent()) && Item(AllSent(), {0, 1}, {}) && AllSent().sent == map[Number(0) := Half(0), Number(1) := Half(1)]
  {
    Halves();
    BeginValid([Hello()], 1000);
    assert Fresh().items[0] == Prepare(Hello());
    hide Range;
    NoteKeeps(Fresh(), Sending(Number(0), Half(0)), 1, true);
    NoteKeeps(HalfSent(), Sending(Number(1), Half(1)), 1, true);
  }

  ghost function HalfAcked(): FlightState
    requires Flights.Valid(AllSent())
  {
    AckOne(AllSent(), Number(0), false).0
  }

  ghost function AllAcked(): FlightState
    requires Flights.Valid(AllSent()) && Flights.Valid(HalfAcked())
  {
    AckOne(HalfAcked(), Number(1), false).0
  }

  lemma Acks()
    ensures Flights.Valid(AllSent()) && Flights.Valid(HalfAcked()) && Item(HalfAcked(), {0, 1}, {0})
    ensures HalfAcked().sent == map[Number(1) := Half(1)] && Item(AllAcked(), {0, 1}, {0, 1})
    ensures AllAcknowledged(AllAcked())
  {
    Sends();
    Halves();
    hide Range, Flights.Valid, Begin, Note;
    AckOneKeeps(AllSent(), Number(0), false);
    assert {} + {0} == {0} && {0} + {1} == {0, 1};
    assert HalfAcked().sent == map[Number(1) := Half(1)];
    assert AllAcked().items[0].Unacked() == 0;
  }

  // ----- the receiver -----

  ghost function Buffered(i: nat): Assembly
    requires i < 2
  {
    Assembly(0, map[0 := Slot(Message(1, 0, 0, if i == 0 then [7, 0] else [0, 9]), {i})], 2)
  }

  lemma Buffers(i: nat)
    requires i < 2
    ensures Insert(Assembly(0, map[], 0), Unlimited, Slice(Hello(), i, 1), 0) == (Buffered(i), Unlimited, Accepted)
  {
    var f := Slice(Hello(), i, 1);
    assert Hello().body[i..i + 1] == [if i == 0 then 7 else 9];
    var p := Fragments.Fresh(f, 0);
    assert p.message.body == [0, 0];
    var q := Buffered(i).pending[0];
    assert p.message.body[i := f.body[0]] == q.message.body && p.seen + {i} == q.seen;
    assert Fill(p, f, 0) == Fill(q, f, 1);
    assert map[0 := p][0 := q] == map[0 := q];
  }

  lemma Receives(i: nat, r: R.Receiver)
    requires i < 2 && r == R.Fresh(0)
    ensures Encode(Hello(), i, 1).Ok?
    ensures R.Receive(r, Number(i), Encode(Hello(), i, 1).value, Unlimited, 1) == r.(assembly := Buffered(i), queue := [Number(i)])
  {
    EncodesPart(Hello(), i);
    hide Encode;
    var data := Encode(Hello(), i, 1).value;
    Reassembly.EncodedCarries(Hello(), i, i + 1, [Hello()]);
    assert Split(data) == ([Slice(Hello(), i, 1)], true) && data != [];
    Buffers(i);
    hide Split, Insert, Slice;
    var f := Slice(Hello(), i, 1);
    assert [f][1..] == [];
    assert AddAll(r.assembly, Unlimited, [f], 0) == (Buffered(i), Unlimited, Accepted);
    assert !Fragments.Ready(Buffered(i)) by { assert |Buffered(i).pending[0].seen| == 1; }
    assert [] + [Number(i)] == [Number(i)];
  }

  lemma EncodesPart(m: Message, i: nat)
    requires |m.body| == 2 && i < 2
    ensures Encode(m, i, 1).Ok?
  {
  }

  // ----- the states along the way -----

  function Spent(n: nat): map<nat, Outlets.WriteEpoch> { map[0 := Outlets.WriteEpoch(n, 0x1_0000_0000_0000)] }

  ghost function Sender(f: FlightState, n: nat): S.Sender {
    S.Initial().(history := [Hello()], flights := map[S.OUTBOUND := f], write := Spent(n),
                 handed := if n == 0 then [] else if n == 1 then [Number(0)] else [Number(0), Number(1)])
  }

  function Carried(i: nat): C.Payload
    requires i < 2 && Encode(Hello(), i, 1).Ok?
  {
    C.Carrying(Encode(Hello(), i, 1).value)
  }

  ghost function Begun(): C.Channel { C.Initial().(s := Sender(Fresh(), 0)) }

  ghost function OneOut(): C.Channel
    requires Encode(Hello(), 0, 1).Ok?
  {
    Begun().(s := Sender(HalfSent(), 1), wire := map[Number(0) := Carried(0)])
  }

  ghost predicate Encodable() { Encode(Hello(), 0, 1).Ok? && Encode(Hello(), 1, 1).Ok? }

  ghost function BothOut(f: FlightState, r: R.Receiver, acks: set<RecordNumber>, doubt: set<nat>): C.Channel
    requires Encodable()
  {
    C.Channel(Sender(f, 2), r, map[Number(0) := Carried(0), Number(1) := Carried(1)], acks, doubt)
  }

  ghost function Holding(i: nat, queue: seq<RecordNumber>): R.Receiver
    requires i < 2
  {
    R.Fresh(0).(assembly := Buffered(i), queue := queue)
  }

  // ----- the steps between them -----

  lemma Begins()
    ensures U.Leads(C.Initial(), C.Local(S.BeginHandshake([Hello()], 1000)), Begun())
  {
    hide Begin;
    assert [] + [Hello()] == [Hello()];
  }

  lemma SendsFirst()
    ensures Encodable() && U.Leads(Begun(), C.Local(S.SendPart(S.OUTBOUND, Half(0), 1, true)), OneOut())
  {
    EncodesPart(Hello(), 0);
    EncodesPart(Hello(), 1);
    Sends();
    Halves();
    hide Encode, Begin, Note, Flights.Valid, Range;
    assert [] + [Number(0)] == [Number(0)];
    assert map[S.OUTBOUND := Fresh()][S.OUTBOUND := HalfSent()] == map[S.OUTBOUND := HalfSent()];
  }

  lemma SendsSecond()
    ensures Encodable() && U.Leads(OneOut(), C.Local(S.SendPart(S.OUTBOUND, Half(1), 1, true)), BothOut(AllSent(), R.Fresh(0), {}, {}))
  {
    EncodesPart(Hello(), 0);
    EncodesPart(Hello(), 1);
    Sends();
    Halves();
    hide Encode, Begin, Note, Flights.Valid, Range;
    assert [Number(0)] + [Number(1)] == [Number(0), Number(1)];
    assert map[S.OUTBOUND := HalfSent()][S.OUTBOUND := AllSent()] == map[S.OUTBOUND := AllSent()];
    assert map[Number(0) := Carried(0)][Number(1) := Carried(1)] == map[Number(0) := Carried(0), Number(1) := Carried(1)];
  }

  lemma Arrives(i: nat, f: FlightState, acks: set<RecordNumber>, doubt: set<nat>)
    requires i < 2 && Encodable()
    ensures U.Leads(BothOut(f, R.Fresh(0), acks, doubt), C.Arrive(Number(i), Unlimited, 1), BothOut(f, Holding(i, [Number(i)]), acks, doubt))
  {
    hide Encode, R.Receive, Buffered, S.Initial, Sender, Slice, Split;
    Receives(i, R.Fresh(0));
    var c := BothOut(f, R.Fresh(0), acks, doubt);
    assert C.Enabled(c, C.Arrive(Number(i), Unlimited, 1));
    assert c.wire[Number(i)] == C.Carrying(Encode(Hello(), i, 1).value);
  }

  lemma Acknowledged(i: nat, f: FlightState, acks: set<RecordNumber>, doubt: set<nat>)
    requires i < 2 && Encodable()
    ensures U.Leads(BothOut(f, Holding(i, [Number(i)]), acks, doubt), C.SendAcks(1), BothOut(f, Holding(i, []), acks + {Number(i)}, doubt))
  {
    hide Encode;
    assert [Number(i)][1..] == [] && [Number(i)][..1] == [Number(i)];
    assert (set n | n in [Number(i)]) == {Number(i)};
  }

  lemma Counted(i: nat, f: FlightState, g: FlightState, acks: set<RecordNumber>, doubt: set<nat>)
    requires i < 2 && Encodable() && Number(i) in acks && Flights.Valid(f) && !f.complete && g == AckOne(f, Number(i), false).0
    ensures U.Leads(BothOut(f, Holding(i, []), acks, doubt), C.AckArrives(S.OUTBOUND, Number(i), false), BothOut(g, Holding(i, []), acks, doubt))
  {
    hide Encode, Flights.Valid, AckOne;
    assert map[S.OUTBOUND := f][S.OUTBOUND := g] == map[S.OUTBOUND := g];
    assert doubt + {} == doubt;
  }

  lemma Evicts(f: FlightState, acks: set<RecordNumber>)
    requires Encodable()
    ensures U.Leads(BothOut(f, Holding(0, []), acks, {}), C.Remote(R.Evicted), BothOut(f, R.Fresh(0), acks, {0}))
  {
    hide Encode;
    assert {} + Buffered(0).pending.Keys == {0};
  }

  /** Both halves of a ClientHello are acknowledged by the receiver itself, one before an eviction and one after it: the flight is
      acknowledged in full, and the receiver has neither delivered the message nor holds all of it. */
  lemma AcknowledgedAndLost() returns (steps: seq<C.Step>)
    ensures C.Run(C.Initial(), steps).Some?
    ensures var c := C.Run(C.Initial(), steps).value;
      && S.OUTBOUND in c.s.flights && |c.s.flights[S.OUTBOUND].items| == 1 && AllAcknowledged(c.s.flights[S.OUTBOUND])
      && !K.Has(c, c.s.flights[S.OUTBOUND].items[0].message) && c.doubt == {0}
      && forall i :: 0 <= i < |steps| && steps[i].AckArrives? ==> steps[i].number in c.acks
  {
    hide C.Run, U.Leads, C.Initial, BothOut, HalfAcked, AllAcked, AllSent, Flights.Valid, K.Has, AllAcknowledged, Item, Encodable;
    Acks();
    Ready();
    steps := Before();
    var one := {Number(0)};
    var both := one + {Number(1)};
    Evicts(HalfAcked(), one);
    U.Extend(steps, BothOut(HalfAcked(), Holding(0, []), one, {}), C.Remote(R.Evicted), BothOut(HalfAcked(), R.Fresh(0), one, {0}));
    steps := steps + [C.Remote(R.Evicted)];
    steps := Exchange(steps, 1, HalfAcked(), AllAcked(), one, {0});
    Lost(both);
  }

  /** One half arrives, is acknowledged by the receiver, and counts. */
  lemma Exchange(before: seq<C.Step>, i: nat, f: FlightState, g: FlightState, acks: set<RecordNumber>, doubt: set<nat>) returns (steps: seq<C.Step>)
    requires i < 2 && Encodable() && Flights.Valid(f) && !f.complete && g == AckOne(f, Number(i), false).0
    requires C.Run(C.Initial(), before) == Some(BothOut(f, R.Fresh(0), acks, doubt))
    requires forall k :: 0 <= k < |before| && before[k].AckArrives? ==> before[k].number in acks
    ensures C.Run(C.Initial(), steps) == Some(BothOut(g, Holding(i, []), acks + {Number(i)}, doubt))
    ensures forall k :: 0 <= k < |steps| && steps[k].AckArrives? ==> steps[k].number in acks + {Number(i)}
  {
    hide C.Run, U.Leads, C.Initial, BothOut, Flights.Valid, Encodable, AckOne, Holding;
    Arrives(i, f, acks, doubt);
    U.Extend(before, BothOut(f, R.Fresh(0), acks, doubt), C.Arrive(Number(i), Unlimited, 1), BothOut(f, Holding(i, [Number(i)]), acks, doubt));
    steps := before + [C.Arrive(Number(i), Unlimited, 1)];
    Acknowledged(i, f, acks, doubt);
    var more := acks + {Number(i)};
    U.Extend(steps, BothOut(f, Holding(i, [Number(i)]), acks, doubt), C.SendAcks(1), BothOut(f, Holding(i, []), more, doubt));
    steps := steps + [C.SendAcks(1)];
    Counted(i, f, g, more, doubt);
    U.Extend(steps, BothOut(f, Holding(i, []), more, doubt), C.AckArrives(S.OUTBOUND, Number(i), false), BothOut(g, Holding(i, []), more, doubt));
    steps := steps + [C.AckArrives(S.OUTBOUND, Number(i), false)];
  }

  lemma Before() returns (steps: seq<C.Step>)
    ensures Encodable() && Flights.Valid(AllSent()) && C.Run(C.Initial(), steps) == Some(BothOut(HalfAcked(), Holding(0, []), {Number(0)}, {}))
    ensures forall k :: 0 <= k < |steps| && steps[k].AckArrives? ==> steps[k].number in {Number(0)}
  {
    hide C.Run, U.Leads, C.Initial, Begun, OneOut, BothOut, HalfAcked, AllAcked, AllSent, Flights.Valid, Encodable;
    Acks();
    Ready();
    U.Nothing();
    Begins();
    U.Extend([], C.Initial(), C.Local(S.BeginHandshake([Hello()], 1000)), Begun());
    steps := [] + [C.Local(S.BeginHandshake([Hello()], 1000))];
    SendsFirst();
    U.Extend(steps, Begun(), C.Local(S.SendPart(S.OUTBOUND, Half(0), 1, true)), OneOut());
    steps := steps + [C.Local(S.SendPart(S.OUTBOUND, Half(0), 1, true))];
    SendsSecond();
    U.Extend(steps, OneOut(), C.Local(S.SendPart(S.OUTBOUND, Half(1), 1, true)), BothOut(AllSent(), R.Fresh(0), {}, {}));
    steps := steps + [C.Local(S.SendPart(S.OUTBOUND, Half(1), 1, true))];
    steps := Exchange(steps, 0, AllSent(), HalfAcked(), {}, {});
    assert {} + {Number(0)} == {Number(0)};
  }

  lemma Ready()
    ensures Flights.Valid(AllSent()) && !AllSent().complete && HalfAcked() == AckOne(AllSent(), Number(0), false).0
    ensures Flights.Valid(HalfAcked()) && !HalfAcked().complete && AllAcked() == AckOne(HalfAcked(), Number(1), false).0
  {
    Sends();
    Acks();
    hide AckOne, Flights.Valid, AllSent;
  }

  lemma Lost(acks: set<RecordNumber>)
    requires Encodable() && Flights.Valid(AllSent()) && Flights.Valid(HalfAcked()) && Item(AllAcked(), {0, 1}, {0, 1}) && AllAcknowledged(AllAcked())
    requires acks == {Number(0), Number(1)}
    ensures var c := BothOut(AllAcked(), Holding(1, []), acks, {0});
      && S.OUTBOUND in c.s.flights && |c.s.flights[S.OUTBOUND].items| == 1 && AllAcknowledged(c.s.flights[S.OUTBOUND])
      && !K.Has(c, c.s.flights[S.OUTBOUND].items[0].message) && c.doubt == {0} && c.acks == acks
  {
    hide Encode, Flights.Valid, AllAcknowledged, AllAcked;
    assert Buffered(1).pending[0].message != Hello();
  }
}
