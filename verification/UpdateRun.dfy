/** One key update from end to end: the guards of the channel can all be met, and both ends arrive at the next epoch. */
module UpdateRun {
  import opened Wire
  import opened Bitmap
  import opened Budget
  import opened Fragments
  import opened Flights
  import Outlets
  import Reassembly
  import S = Sending
  import R = Receiving
  import C = Channel

  const LIMIT: nat := 1000

  function Announcement(): Message { Message(R.KEY_UPDATE, 0, 3, [0]) }

  function First(): RecordNumber { RecordNumber(3, 0) }

  lemma {:induction false} RunThen(c: C.Channel, steps: seq<C.Step>, e: C.Step)
    requires C.Run(c, steps).Some? && C.Enabled(C.Run(c, steps).value, e)
    ensures C.Run(c, steps + [e]) == Some(C.Next(C.Run(c, steps).value, e))
    decreases |steps|
  {
    hide C.Enabled, C.Next;
    if steps == [] {
      assert [e][1..] == [];
    } else {
      assert (steps + [e])[1..] == steps[1..] + [e];
      RunThen(C.Next(c, steps[0]), steps[1..], e);
    }
  }

  // ----- the states along the way -----

  /** The sender with these write epochs, flights, and flags, once the handshake is done. */
  ghost function Writer(history: seq<Message>, flights: map<nat, FlightState>, write: map<nat, Outlets.WriteEpoch>, top: nat,
                        pending: bool, updating: bool, handed: seq<RecordNumber>): S.Sender {
    S.Sender(history, flights, write, top, {3}, true, pending, updating, handed)
  }

  ghost function Reader(): R.Receiver { R.Fresh(0).(keys := R.ReadSide({3}, {3}, 3, false)) }

  ghost function Keyed(): C.Channel { C.Initial().(r := Reader()) }

  ghost function Completed(): C.Channel {
    Keyed().(s := Writer([], map[], map[0 := Outlets.WriteEpoch(0, 0x1_0000_0000_0000), 3 := Outlets.WriteEpoch(0, LIMIT)], 3, false, false, []))
  }

  ghost function Retired(): C.Channel { Keyed().(s := Writer([], map[], map[3 := Outlets.WriteEpoch(0, LIMIT)], 3, false, false, [])) }

  ghost function Wanted(): C.Channel { Retired().(s := Retired().s.(localPending := true)) }

  ghost function InFlight(n: RecordNumber): FlightState {
    Note(Begin([Announcement()], 1000), Sending(n, Part(0, 0, 1)))
  }

  ghost function Announced(): C.Channel {
    Wanted().(s := Writer([Announcement()], map[R.KEY_UPDATE := InFlight(First())], map[3 := Outlets.WriteEpoch(1, LIMIT)], 3, false, true, [First()]),
              wire := map[First() := C.Carrying(Encode(Announcement(), 0, 1).value)])
  }

  ghost function Informed(): R.Receiver {
    R.Receiver(Assembly(1, map[], 0), [Announcement()], [First()], R.ReadSide({3, 4}, {3}, 4, true), true)
  }

  ghost function Heard(): C.Channel { Announced().(r := Informed()) }

  ghost function Answered(): C.Channel { Heard().(r := Informed().(queue := []), acks := {First()}) }

  ghost function Settled(f: FlightState): C.Channel { Answered().(s := Answered().s.(flights := map[R.KEY_UPDATE := f])) }

  ghost function Updated(): C.Channel {
    Answered().(s := Writer([Announcement()], map[R.KEY_UPDATE := Finish(InFlight(First()))], map[4 := Outlets.WriteEpoch(0, LIMIT)], 4, false, false, [First()]))
  }

  // ----- the steps between them -----

  ghost predicate Leads(c: C.Channel, e: C.Step, d: C.Channel) { C.Enabled(c, e) && C.Next(c, e) == d }

  lemma Installs()
    ensures Leads(C.Initial(), C.Remote(R.InstallKeys(3)), Keyed())
  {
    assert {} + {3} == {3};
  }

  lemma Completes()
    ensures Leads(Keyed(), C.Local(S.HandshakeDone(LIMIT)), Completed())
  {
    assert S.InstallWrite(Keyed().s, 3, LIMIT).installed == {3};
  }

  lemma Retires()
    ensures Leads(Completed(), C.Local(S.RetireHandshakeKeys), Retired())
  {
    assert Completed().s.write - {0, 2} == map[3 := Outlets.WriteEpoch(0, LIMIT)];
  }

  lemma Asks()
    ensures Leads(Retired(), C.Local(S.RequestUpdate), Wanted())
  {
  }

  lemma Announces()
    ensures Leads(Wanted(), C.Local(S.BeginPost(R.KEY_UPDATE, [0], 1000, 1)), Announced())
  {
    hide Encode, Note, Begin;
    var s := Wanted().s;
    assert S.PostMessage(s, R.KEY_UPDATE, [0]) == Announcement() && S.NextNumber(s, 3) == First();
    assert [] + [Announcement()] == [Announcement()] && [] + [First()] == [First()];
  }

  /** The record is accepted whole, and its one message comes out. */
  lemma Assembles()
    ensures var data := Encode(Announcement(), 0, 1).value;
      Add(Assembly(0, map[], 0), Unlimited, data, 3).2.Accepted? &&
      Reassembly.Drain(Add(Assembly(0, map[], 0), Unlimited, data, 3).0) == (Assembly(1, map[], 0), [Announcement()])
  {
    Splits();
    Inserts();
    Drains();
    hide Encode, Split, Insert, Reassembly.Drain;
    var f := Slice(Announcement(), 0, 1);
    assert [f][1..] == [];
    assert AddAll(Assembly(0, map[], 0), Unlimited, [f], 3) == (Full(), Unlimited, Accepted);
  }

  lemma Splits()
    ensures Encode(Announcement(), 0, 1).Ok?
    ensures var data := Encode(Announcement(), 0, 1).value; data != [] && Split(data) == ([Slice(Announcement(), 0, 1)], true)
  {
    hide Encode, Split, Slice;
    Encodes(Announcement());
    Reassembly.EncodedCarries(Announcement(), 0, 1, [Announcement()]);
  }

  lemma Encodes(m: Message)
    requires |m.body| <= MAX_BODY
    ensures Encode(m, 0, |m.body|).Ok?
  {
  }

  ghost function Full(): Assembly { Assembly(0, map[0 := Slot(Announcement(), {0})], 1) }

  lemma Inserts()
    ensures Insert(Assembly(0, map[], 0), Unlimited, Slice(Announcement(), 0, 1), 3) == (Full(), Unlimited, Accepted)
  {
    var m := Announcement();
    var f := Slice(m, 0, 1);
    assert f == Fragment(R.KEY_UPDATE, 0, 1, 0, [0]) by { assert m.body[0..1] == [0]; }
    var p := Fragments.Fresh(f, 3);
    assert p.message.body == [0];
    assert Fill(p, f, 0) == Fill(Slot(m, {0}), f, 1) by { assert p.message.body[0 := 0] == [0]; assert {} + {0} == {0}; }
    assert map[0 := p][0 := Slot(m, {0})] == map[0 := Slot(m, {0})];
  }

  lemma Drains()
    ensures Reassembly.Drain(Full()) == (Assembly(1, map[], 0), [Announcement()])
  {
    var a := Full();
    assert |a.pending[0].seen| == 1;
    assert Pop(a) == (Announcement(), Assembly(1, map[], 0)) by { assert a.pending - {0} == map[]; }
    var b := Assembly(1, map[], 0);
    assert !Ready(b);
    assert Reassembly.Drain(b) == (b, []);
    assert [Announcement()] + [] == [Announcement()];
    assert Reassembly.Drain(a) == (b, [Announcement()]);
  }

  lemma Hears()
    ensures Leads(Announced(), C.Arrive(First(), Unlimited, 0), Heard())
  {
    Receives();
    hide Encode, Add, Reassembly.Drain, R.Process, R.Receive;
  }

  lemma Receives()
    ensures R.Receive(Reader(), First(), Encode(Announcement(), 0, 1).value, Unlimited, 0) == Informed()
  {
    Assembles();
    Understands();
    assert Encode(Announcement(), 0, 1).Ok?;
    hide Encode, Add, Reassembly.Drain, R.Process;
    assert [] + [Announcement()] == [Announcement()] && [] + [First()] == [First()];
  }

  lemma Understands()
    ensures R.Process(Reader().keys, [Announcement()], 0) == Some(R.ReadSide({3, 4}, {3}, 4, true))
  {
    var k := R.Complete(Reader().keys);
    assert k == R.ReadSide({3}, {3}, 3, true);
    assert ({3} + {4}) - {2} == {3, 4};
    assert R.ReceivePost(k, Announcement()) == Some(R.ReadSide({3, 4}, {3}, 4, true));
    assert [Announcement()][1..] == [];
  }

  lemma Answers()
    ensures Leads(Heard(), C.SendAcks(1), Answered())
  {
    assert [First()][1..] == [] && [First()][..1] == [First()];
    assert (set n | n in [First()]) == {First()};
  }

  ghost function Acked(n: RecordNumber): FlightState
    requires Flights.Valid(InFlight(n))
  {
    AckOne(InFlight(n), n, true).0
  }

  lemma Valid(n: RecordNumber)
    requires n.epoch == 3
    ensures Flights.Valid(InFlight(n)) && !InFlight(n).complete && n in InFlight(n).sent
  {
    BeginValid([Announcement()], 1000);
    var f := Begin([Announcement()], 1000);
    assert f.items[0] == Prepare(Announcement());
    NoteKeeps(f, Sending(n, Part(0, 0, 1)), 1, false);
  }

  lemma Counts(n: RecordNumber)
    requires n.epoch == 3
    ensures Flights.Valid(InFlight(n)) && AllAcknowledged(Acked(n)) && !Acked(n).complete && Finish(Acked(n)) == Finish(InFlight(n))
  {
    Valid(n);
    var m := InFlight(n).items[0];
    assert m.message == Announcement() && m.acked == {};
    assert Range(0, 1) == {0};
    assert MarkAcked(m, 0, 1).acked == {0};
  }

  lemma Acknowledges()
    ensures Flights.Valid(InFlight(First())) && Leads(Answered(), C.AckArrives(R.KEY_UPDATE, First(), true), Settled(Acked(First())))
  {
    Valid(First());
    hide Flights.Valid, Note, Begin, AckOne, Encode;
    assert map[R.KEY_UPDATE as nat := InFlight(First())][R.KEY_UPDATE as nat := Acked(First())] == map[R.KEY_UPDATE as nat := Acked(First())];
  }

  lemma Finishes()
    ensures Flights.Valid(InFlight(First())) && Leads(Settled(Acked(First())), C.Local(S.FlightDone(R.KEY_UPDATE)), Settled(Finish(InFlight(First()))))
  {
    Counts(First());
    hide Flights.Valid, Note, Begin, AckOne, Encode, AllAcknowledged;
    assert map[R.KEY_UPDATE as nat := Acked(First())][R.KEY_UPDATE as nat := Finish(InFlight(First()))] == map[R.KEY_UPDATE as nat := Finish(InFlight(First()))];
  }

  lemma Updates()
    ensures Leads(Settled(Finish(InFlight(First()))), C.Local(S.NextKeys(LIMIT)), Updated())
  {
    hide Note, Begin, Encode;
  }

  lemma Extend(steps: seq<C.Step>, c: C.Channel, e: C.Step, d: C.Channel)
    requires C.Run(C.Initial(), steps) == Some(c) && Leads(c, e, d)
    ensures C.Run(C.Initial(), steps + [e]) == Some(d)
  {
    hide C.Enabled, C.Next;
    RunThen(C.Initial(), steps, e);
  }

  /** A run in which the writer announces new keys, is acknowledged, and moves to epoch 4, where the reader already is. */
  lemma BothEndsReachTheNextEpoch() returns (steps: seq<C.Step>)
    ensures C.Run(C.Initial(), steps).Some?
    ensures var c := C.Run(C.Initial(), steps).value;
      c.s.complete && c.r.alive && c.s.top == 4 && c.r.keys.app == 4 && c.r.delivered == c.s.history && c.s.history != [] && !c.s.updating
  {
    hide C.Run, Leads, C.Initial, Keyed, Completed, Retired, Wanted, Announced, Heard, Answered, Settled, InFlight, Acked, Flights.Valid;
    assert C.Run(C.Initial(), []) == Some(C.Initial()) by { Nothing(); }
    Installs();
    Extend([], C.Initial(), C.Remote(R.InstallKeys(3)), Keyed());
    steps := [] + [C.Remote(R.InstallKeys(3))];
    Completes();
    Extend(steps, Keyed(), C.Local(S.HandshakeDone(LIMIT)), Completed());
    steps := steps + [C.Local(S.HandshakeDone(LIMIT))];
    Retires();
    Extend(steps, Completed(), C.Local(S.RetireHandshakeKeys), Retired());
    steps := steps + [C.Local(S.RetireHandshakeKeys)];
    Asks();
    Extend(steps, Retired(), C.Local(S.RequestUpdate), Wanted());
    steps := steps + [C.Local(S.RequestUpdate)];
    Announces();
    Extend(steps, Wanted(), C.Local(S.BeginPost(R.KEY_UPDATE, [0], 1000, 1)), Announced());
    steps := steps + [C.Local(S.BeginPost(R.KEY_UPDATE, [0], 1000, 1))];
    Hears();
    Extend(steps, Announced(), C.Arrive(First(), Unlimited, 0), Heard());
    steps := steps + [C.Arrive(First(), Unlimited, 0)];
    Answers();
    Extend(steps, Heard(), C.SendAcks(1), Answered());
    steps := steps + [C.SendAcks(1)];
    Acknowledges();
    Extend(steps, Answered(), C.AckArrives(R.KEY_UPDATE, First(), true), Settled(Acked(First())));
    steps := steps + [C.AckArrives(R.KEY_UPDATE, First(), true)];
    Finishes();
    Extend(steps, Settled(Acked(First())), C.Local(S.FlightDone(R.KEY_UPDATE)), Settled(Finish(InFlight(First()))));
    steps := steps + [C.Local(S.FlightDone(R.KEY_UPDATE))];
    Updates();
    Extend(steps, Settled(Finish(InFlight(First()))), C.Local(S.NextKeys(LIMIT)), Updated());
    steps := steps + [C.Local(S.NextKeys(LIMIT))];
    Final();
  }

  lemma Nothing()
    ensures C.Run(C.Initial(), []) == Some(C.Initial())
  {
  }

  lemma Final()
    ensures var c := Updated();
      c.s.complete && c.r.alive && c.s.top == 4 && c.r.keys.app == 4 && c.r.delivered == c.s.history && c.s.history != [] && !c.s.updating
  {
  }
}
