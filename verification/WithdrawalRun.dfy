/** How a message number taken back and used again parts the two ends for good: the writer moves to keys the reader never gets. */
module WithdrawalRun {
  import opened Wire
  import opened Bitmap
  import opened Budget
  import opened Fragments
  import opened Flights
  import Outlets
  import Reassembly
  import S = Sending
  import R = Receiving
  import C = Channel
  import K = KeyUpdate
  import U = UpdateRun
  import W = Withdrawals

  /** Connection IDs whose send timed out although the packet went out. */
  function Offer(body: seq<byte>): Message { Message(R.NEW_CONNECTION_ID, 0, 3, body) }

  function Second(): RecordNumber { RecordNumber(3, 1) }

  function Out(body: seq<byte>): map<RecordNumber, W.Withdrawn> { map[U.First() := W.Withdrawn(Offer(body), |body|)] }

  // ----- the states along the way -----

  ghost function Back(): S.Sender { U.Writer([], map[], map[3 := Outlets.WriteEpoch(1, U.LIMIT)], 3, false, false, [U.First()]) }

  ghost function Misled(body: seq<byte>, queue: seq<RecordNumber>): R.Receiver {
    R.Receiver(Assembly(1, map[], 0), [Offer(body)], queue, R.ReadSide({3}, {3}, 3, true), true)
  }

  ghost function Waiting(body: seq<byte>, pending: bool): C.Channel {
    U.Keyed().(s := Back().(localPending := pending), r := Misled(body, [U.First()]))
  }

  ghost function Reused(f: FlightState): S.Sender {
    U.Writer([U.Announcement()], map[R.KEY_UPDATE := f], map[3 := Outlets.WriteEpoch(2, U.LIMIT)], 3, false, true, [U.First(), Second()])
  }

  ghost function Resent(body: seq<byte>, f: FlightState, queue: seq<RecordNumber>, acks: set<RecordNumber>): C.Channel {
    C.Channel(Reused(f), Misled(body, queue), map[Second() := C.Carrying(Encode(U.Announcement(), 0, 1).value)], acks, {})
  }

  ghost function Both(): set<RecordNumber> { {U.First(), Second()} }

  ghost function Parted(body: seq<byte>): C.Channel {
    Resent(body, Finish(U.InFlight(Second())), [], Both()).(
      s := U.Writer([U.Announcement()], map[R.KEY_UPDATE := Finish(U.InFlight(Second()))], map[4 := Outlets.WriteEpoch(0, U.LIMIT)], 4,
                    false, false, [U.First(), Second()]))
  }

  // ----- the steps between them -----

  ghost predicate Leads(w: W.World, e: W.Step, v: W.World) { W.Enabled(w, e) && W.Next(w, e) == v }

  lemma {:induction false} RunThen(w: W.World, steps: seq<W.Step>, e: W.Step)
    requires W.Run(w, steps).Some? && W.Enabled(W.Run(w, steps).value, e)
    ensures W.Run(w, steps + [e]) == Some(W.Next(W.Run(w, steps).value, e))
    decreases |steps|
  {
    hide W.Enabled, W.Next;
    if steps == [] {
      assert [e][1..] == [];
    } else {
      assert (steps + [e])[1..] == steps[1..] + [e];
      RunThen(W.Next(w, steps[0]), steps[1..], e);
    }
  }

  lemma Extend(steps: seq<W.Step>, w: W.World, e: W.Step, v: W.World)
    requires W.Run(W.Initial(), steps) == Some(w) && Leads(w, e, v)
    ensures W.Run(W.Initial(), steps + [e]) == Some(v)
  {
    hide W.Enabled, W.Next;
    RunThen(W.Initial(), steps, e);
  }

  lemma Clean(c: C.Channel, e: C.Step, d: C.Channel, out: map<RecordNumber, W.Withdrawn>, misled: bool)
    requires U.Leads(c, e, d)
    ensures Leads(W.World(c, out, misled), W.Clean(e), W.World(d, out, misled))
  {
    hide C.Enabled, C.Next;
  }

  lemma TakesBack(body: seq<byte>)
    requires 0 < |body| <= MAX_BODY
    ensures Leads(W.World(U.Retired(), map[], false), W.Withdraw(R.NEW_CONNECTION_ID, body, 1000, |body|),
                  W.World(U.Keyed().(s := Back()), Out(body), false))
  {
    var s := U.Retired().s;
    assert s.flights - {R.NEW_CONNECTION_ID as nat} == map[];
    assert [] + [U.First()] == [U.First()];
    assert S.PostMessage(s, R.NEW_CONNECTION_ID, body) == Offer(body);
  }

  ghost function Held(m: Message): Assembly { Assembly(0, map[0 := Slot(m, Range(0, |m.body|))], |m.body|) }

  lemma Fills(m: Message)
    requires |m.body| <= MAX_BODY
    ensures var f := Slice(m, 0, |m.body|);
      f.Fits() && Fill(Fragments.Fresh(f, m.epoch), f, 0) == (Slot(m, Range(0, |m.body|)), true)
  {
    var f := Slice(m, 0, |m.body|);
    var p := Fragments.Fresh(f, m.epoch);
    Reassembly.FillSlice(p, m, 0, |m.body|, 0);
    hide Fill;
    assert {} + Range(0, |m.body|) == Range(0, |m.body|);
    var q := Fill(p, f, 0).0;
    assert q.message.body == m.body;
  }

  lemma Inserts(m: Message)
    requires m.sequence == 0 && |m.body| <= MAX_BODY
    ensures Slice(m, 0, |m.body|).Fits()
    ensures Insert(Assembly(0, map[], 0), Unlimited, Slice(m, 0, |m.body|), m.epoch) == (Held(m), Unlimited, Accepted)
  {
    Fills(m);
    hide Fill, Range;
    var f := Slice(m, 0, |m.body|);
    var p := Fragments.Fresh(f, m.epoch);
    assert map[0 := p][0 := Slot(m, Range(0, |m.body|))] == Held(m).pending;
  }

  lemma Drains(m: Message)
    ensures Reassembly.Drain(Held(m)) == (Assembly(1, map[], 0), [m])
  {
    RangeSize(0, |m.body|);
    hide Range;
    var a, b := Held(m), Assembly(1, map[], 0);
    assert Pop(a) == (m, b) by { assert a.pending - {0} == map[]; }
    assert !Ready(b);
    assert Reassembly.Drain(b) == (b, []);
    assert [m] + [] == [m];
    assert Reassembly.Drain(a) == (b, [m]);
  }

  lemma Understands(body: seq<byte>)
    ensures R.Process(U.Reader().keys, [Offer(body)], 0) == Some(R.ReadSide({3}, {3}, 3, true))
  {
    var k := R.Complete(U.Reader().keys);
    assert k == R.ReadSide({3}, {3}, 3, true);
    assert [Offer(body)][1..] == [];
    assert R.ReceivePost(k, Offer(body)) == Some(k);
  }

  /** The reader has no reason to refuse the offer, and delivers it. */
  lemma IsHeard(body: seq<byte>)
    requires 0 < |body| <= MAX_BODY
    ensures Leads(W.World(U.Keyed().(s := Back()), Out(body), false), W.Hear(U.First(), Unlimited, 0), W.World(Waiting(body, false), Out(body), true))
  {
    var t := W.Withdrawn(Offer(body), |body|);
    W.OneFragment(Assembly(0, map[], 0), Unlimited, t, 3);
    Inserts(Offer(body));
    IsDelivered(body);
    hide W.Packet, Add, Insert, R.Receive;
  }

  lemma IsDelivered(body: seq<byte>)
    requires 0 < |body| <= MAX_BODY
    ensures R.Receive(U.Reader(), U.First(), W.Packet(W.Withdrawn(Offer(body), |body|)), Unlimited, 0) == Misled(body, [U.First()])
  {
    hide W.Packet, Add, Insert, Reassembly.Drain, R.Process, Slice;
    var t := W.Withdrawn(Offer(body), |body|);
    W.OneFragment(Assembly(0, map[], 0), Unlimited, t, 3);
    Inserts(Offer(body));
    Drains(Offer(body));
    Understands(body);
    assert [] + [Offer(body)] == [Offer(body)] && [] + [U.First()] == [U.First()];
  }

  lemma Asks(body: seq<byte>)
    ensures U.Leads(Waiting(body, false), C.Local(S.RequestUpdate), Waiting(body, true))
  {
  }

  /** The update gets the number that was taken back. */
  lemma Announces(body: seq<byte>)
    ensures U.Leads(Waiting(body, true), C.Local(S.BeginPost(R.KEY_UPDATE, [0], 1000, 1)),
                    Resent(body, U.InFlight(Second()), [U.First()], {}))
  {
    hide Encode, Note, Begin;
    var s := Waiting(body, true).s;
    assert S.PostMessage(s, R.KEY_UPDATE, [0]) == U.Announcement() && S.NextNumber(s, 3) == Second();
    assert [] + [U.Announcement()] == [U.Announcement()] && [U.First()] + [Second()] == [U.First(), Second()];
  }

  /** To the reader it is an old message: it is acknowledged and ignored. */
  lemma IsIgnored(body: seq<byte>, f: FlightState)
    ensures U.Leads(Resent(body, f, [U.First()], {}), C.Arrive(Second(), Unlimited, 0), Resent(body, f, [U.First(), Second()], {}))
  {
    hide Encode, R.Receive;
    W.Unchanged(Misled(body, [U.First()]), Second(), W.Withdrawn(U.Announcement(), 1), Unlimited, 0);
    assert [U.First()] + [Second()] == [U.First(), Second()];
  }

  lemma Answers(body: seq<byte>, f: FlightState)
    ensures U.Leads(Resent(body, f, [U.First(), Second()], {}), C.SendAcks(2), Resent(body, f, [], Both()))
  {
    hide Encode;
    var q := [U.First(), Second()];
    assert q[2..] == [] && q[..2] == q;
    assert (set n | n in q) == Both();
  }

  lemma Acknowledges(body: seq<byte>)
    ensures Flights.Valid(U.InFlight(Second()))
    ensures U.Leads(Resent(body, U.InFlight(Second()), [], Both()), C.AckArrives(R.KEY_UPDATE, Second(), true),
                    Resent(body, U.Acked(Second()), [], Both()))
  {
    U.Valid(Second());
    hide Flights.Valid, Note, Begin, AckOne, Encode;
    assert map[R.KEY_UPDATE as nat := U.InFlight(Second())][R.KEY_UPDATE as nat := U.Acked(Second())] == map[R.KEY_UPDATE as nat := U.Acked(Second())];
  }

  lemma Finishes(body: seq<byte>)
    ensures Flights.Valid(U.InFlight(Second()))
    ensures U.Leads(Resent(body, U.Acked(Second()), [], Both()), C.Local(S.FlightDone(R.KEY_UPDATE)),
                    Resent(body, Finish(U.InFlight(Second())), [], Both()))
  {
    U.Counts(Second());
    hide Flights.Valid, Note, Begin, AckOne, Encode, AllAcknowledged;
    var g := Finish(U.InFlight(Second()));
    assert map[R.KEY_UPDATE as nat := U.Acked(Second())][R.KEY_UPDATE as nat := g] == map[R.KEY_UPDATE as nat := g];
  }

  lemma Moves(body: seq<byte>)
    ensures U.Leads(Resent(body, Finish(U.InFlight(Second())), [], Both()), C.Local(S.NextKeys(U.LIMIT)), Parted(body))
  {
    hide Note, Begin, Encode;
  }

  /** The one acknowledgement counted is for the update's record, which the reader did acknowledge. */
  ghost predicate Genuine(steps: seq<W.Step>) {
    forall i :: 0 <= i < |steps| && steps[i].Clean? && steps[i].step.AckArrives? ==> steps[i].step.number == Second()
  }

  lemma Start() returns (steps: seq<W.Step>)
    ensures W.Run(W.Initial(), steps) == Some(W.World(U.Retired(), map[], false)) && Genuine(steps)
  {
    hide C.Enabled, C.Next, Leads, U.Leads, U.Keyed, U.Completed, U.Retired, C.Initial, W.Enabled, W.Next;
    assert W.Run(W.Initial(), []) == Some(W.Initial());
    U.Installs();
    Clean(C.Initial(), C.Remote(R.InstallKeys(3)), U.Keyed(), map[], false);
    Extend([], W.Initial(), W.Clean(C.Remote(R.InstallKeys(3))), W.World(U.Keyed(), map[], false));
    steps := [] + [W.Clean(C.Remote(R.InstallKeys(3)))];
    U.Completes();
    Clean(U.Keyed(), C.Local(S.HandshakeDone(U.LIMIT)), U.Completed(), map[], false);
    Extend(steps, W.World(U.Keyed(), map[], false), W.Clean(C.Local(S.HandshakeDone(U.LIMIT))), W.World(U.Completed(), map[], false));
    steps := steps + [W.Clean(C.Local(S.HandshakeDone(U.LIMIT)))];
    U.Retires();
    Clean(U.Completed(), C.Local(S.RetireHandshakeKeys), U.Retired(), map[], false);
    Extend(steps, W.World(U.Completed(), map[], false), W.Clean(C.Local(S.RetireHandshakeKeys)), W.World(U.Retired(), map[], false));
    steps := steps + [W.Clean(C.Local(S.RetireHandshakeKeys))];
  }

  lemma Then(steps: seq<W.Step>, body: seq<byte>, c: C.Channel, e: C.Step, d: C.Channel) returns (more: seq<W.Step>)
    requires W.Run(W.Initial(), steps) == Some(W.World(c, Out(body), true)) && U.Leads(c, e, d)
    requires Genuine(steps) && (e.AckArrives? ==> e.number == Second())
    ensures W.Run(W.Initial(), more) == Some(W.World(d, Out(body), true)) && Genuine(more)
  {
    hide W.Run, Leads, U.Leads;
    Clean(c, e, d, Out(body), true);
    more := steps + [W.Clean(e)];
    Extend(steps, W.World(c, Out(body), true), W.Clean(e), W.World(d, Out(body), true));
  }

  /** Whatever the connection IDs on offer: their send is reported to have failed, the update that follows reuses their number,
      the reader acknowledges it as old, and the writer moves to epoch 4, of which the reader opens nothing. */
  lemma WriterLeavesReaderBehind(body: seq<byte>) returns (steps: seq<W.Step>)
    requires 0 < |body| <= MAX_BODY
    ensures W.Run(W.Initial(), steps).Some?
    ensures var c := W.Run(W.Initial(), steps).value.c;
      && c.s.complete && c.r.alive && c.s.top == 4 && c.r.keys.app == 3 && !R.Opens(c.r.keys, c.s.top)
      && c.s.history == [U.Announcement()] && c.r.delivered == [Offer(body)] && !K.Has(c, U.Announcement())
      && R.KEY_UPDATE as nat in c.s.flights && c.s.flights[R.KEY_UPDATE as nat].complete
    ensures var c := W.Run(W.Initial(), steps).value.c;
      forall i :: 0 <= i < |steps| && steps[i].Clean? && steps[i].step.AckArrives? ==> steps[i].step.number in c.acks
  {
    hide W.Run, Leads, U.Leads, Waiting, Resent, Parted, Back, U.InFlight, U.Acked, Flights.Valid, U.Keyed, U.Retired, K.Has, Out;
    steps := Start();
    var w0, w1, w2 := W.World(U.Retired(), map[], false), W.World(U.Keyed().(s := Back()), Out(body), false), W.World(Waiting(body, false), Out(body), true);
    TakesBack(body);
    Extend(steps, w0, W.Withdraw(R.NEW_CONNECTION_ID, body, 1000, |body|), w1);
    steps := steps + [W.Withdraw(R.NEW_CONNECTION_ID, body, 1000, |body|)];
    IsHeard(body);
    Extend(steps, w1, W.Hear(U.First(), Unlimited, 0), w2);
    steps := steps + [W.Hear(U.First(), Unlimited, 0)];
    Asks(body);
    steps := Then(steps, body, Waiting(body, false), C.Local(S.RequestUpdate), Waiting(body, true));
    Announces(body);
    var f := U.InFlight(Second());
    steps := Then(steps, body, Waiting(body, true), C.Local(S.BeginPost(R.KEY_UPDATE, [0], 1000, 1)), Resent(body, f, [U.First()], {}));
    IsIgnored(body, f);
    steps := Then(steps, body, Resent(body, f, [U.First()], {}), C.Arrive(Second(), Unlimited, 0), Resent(body, f, [U.First(), Second()], {}));
    Answers(body, f);
    steps := Then(steps, body, Resent(body, f, [U.First(), Second()], {}), C.SendAcks(2), Resent(body, f, [], Both()));
    Acknowledges(body);
    steps := Then(steps, body, Resent(body, f, [], Both()), C.AckArrives(R.KEY_UPDATE, Second(), true), Resent(body, U.Acked(Second()), [], Both()));
    Finishes(body);
    steps := Then(steps, body, Resent(body, U.Acked(Second()), [], Both()), C.Local(S.FlightDone(R.KEY_UPDATE)), Resent(body, Finish(f), [], Both()));
    Moves(body);
    steps := Then(steps, body, Resent(body, Finish(f), [], Both()), C.Local(S.NextKeys(U.LIMIT)), Parted(body));
    Final(body);
  }

  lemma Final(body: seq<byte>)
    ensures var c := Parted(body);
      && c.s.complete && c.r.alive && c.s.top == 4 && c.r.keys.app == 3 && !R.Opens(c.r.keys, c.s.top) && c.acks == Both()
      && c.s.history == [U.Announcement()] && c.r.delivered == [Offer(body)] && !K.Has(c, U.Announcement())
      && R.KEY_UPDATE as nat in c.s.flights && c.s.flights[R.KEY_UPDATE as nat].complete
  {
    hide Note, Begin, Encode;
  }
}
