/** A post-handshake message whose first packet was sent although its send was reported to have failed. The session takes the
    message's number back and uses it again, so the peer may hold a message that the sender no longer knows of. */
module Withdrawals {
  import opened Wire
  import opened Bitmap
  import opened Budget
  import opened Fragments
  import Flights
  import Reassembly
  import S = Sending
  import R = Receiving
  import C = Channel
  import K = KeyUpdate

  /** A message taken back, and how much of it the packet on the wire carries. */
  datatype Withdrawn = Withdrawn(message: Message, end: nat)

  /** misled: the receiver took in bytes that are not those of the sender's messages. */
  datatype World = World(c: C.Channel, withdrawn: map<RecordNumber, Withdrawn>, misled: bool)

  datatype Step =
    | Clean(step: C.Step)
    | Withdraw(typ: byte, body: seq<byte>, interval: int, end: nat)
    | Hear(number: RecordNumber, pool: Pool, handshake: nat)

  function Packet(t: Withdrawn): seq<byte>
    requires t.end <= |t.message.body| <= MAX_BODY
  {
    Encode(t.message, 0, t.end).value
  }

  /** A withdrawn record leaves a mark: it is not a piece of the sender's history, not of a message already delivered, and not dropped. */
  ghost predicate Misleads(c: C.Channel, n: RecordNumber, t: Withdrawn, pool: Pool)
    requires t.end <= |t.message.body| <= MAX_BODY
  {
    && t.message.sequence >= c.r.assembly.next
    && !Reassembly.IsSlice(Slice(t.message, 0, t.end), n.epoch, c.s.history)
    && !Add(c.r.assembly, pool, Packet(t), n.epoch).2.Dropped?
  }

  ghost predicate Enabled(w: World, step: Step) {
    match step
    case Clean(e) => C.Enabled(w.c, e)
    case Withdraw(typ, body, interval, end) => S.Enabled(w.c.s, S.BeginPost(typ, body, interval, end))
    case Hear(n, pool, _) =>
      && n in w.withdrawn && w.withdrawn[n].end <= |w.withdrawn[n].message.body| <= MAX_BODY
      && R.Opens(w.c.r.keys, n.epoch) && w.c.r.alive && pool.Valid()
  }

  /** The sender after the failed send: the record number is gone, the message number is not, and the type has no flight. */
  ghost function TakenBack(s: S.Sender, typ: byte): S.Sender
    requires s.top in s.write
  {
    S.Spend(s, s.top).(flights := s.flights - {typ})
  }

  ghost function Heard(c: C.Channel, n: RecordNumber, t: Withdrawn, pool: Pool, handshake: nat): C.Channel
    requires t.end <= |t.message.body| <= MAX_BODY
  {
    c.(r := R.Receive(c.r, n, Packet(t), pool, handshake))
  }

  ghost function Next(w: World, step: Step): World
    requires Enabled(w, step)
  {
    match step
    case Clean(e) => w.(c := C.Next(w.c, e))
    case Withdraw(typ, body, _, end) =>
      w.(c := w.c.(s := TakenBack(w.c.s, typ)),
         withdrawn := w.withdrawn[S.NextNumber(w.c.s, w.c.s.top) := Withdrawn(S.PostMessage(w.c.s, typ, body), end)])
    case Hear(n, pool, handshake) =>
      w.(c := Heard(w.c, n, w.withdrawn[n], pool, handshake), misled := w.misled || Misleads(w.c, n, w.withdrawn[n], pool))
  }

  ghost function Run(w: World, steps: seq<Step>): Option<World>
    decreases |steps|
  {
    if steps == [] then Some(w)
    else if Enabled(w, steps[0]) then Run(Next(w, steps[0]), steps[1..])
    else None
  }

  ghost function Initial(): World { World(C.Initial(), map[], false) }

  // ----- what hearing a withdrawn record does -----

  /** The packet is one fragment, so it is inserted or not as a whole. */
  lemma OneFragment(a: Assembly, pool: Pool, t: Withdrawn, epoch: nat)
    requires t.end <= |t.message.body| <= MAX_BODY
    ensures Slice(t.message, 0, t.end).Fits()
    ensures Add(a, pool, Packet(t), epoch) == Insert(a, pool, Slice(t.message, 0, t.end), epoch)
    ensures Packet(t) != [] && Split(Packet(t)) == ([Slice(t.message, 0, t.end)], true)
  {
    Reassembly.SplitEncoded(t.message, 0, t.end);
    hide Encode, Split, Slice, Insert;
    var f := Slice(t.message, 0, t.end);
    var (b, q, _) := Insert(a, pool, f, epoch);
    assert [f][1..] == [];
    assert AddAll(b, q, [], epoch) == (b, q, Accepted);
    assert AddAll(a, pool, [f], epoch) == Insert(a, pool, f, epoch);
  }

  /** A piece of the history, a piece of something delivered already, or a dropped one: nothing is spoiled. */
  lemma HarmlessHear(c: C.Channel, n: RecordNumber, t: Withdrawn, pool: Pool, handshake: nat)
    requires K.KeyInv(c) && c.r.alive && R.Opens(c.r.keys, n.epoch) && pool.Valid() && n in c.s.handed && n !in c.wire
    requires t.end <= |t.message.body| <= MAX_BODY && !Misleads(c, n, t, pool)
    ensures K.KeyInv(Heard(c, n, t, pool, handshake))
  {
    OneFragment(c.r.assembly, pool, t, n.epoch);
    if Reassembly.IsSlice(Slice(t.message, 0, t.end), n.epoch, c.s.history) {
      K.ReceiveFollows(c, n, Packet(t), pool, handshake);
    } else {
      var queued := t.message.sequence < c.r.assembly.next;
      K.StaleFollows(c, n, queued);
      Unchanged(c.r, n, t, pool, handshake);
    }
  }

  lemma LeavesAlone(a: Assembly, pool: Pool, t: Withdrawn, epoch: nat)
    requires t.end <= |t.message.body| <= MAX_BODY
    requires t.message.sequence < a.next || Add(a, pool, Packet(t), epoch).2.Dropped?
    ensures Add(a, pool, Packet(t), epoch) == (a, pool, if t.message.sequence < a.next then Accepted else Dropped)
  {
    OneFragment(a, pool, t, epoch);
    hide Add, Packet, Fill, CanOpen;
  }

  lemma Unchanged(r: R.Receiver, n: RecordNumber, t: Withdrawn, pool: Pool, handshake: nat)
    requires t.end <= |t.message.body| <= MAX_BODY && r.alive && !Ready(r.assembly)
    requires t.message.sequence < r.assembly.next || Add(r.assembly, pool, Packet(t), n.epoch).2.Dropped?
    ensures R.Receive(r, n, Packet(t), pool, handshake) ==
      r.(keys := R.Opened(r.keys, n.epoch), queue := if t.message.sequence < r.assembly.next then R.Queue(r.queue, n) else r.queue)
  {
    hide Add, Packet, R.Opened;
    LeavesAlone(r.assembly, pool, t, n.epoch);
    assert Reassembly.Drain(r.assembly) == (r.assembly, []);
    hide Ready, Reassembly.Drain;
    assert r.delivered + [] == r.delivered;
  }

  // ----- and when it spoils -----

  /** Every byte of an accepted fragment is in the slot, as sent. */
  lemma {:induction false} FillShows(p: Slot, f: Fragment, i: nat)
    requires f.Fits() && |p.message.body| == f.total && i <= |f.body|
    ensures var (q, same) := Fill(p, f, i);
      && p.seen <= q.seen && (forall k :: k in p.seen && k < f.total ==> q.message.body[k] == p.message.body[k])
      && (same ==> forall k :: f.offset + i <= k < f.offset + |f.body| ==> k in q.seen && q.message.body[k] == f.body[k - f.offset])
    decreases |f.body| - i
  {
    if i < |f.body| {
      var k := f.offset + i;
      if k in p.seen {
        FillShows(p, f, i + 1);
      } else {
        FillShows(Slot(p.message.(body := p.message.body[k := f.body[i]]), p.seen + {k}), f, i + 1);
      }
    }
  }

  /** A slot that took the fragment and still matches a message means that the fragment is a slice of that message. */
  lemma TakenIsSlice(a: Assembly, pool: Pool, f: Fragment, epoch: nat, history: seq<Message>)
    requires f.Fits() && a.next <= f.sequence < |history| && Insert(a, pool, f, epoch).2.Accepted?
    requires forall k :: 0 <= k < |history| ==> history[k].sequence == k
    ensures f.sequence in Insert(a, pool, f, epoch).0.pending
    ensures var p := Insert(a, pool, f, epoch).0.pending[f.sequence];
      p.message == history[f.sequence] || Reassembly.Matches(p, history[f.sequence]) ==> Reassembly.IsSlice(f, epoch, history)
  {
    var slot := Open(a, f, epoch).pending[f.sequence];
    FillShows(slot, f, 0);
    var m, p := history[f.sequence], Insert(a, pool, f, epoch).0.pending[f.sequence];
    assert p == Fill(slot, f, 0).0 && Fill(slot, f, 0).1;
    hide Insert, Fill, Open;
    if p.message == m || Reassembly.Matches(p, m) {
      forall j | 0 <= j < |f.body| ensures m.body[f.offset + j] == f.body[j] { assert f.offset + j in p.seen; }
      assert m.body[f.offset..f.offset + |f.body|] == f.body;
    }
  }

  /** Draining delivers what the slots hold, and leaves the others alone. */
  lemma {:induction false} DrainTakes(a: Assembly, k: nat)
    requires k in a.pending && k >= a.next
    ensures var (b, out) := Reassembly.Drain(a);
      && |out| == b.next - a.next
      && (k < b.next ==> out[k - a.next] == a.pending[k].message)
      && (k >= b.next ==> k in b.pending && b.pending[k] == a.pending[k])
    decreases |a.pending|
  {
    if Ready(a) {
      Reassembly.PopSmaller(a);
      if k == a.next { DrainLength(Pop(a).1); } else { DrainTakes(Pop(a).1, k); }
    }
  }

  lemma {:induction false} DrainLength(a: Assembly)
    ensures var (b, out) := Reassembly.Drain(a); |out| == b.next - a.next
    decreases |a.pending|
  {
    if Ready(a) {
      Reassembly.PopSmaller(a);
      DrainLength(Pop(a).1);
    }
  }

  /** Exactly the misleading records spoil what the receiver holds, short of ending the session. */
  lemma HearSpoils(c: C.Channel, n: RecordNumber, t: Withdrawn, pool: Pool, handshake: nat)
    requires K.KeyInv(c) && c.r.alive && R.Opens(c.r.keys, n.epoch) && pool.Valid() && n in c.s.handed && n !in c.wire
    requires t.end <= |t.message.body| <= MAX_BODY
    ensures var d := Heard(c, n, t, pool, handshake); d.r.alive ==> (C.ReceiverHonest(d) <==> !Misleads(c, n, t, pool))
  {
    var d := Heard(c, n, t, pool, handshake);
    if !Misleads(c, n, t, pool) {
      HarmlessHear(c, n, t, pool, handshake);
    } else if d.r.alive && C.ReceiverHonest(d) {
      Spoiled(c, n, t, pool, handshake);
    }
  }

  lemma TakenIn(r: R.Receiver, n: RecordNumber, t: Withdrawn, pool: Pool, handshake: nat)
    requires t.end <= |t.message.body| <= MAX_BODY && t.message.sequence >= r.assembly.next
    requires R.Receive(r, n, Packet(t), pool, handshake).alive && !Add(r.assembly, pool, Packet(t), n.epoch).2.Dropped?
    ensures Slice(t.message, 0, t.end).Fits()
    ensures var (a, _, v) := Insert(r.assembly, pool, Slice(t.message, 0, t.end), n.epoch);
      var q := R.Receive(r, n, Packet(t), pool, handshake);
      && v.Accepted? && a.next == r.assembly.next && t.message.sequence in a.pending
      && q.assembly == Reassembly.Drain(a).0 && q.delivered == r.delivered + Reassembly.Drain(a).1
  {
    OneFragment(r.assembly, pool, t, n.epoch);
    hide Add, Packet, Fill, CanOpen, Reassembly.Drain, R.Process;
  }

  /** A slot that is not the sender's shows up in what is buffered or in what is delivered. */
  lemma AtOdds(a: Assembly, delivered: seq<Message>, history: seq<Message>, k: nat)
    requires k in a.pending && k >= a.next && |delivered| == a.next
    requires k < |history| ==> a.pending[k].message != history[k] && !Reassembly.Matches(a.pending[k], history[k])
    ensures var (b, out) := Reassembly.Drain(a); !(Reassembly.Consistent(b, history) && delivered + out == history[..b.next])
  {
    DrainTakes(a, k);
    hide Reassembly.Drain, Reassembly.Matches, Fragments.Valid;
    var (b, out) := Reassembly.Drain(a);
    assert k < b.next ==> (delivered + out)[k] == a.pending[k].message;
  }

  lemma Spoiled(c: C.Channel, n: RecordNumber, t: Withdrawn, pool: Pool, handshake: nat)
    requires C.ReceiverHonest(c) && t.end <= |t.message.body| <= MAX_BODY
    requires Misleads(c, n, t, pool) && Heard(c, n, t, pool, handshake).r.alive
    ensures !C.ReceiverHonest(Heard(c, n, t, pool, handshake))
  {
    hide Add, Insert, Reassembly.Drain, R.Receive, Reassembly.IsSlice, Reassembly.Matches, Fragments.Valid, Packet;
    var f, h, k := Slice(t.message, 0, t.end), c.s.history, t.message.sequence;
    TakenIn(c.r, n, t, pool, handshake);
    var a := Insert(c.r.assembly, pool, f, n.epoch).0;
    if k < |h| { TakenIsSlice(c.r.assembly, pool, f, n.epoch, h); }
    AtOdds(a, c.r.delivered, h, k);
  }

  // ----- whole runs -----

  /** The sender has no record of a withdrawn message; only its number is spent. */
  ghost predicate Unknown(c: C.Channel, n: RecordNumber, t: Withdrawn) {
    n in c.s.handed && n !in c.wire && t.end <= |t.message.body| <= MAX_BODY
  }

  ghost predicate Inv(w: World) {
    !w.misled ==> K.KeyInv(w.c) && forall n :: n in w.withdrawn ==> Unknown(w.c, n, w.withdrawn[n])
  }

  /** Records only ever go out under numbers that were not handed out before. */
  lemma NewNumbersOnly(c: C.Channel, step: C.Step)
    requires S.NumbersInv(c.s) && C.Enabled(c, step)
    ensures var d := C.Next(c, step);
      && (forall m :: m in c.s.handed ==> m in d.s.handed)
      && (forall m :: m in d.wire ==> m in c.wire || m !in c.s.handed)
  {
    if step.Unrecorded? {
      S.SpendKeeps(c.s, c.s.flights[step.key].items[step.part.message].message.epoch);
    } else if step.Local? {
      EmitsNewNumbers(c.s, step.event);
    }
    hide S.NumbersInv, Encode;
  }

  lemma EmitsNewNumbers(s: S.Sender, e: S.Event)
    requires S.NumbersInv(s) && S.Enabled(s, e)
    ensures forall m :: m in s.handed ==> m in S.Next(s, e).handed
    ensures C.Emits(s, e).Some? ==> C.Emits(s, e).value.0 !in s.handed
  {
    hide Encode;
    match e
    case BeginPost(_, _, _, _) => S.SpendKeeps(s, s.top);
    case SendPart(key, part, _, _) => S.SpendKeeps(s, s.flights[key].items[part.message].message.epoch);
    case SendOther(epoch) => S.SpendKeeps(s, epoch);
    case _ =>
    hide S.NumbersInv;
  }

  lemma CleanKeeps(w: World, step: C.Step)
    requires Inv(w) && C.Enabled(w.c, step)
    ensures Inv(Next(w, Clean(step)))
  {
    if !w.misled {
      K.StepFollows(w.c, step);
      NewNumbersOnly(w.c, step);
    }
    hide K.KeyInv, C.Next, C.Enabled;
  }

  /** Taking a message back is forgetting its type's last flight and losing a record number. */
  lemma TakenBackSteps(c: C.Channel, typ: byte, body: seq<byte>, interval: int, end: nat)
    requires S.Enabled(c.s, S.BeginPost(typ, body, interval, end))
    ensures var forgotten := c.(s := c.s.(flights := c.s.flights - {typ}));
      && (if typ in c.s.flights then C.Enabled(c, C.Local(S.Forget(typ))) && C.Next(c, C.Local(S.Forget(typ))) == forgotten
          else forgotten == c)
      && C.Enabled(forgotten, C.Local(S.LoseNumber(c.s.top)))
      && C.Next(forgotten, C.Local(S.LoseNumber(c.s.top))) == c.(s := TakenBack(c.s, typ))
  {
    assert typ !in c.s.flights ==> c.s.flights - {typ} == c.s.flights;
  }

  lemma TakenBackFollows(c: C.Channel, typ: byte, body: seq<byte>, interval: int, end: nat)
    requires K.KeyInv(c) && S.Enabled(c.s, S.BeginPost(typ, body, interval, end))
    ensures K.KeyInv(c.(s := TakenBack(c.s, typ)))
  {
    TakenBackSteps(c, typ, body, interval, end);
    hide K.KeyInv, C.Enabled, C.Next, TakenBack, S.Enabled;
    var forgotten := c.(s := c.s.(flights := c.s.flights - {typ}));
    if typ in c.s.flights { K.StepFollows(c, C.Local(S.Forget(typ))); }
    K.StepFollows(forgotten, C.Local(S.LoseNumber(c.s.top)));
  }

  lemma WithdrawKeeps(w: World, step: Step)
    requires Inv(w) && step.Withdraw? && Enabled(w, step)
    ensures Inv(Next(w, step))
  {
    if !w.misled {
      var n := S.NextNumber(w.c.s, w.c.s.top);
      TakenBackFollows(w.c, step.typ, step.body, step.interval, step.end);
      assert n !in w.c.s.handed by { S.SpendKeeps(w.c.s, w.c.s.top); }
      assert n !in w.c.wire;
      hide K.KeyInv;
      forall m | m in Next(w, step).withdrawn ensures Unknown(Next(w, step).c, m, Next(w, step).withdrawn[m]) {
        if m != n { assert Unknown(w.c, m, w.withdrawn[m]); }
      }
    }
  }

  lemma HearKeeps(w: World, step: Step)
    requires Inv(w) && step.Hear? && Enabled(w, step)
    ensures Inv(Next(w, step))
  {
    if !Next(w, step).misled {
      HarmlessHear(w.c, step.number, w.withdrawn[step.number], step.pool, step.handshake);
    }
    hide K.KeyInv;
  }

  lemma {:induction false} RunKeeps(w: World, steps: seq<Step>)
    requires Inv(w) && Run(w, steps).Some?
    ensures Inv(Run(w, steps).value)
    decreases |steps|
  {
    hide Inv;
    if steps != [] {
      match steps[0] {
        case Clean(e) => CleanKeeps(w, e);
        case Withdraw(_, _, _, _) => WithdrawKeeps(w, steps[0]);
        case Hear(_, _, _) => HearKeeps(w, steps[0]);
      }
      RunKeeps(Next(w, steps[0]), steps[1..]);
    }
  }

  /** As long as no withdrawn record has misled the receiver, all that holds without withdrawals still holds: what is delivered is
      a prefix of the sender's messages, acknowledged flights have arrived, and the reader has the keys the writer uses. */
  lemma AgreementUnlessMisled(steps: seq<Step>)
    requires Run(Initial(), steps).Some? && !Run(Initial(), steps).value.misled
    ensures var c := Run(Initial(), steps).value.c;
      && c.r.delivered <= c.s.history
      && (c.s.complete && c.r.alive ==>
            && c.s.top <= c.r.keys.app <= c.s.top + 1
            && c.s.top in c.r.keys.read && c.r.keys.app in c.r.keys.read
            && (c.r.keys.app > c.s.top ==> c.s.updating))
      && (forall key, j :: key in c.s.flights && 0 <= j < |c.s.flights[key].items| && Flights.AllAcknowledged(c.s.flights[key]) ==>
            K.Has(c, c.s.flights[key].items[j].message) || c.s.flights[key].items[j].message.sequence in c.doubt)
  {
    K.InitialInv();
    RunKeeps(Initial(), steps);
    var c := Run(Initial(), steps).value.c;
    K.Safe(c);
    forall key, j | key in c.s.flights && 0 <= j < |c.s.flights[key].items| && Flights.AllAcknowledged(c.s.flights[key])
      ensures K.Has(c, c.s.flights[key].items[j].message) || c.s.flights[key].items[j].message.sequence in c.doubt
    {
      K.Arrived(c, key, j);
    }
  }

  /** And in every such state, opening a withdrawn record keeps the receiver's buffers and deliveries the sender's own
      exactly when the record does not mislead. */
  lemma MisledExactly(steps: seq<Step>, n: RecordNumber, pool: Pool, handshake: nat)
    requires Run(Initial(), steps).Some? && !Run(Initial(), steps).value.misled
    requires Enabled(Run(Initial(), steps).value, Hear(n, pool, handshake))
    ensures var w := Run(Initial(), steps).value;
      var d := Next(w, Hear(n, pool, handshake));
      d.c.r.alive ==> (C.ReceiverHonest(d.c) <==> !d.misled)
  {
    K.InitialInv();
    RunKeeps(Initial(), steps);
    var w := Run(Initial(), steps).value;
    HearSpoils(w.c, n, w.withdrawn[n], pool, handshake);
  }
}
