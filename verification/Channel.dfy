/** Two endpoints of one direction of a session, over a network that loses, repeats and reorders records and acknowledgements. */
module Channel {
  import opened Wire
  import opened Bitmap
  import opened Budget
  import opened Fragments
  import opened Flights
  import Reassembly
  import S = Sending
  import R = Receiving

  datatype Payload = Carrying(data: seq<byte>) | Other

  /** wire holds every record that reached the network, and acks every number the receiver has acknowledged. A message is in doubt
      once an acknowledgement that the receiver never sent counted for it, or the receiver was evicted with part of it buffered. */
  datatype Channel = Channel(
    s: S.Sender, r: R.Receiver, wire: map<RecordNumber, Payload>, acks: set<RecordNumber>, doubt: set<nat>)

  ghost function Initial(): Channel {
    Channel(S.Initial(), R.Fresh(0), map[], {}, {})
  }

  datatype Step =
    | Local(event: S.Event)
    | Unrecorded(key: nat, part: Part, capacity: int, onlyNew: bool)
    | AckArrives(key: nat, number: RecordNumber, authenticated: bool)
    | Arrive(number: RecordNumber, pool: Pool, handshake: nat)
    | SendAcks(count: nat)
    | Remote(change: R.Event)

  ghost predicate Delivered(c: Channel, m: Message) {
    m.sequence < c.r.assembly.next
  }

  /** What a completed handshake means for this direction: the peer has its keys and saw every plaintext message. */
  ghost predicate PeerReady(c: Channel) {
    3 in c.r.keys.installed && forall k :: 0 <= k < |c.s.history| && c.s.history[k].epoch == 0 ==> k < c.r.assembly.next
  }

  ghost predicate Enabled(c: Channel, step: Step) {
    match step
    case Local(e) =>
      && S.Enabled(c.s, e) && !e.Acknowledged?
      && (e.Answered? ==>
            forall j :: 0 <= j < |c.s.flights[S.OUTBOUND].items| ==> Delivered(c, c.s.flights[S.OUTBOUND].items[j].message))
      && (e.HandshakeDone? ==> PeerReady(c))
    case Unrecorded(key, part, capacity, onlyNew) =>
      S.Enabled(c.s, S.SendPart(key, part, capacity, onlyNew)) && |c.s.flights[key].items[part.message].message.body| <= MAX_BODY
    case AckArrives(key, n, authenticated) =>
      S.Enabled(c.s, S.Acknowledged(key, n, authenticated)) && (authenticated ==> n in c.acks)
    case Arrive(n, pool, _) => n in c.wire && R.Opens(c.r.keys, n.epoch) && c.r.alive && pool.Valid()
    case SendAcks(count) => c.r.alive && count <= |c.r.queue|
    case Remote(e) => R.Enabled(c.r, e) && !e.Handshake? && !e.OtherRecord? && !e.SendAcks?
  }

  /** The record a local event puts on the network, if any. */
  ghost function Emits(s: S.Sender, e: S.Event): Option<(RecordNumber, Payload)>
    requires S.Enabled(s, e)
  {
    match e
    case BeginPost(typ, body, _, end) =>
      var m := S.PostMessage(s, typ, body);
      Some((S.NextNumber(s, s.top), Carrying(Encode(m, 0, end).value)))
    case SendPart(key, part, _, _) =>
      var m := s.flights[key].items[part.message].message;
      if |m.body| > MAX_BODY then None
      else Some((S.NextNumber(s, m.epoch), Carrying(Encode(m, part.start, part.end - part.start).value)))
    case SendOther(epoch) => Some((S.NextNumber(s, epoch), Other))
    case _ => None
  }

  /** The message an acknowledgement counts for although the receiver never sent it. */
  ghost function Doubted(c: Channel, f: FlightState, n: RecordNumber, authenticated: bool): set<nat>
    requires Flights.Valid(f)
  {
    if Counts(f, n, authenticated) && n !in c.acks then {f.items[f.sent[n].message].message.sequence as nat} else {}
  }

  ghost function Next(c: Channel, step: Step): Channel
    requires Enabled(c, step)
  {
    match step
    case Local(e) =>
      var out := Emits(c.s, e);
      c.(s := S.Next(c.s, e), wire := if out.Some? then c.wire[out.value.0 := out.value.1] else c.wire)
    case Unrecorded(key, part, _, _) =>
      // The transport reported an error, but the packet was sent.
      var m := c.s.flights[key].items[part.message].message;
      c.(s := S.Next(c.s, S.LoseNumber(m.epoch)),
         wire := c.wire[S.NextNumber(c.s, m.epoch) := Carrying(Encode(m, part.start, part.end - part.start).value)])
    case AckArrives(key, n, authenticated) =>
      c.(s := S.Next(c.s, S.Acknowledged(key, n, authenticated)), doubt := c.doubt + Doubted(c, c.s.flights[key], n, authenticated))
    case Arrive(n, pool, handshake) =>
      c.(r := if c.wire[n].Carrying? then R.Receive(c.r, n, c.wire[n].data, pool, handshake)
              else c.r.(keys := R.Opened(c.r.keys, n.epoch)))
    case SendAcks(count) =>
      c.(r := c.r.(queue := c.r.queue[count..]), acks := c.acks + set n | n in c.r.queue[..count])
    case Remote(e) => c.(r := R.Next(c.r, e), doubt := if e.Evicted? then c.doubt + c.r.assembly.pending.Keys else c.doubt)
  }

  ghost function Run(c: Channel, steps: seq<Step>): Option<Channel>
    decreases |steps|
  {
    if steps == [] then Some(c)
    else if Enabled(c, steps[0]) then Run(Next(c, steps[0]), steps[1..])
    else None
  }

  // ----- the delivery invariant -----

  ghost predicate WholeCovered(a: Assembly, m: Message) {
    Reassembly.Covers(a, m.sequence, 0, |m.body|)
  }

  /** Flights are made of numbered messages, and what they remember sending is on the wire. */
  ghost predicate FlightsKnown(c: Channel) {
    forall key :: key in c.s.flights ==> FlightKnown(c, c.s.flights[key])
  }

  ghost predicate FlightKnown(c: Channel, f: FlightState) {
    && (forall j :: 0 <= j < |f.items| ==>
          f.items[j].message.sequence < |c.s.history| && c.s.history[f.items[j].message.sequence] == f.items[j].message)
    && forall n :: n in f.sent ==> OnWire(c, f, n)
  }

  ghost predicate OnWire(c: Channel, f: FlightState, n: RecordNumber)
    requires n in f.sent
  {
    var part := f.sent[n];
    Within(f, part) && |f.items[part.message].message.body| <= MAX_BODY && n in c.wire &&
    c.wire[n] == Carrying(Encode(f.items[part.message].message, part.start, part.end - part.start).value)
  }

  ghost predicate WireHonest(c: Channel) {
    forall n :: n in c.wire ==>
      n in c.s.handed && (c.wire[n].Carrying? ==> Reassembly.Carries(c.wire[n].data, n.epoch, c.s.history))
  }

  ghost predicate ReceiverHonest(c: Channel) {
    && Reassembly.Numbered(c.s.history)
    && Reassembly.Consistent(c.r.assembly, c.s.history)
    && c.r.delivered == c.s.history[..c.r.assembly.next]
    && !Ready(c.r.assembly)
  }

  ghost predicate NumberCovered(c: Channel, n: RecordNumber) {
    n in c.s.handed && (n in c.wire ==> c.wire[n].Carrying? && forall f :: f in Split(c.wire[n].data).0 ==> Kept(c, f))
  }

  ghost predicate Kept(c: Channel, f: Fragment) {
    f.sequence in c.doubt || Reassembly.Covers(c.r.assembly, f.sequence, f.offset, f.offset + |f.body|)
  }

  /** Only records kept in full are ever acknowledged; an eviction can undo that only for messages then in doubt. */
  ghost predicate AcksHonest(c: Channel) {
    (forall n :: n in c.acks ==> NumberCovered(c, n)) && (forall n :: n in c.r.queue ==> NumberCovered(c, n))
  }

  ghost predicate Trusted(c: Channel, m: Message) {
    m.sequence !in c.doubt
  }

  /** Only plaintext is ever in doubt. */
  ghost predicate DoubtIsPlain(c: Channel) {
    forall k :: k in c.doubt ==> k < |c.s.history| && c.s.history[k].epoch == 0
  }

  /** A receiver without keys has opened nothing but plaintext. */
  ghost predicate Keyless(r: R.Receiver) {
    r.keys.installed == {} ==>
      && r.keys.read == {} && r.keys.app == 0 && !r.keys.complete
      && (forall k :: k in r.assembly.pending ==> r.assembly.pending[k].message.epoch == 0)
      && forall m :: m in r.delivered ==> m.epoch == 0
  }

  ghost predicate ItemCovered(a: Assembly, m: Item) {
    && (forall i :: i in m.acked ==> Reassembly.Covers(a, m.message.sequence, i, i + 1))
    && (m.emptyAcked ==> Reassembly.Covers(a, m.message.sequence, 0, 0))
  }

  ghost predicate AckedCovered(c: Channel) {
    forall key, j :: key in c.s.flights && 0 <= j < |c.s.flights[key].items| && Trusted(c, c.s.flights[key].items[j].message) ==>
      ItemCovered(c.r.assembly, c.s.flights[key].items[j])
  }

  ghost predicate Live(c: Channel, k: nat) {
    exists key, j :: key in c.s.flights && !c.s.flights[key].complete && 0 <= j < |c.s.flights[key].items|
                     && c.s.flights[key].items[j].message.sequence == k
  }

  /** Every message ever numbered is still owed by some flight, or the receiver has all of it. */
  ghost predicate NothingForgotten(c: Channel) {
    forall k :: 0 <= k < |c.s.history| && (c.s.complete || Trusted(c, c.s.history[k])) ==>
      Live(c, k) || WholeCovered(c.r.assembly, c.s.history[k])
  }

  ghost predicate Picture(c: Channel) {
    && FlightsKnown(c) && WireHonest(c) && ReceiverHonest(c) && AcksHonest(c)
    && AckedCovered(c) && NothingForgotten(c) && (c.s.complete ==> PeerReady(c)) && DoubtIsPlain(c) && Keyless(c.r)
  }

  ghost predicate DeliveryInv(c: Channel) {
    S.SenderInv(c.s) && Picture(c)
  }

  // ----- the receiver moves -----

  lemma GrowsCoversAll(a: Assembly, b: Assembly, fs: seq<Fragment>)
    requires Reassembly.Grows(a, b) && Reassembly.CoversAll(a, fs)
    ensures Reassembly.CoversAll(b, fs)
  {
    forall f | f in fs ensures Reassembly.Covers(b, f.sequence, f.offset, f.offset + |f.body|) {
      Reassembly.GrowsCovers(a, b, f.sequence, f.offset, f.offset + |f.body|);
    }
  }

  /** Whatever was covered stays covered when the receiver learns more. */
  lemma ReceiverLearns(c: Channel, r: R.Receiver)
    requires DeliveryInv(c) && Reassembly.Grows(c.r.assembly, r.assembly) && c.r.keys.installed <= r.keys.installed
    ensures var d := c.(r := r);
      && (forall n :: NumberCovered(c, n) ==> NumberCovered(d, n))
      && FlightsKnown(d) && WireHonest(d) && AckedCovered(d) && NothingForgotten(d) && (d.s.complete ==> PeerReady(d))
  {
    hide S.SenderInv, Split, Reassembly.Consistent, Flights.Valid, Ready, Reassembly.Grows, Reassembly.Covers;
    var a, b, d := c.r.assembly, r.assembly, c.(r := r);
    assert a.next <= b.next by { GrowsNext(a, b); }
    forall n | NumberCovered(c, n) ensures NumberCovered(d, n) {
      if n in d.wire {
        forall f | f in Split(c.wire[n].data).0 ensures Kept(d, f) { assert Kept(c, f); KeptGrows(c, d, f); }
      }
    }
    forall key, j | key in d.s.flights && 0 <= j < |d.s.flights[key].items| && Trusted(d, d.s.flights[key].items[j].message)
      ensures ItemCovered(b, d.s.flights[key].items[j])
    {
      assert Trusted(c, c.s.flights[key].items[j].message);
      ItemGrows(a, b, d.s.flights[key].items[j]);
    }
    forall k | 0 <= k < |d.s.history| && (d.s.complete || Trusted(d, d.s.history[k]))
      ensures Live(d, k) || WholeCovered(b, d.s.history[k])
    {
      assert Trusted(c, c.s.history[k]) == Trusted(d, d.s.history[k]);
      if Live(c, k) {
        LiveSame(c, d, k);
      } else {
        Reassembly.GrowsCovers(a, b, c.s.history[k].sequence, 0, |c.s.history[k].body|);
      }
    }
    FlightsKnownSame(c, d);
  }

  lemma KeptGrows(c: Channel, d: Channel, f: Fragment)
    requires Kept(c, f) && c.doubt <= d.doubt && Reassembly.Grows(c.r.assembly, d.r.assembly)
    ensures Kept(d, f)
  {
    if f.sequence !in c.doubt { Reassembly.GrowsCovers(c.r.assembly, d.r.assembly, f.sequence, f.offset, f.offset + |f.body|); }
  }

  lemma GrowsNext(a: Assembly, b: Assembly)
    requires Reassembly.Grows(a, b)
    ensures a.next <= b.next
  {
  }

  lemma ItemGrows(a: Assembly, b: Assembly, m: Item)
    requires Reassembly.Grows(a, b) && ItemCovered(a, m)
    ensures ItemCovered(b, m)
  {
  }

  lemma LiveSame(c: Channel, d: Channel, k: nat)
    requires Live(c, k) && c.s.flights == d.s.flights
    ensures Live(d, k)
  {
  }

  lemma FlightsKnownSame(c: Channel, d: Channel)
    requires FlightsKnown(c) && c.s.flights == d.s.flights && c.s.history <= d.s.history
    requires forall n :: n in c.wire ==> n in d.wire && d.wire[n] == c.wire[n]
    ensures FlightsKnown(d)
  {
    forall key | key in d.s.flights
      ensures FlightKnown(d, d.s.flights[key])
    {
      var f := d.s.flights[key];
      forall n | n in f.sent ensures OnWire(d, f, n) { assert OnWire(c, f, n); }
    }
  }

  /** What one carried record does to the receiver's books, whatever its messages do to its keys. */
  lemma ReceiveLearns(r: R.Receiver, n: RecordNumber, data: seq<byte>, pool: Pool, handshake: nat, history: seq<Message>)
    requires Reassembly.Numbered(history) && Reassembly.Consistent(r.assembly, history) && pool.Valid()
    requires r.delivered == history[..r.assembly.next] && Reassembly.Carries(data, n.epoch, history)
    ensures var t := R.Receive(r, n, data, pool, handshake);
      && Reassembly.Consistent(t.assembly, history) && Reassembly.Grows(r.assembly, t.assembly) && !Ready(t.assembly)
      && t.delivered == history[..t.assembly.next]
      && (t.queue == r.queue || (t.queue == r.queue + [n] && Reassembly.CoversAll(t.assembly, Split(data).0)))
  {
    hide Split, AddAll, Reassembly.Numbered, Reassembly.CoversAll, Reassembly.Grows, R.Process, Reassembly.Drain;
    Reassembly.AddCarried(r.assembly, pool, data, n.epoch, history);
    var (a, _, verdict) := Add(r.assembly, pool, data, n.epoch);
    Reassembly.DrainExact(a, history);
    var (b, out) := Reassembly.Drain(a);
    Reassembly.GrowsTwice(r.assembly, a, b);
    GrowsNext(a, b);
    if verdict.Accepted? { GrowsCoversAll(a, b, Split(data).0); }
    assert history[..a.next] + history[a.next..b.next] == history[..b.next];
  }

  lemma InstalledGrows(k: R.ReadSide, out: seq<Message>, handshake: nat)
    ensures R.Process(k, out, handshake).Some? ==> k.installed <= R.Process(k, out, handshake).value.installed
    decreases |out|
  {
  }

  lemma ArriveKeeps(c: Channel, n: RecordNumber, pool: Pool, handshake: nat)
    requires DeliveryInv(c) && Enabled(c, Arrive(n, pool, handshake))
    ensures DeliveryInv(Next(c, Arrive(n, pool, handshake)))
  {
    if c.wire[n].Other? {
      StaleKeeps(c, n, false);
    } else {
      assert n in c.s.handed && Reassembly.Carries(c.wire[n].data, n.epoch, c.s.history);
      ReceiveKeeps(c, n, c.wire[n].data, pool, handshake);
    }
    hide DeliveryInv;
  }

  /** Taking in a record of numbered messages, whether or not the sender knows that it went out. */
  lemma ReceiveKeeps(c: Channel, n: RecordNumber, data: seq<byte>, pool: Pool, handshake: nat)
    requires DeliveryInv(c) && Reassembly.Carries(data, n.epoch, c.s.history) && pool.Valid() && R.Opens(c.r.keys, n.epoch)
    requires n in c.s.handed && (n in c.wire ==> c.wire[n] == Carrying(data))
    ensures DeliveryInv(c.(r := R.Receive(c.r, n, data, pool, handshake)))
  {
    hide S.SenderInv, Split, AddAll, Reassembly.Consistent, Reassembly.Drain, R.Process, Reassembly.Grows, NumberCovered, Keyless, Reassembly.Carries;
    var d := c.(r := R.Receive(c.r, n, data, pool, handshake));
    ReceiveLearns(c.r, n, data, pool, handshake, c.s.history);
    InstalledGrows(R.Opened(c.r.keys, n.epoch), Reassembly.Drain(Add(c.r.assembly, pool, data, n.epoch).0).1, handshake);
    ReceiverLearns(c, d.r);
    assert forall m :: m in d.r.queue && m !in c.r.queue ==> m == n;
    if d.r.queue != c.r.queue { NewNumberCovered(d, n, data); }
    KeylessArrives(c.r, n, Carrying(data), pool, handshake);
  }

  /** Opening a record that changes nothing the receiver holds, and acknowledging it or not. */
  ghost function Stale(c: Channel, n: RecordNumber, queued: bool): Channel {
    c.(r := c.r.(keys := R.Opened(c.r.keys, n.epoch), queue := if queued then R.Queue(c.r.queue, n) else c.r.queue))
  }

  /** It may be acknowledged as long as the sender cannot know its number. */
  lemma StaleKeeps(c: Channel, n: RecordNumber, queued: bool)
    requires DeliveryInv(c) && R.Opens(c.r.keys, n.epoch) && (queued ==> n in c.s.handed && n !in c.wire)
    ensures DeliveryInv(Stale(c, n, queued))
  {
    assert Keyless(Stale(c, n, queued).r);
    hide S.SenderInv, Reassembly.Consistent, Keyless, Split, FlightsKnown, AckedCovered, NothingForgotten;
    GrowsSelf(c.r.assembly);
    ReceiverLearns(c, Stale(c, n, queued).r);
  }

  lemma {:induction false} ProcessKeyless(k: R.ReadSide, out: seq<Message>, handshake: nat)
    requires !k.complete && R.Process(k, out, handshake).Some? && R.Process(k, out, handshake).value.installed == {}
    ensures R.Process(k, out, handshake).value == k
    decreases |out|
  {
    if out != [] {
      if handshake == 0 {
        assert 3 in R.ReceivePost(R.Complete(k), out[0]).value.installed;
        InstalledGrows(R.ReceivePost(R.Complete(k), out[0]).value, out[1..], 0);
      } else {
        ProcessKeyless(k, out[1..], handshake - 1);
      }
    }
  }

  lemma KeylessArrives(r: R.Receiver, n: RecordNumber, payload: Payload, pool: Pool, handshake: nat)
    requires Keyless(r) && R.Opens(r.keys, n.epoch)
    ensures Keyless(if payload.Carrying? then R.Receive(r, n, payload.data, pool, handshake) else r.(keys := R.Opened(r.keys, n.epoch)))
  {
    var keys := R.Opened(r.keys, n.epoch);
    if payload.Carrying? && r.keys.installed == {} {
      var data := payload.data;
      R.AddAllEpochs(r.assembly, pool, Split(data).0, n.epoch);
      var (a, _, verdict) := Add(r.assembly, pool, data, n.epoch);
      hide Split, AddAll, Reassembly.Drain, R.Process;
      assert forall k :: k in a.pending ==> a.pending[k].message.epoch == 0;
      R.DrainEpochs(a);
      var (b, out) := Reassembly.Drain(a);
      var t := R.Process(keys, out, handshake);
      if t.Some? && t.value.installed == {} { ProcessKeyless(keys, out, handshake); }
    } else if payload.Carrying? {
      var (a, _, verdict) := Add(r.assembly, pool, payload.data, n.epoch);
      hide Split, AddAll, Reassembly.Drain, R.Process;
      InstalledGrows(keys, Reassembly.Drain(a).1, handshake);
    }
  }

  lemma NewNumberCovered(c: Channel, n: RecordNumber, data: seq<byte>)
    requires n in c.s.handed && (n in c.wire ==> c.wire[n] == Carrying(data)) && Reassembly.CoversAll(c.r.assembly, Split(data).0)
    ensures NumberCovered(c, n)
  {
  }

  lemma GrowsSelf(a: Assembly)
    ensures Reassembly.Grows(a, a)
  {
  }

  lemma SendAcksKeeps(c: Channel, count: nat)
    requires DeliveryInv(c) && Enabled(c, SendAcks(count))
    ensures DeliveryInv(Next(c, SendAcks(count)))
  {
    var d := Next(c, SendAcks(count));
    GrowsSelf(c.r.assembly);
    ReceiverLearns(c, d.r);
    hide S.SenderInv, Split, Reassembly.Consistent, Reassembly.Grows, NothingForgotten, AckedCovered, FlightsKnown;
    AcksOnly(c.(r := d.r), d);
    forall n | n in d.acks ensures NumberCovered(d, n) {
      assert n in c.acks || n in c.r.queue;
    }
  }

  /** Apart from the acknowledgements themselves, nothing looks at which were sent. */
  lemma AcksOnly(c: Channel, d: Channel)
    requires d == c.(acks := d.acks)
    requires FlightsKnown(c) && AckedCovered(c) && NothingForgotten(c)
    ensures FlightsKnown(d) && AckedCovered(d) && NothingForgotten(d)
    ensures forall n :: NumberCovered(c, n) ==> NumberCovered(d, n)
  {
    FlightsKnownSame(c, d);
    forall k | 0 <= k < |d.s.history| && Live(c, k) ensures Live(d, k) { LiveSame(c, d, k); }
    assert forall m :: Trusted(c, m) == Trusted(d, m);
  }

  lemma RemoteKeeps(c: Channel, e: R.Event)
    requires DeliveryInv(c) && Enabled(c, Remote(e))
    ensures DeliveryInv(Next(c, Remote(e)))
  {
    if e.Evicted? {
      EvictKeeps(c);
    } else {
      var d := Next(c, Remote(e));
      assert Keyless(d.r);
      hide S.SenderInv, Split, Reassembly.Consistent, Reassembly.Grows, NothingForgotten, AckedCovered, FlightsKnown, Keyless;
      assert d.r.assembly == c.r.assembly && d.r.queue == c.r.queue && d.r.delivered == c.r.delivered && d == c.(r := d.r);
      GrowsSelf(c.r.assembly);
      ReceiverLearns(c, d.r);
    }
  }

  /** Whatever an eviction drops is in doubt from then on; everything delivered stays delivered. */
  lemma EvictKeeps(c: Channel)
    requires DeliveryInv(c) && Enabled(c, Remote(R.Evicted))
    ensures DeliveryInv(Next(c, Remote(R.Evicted)))
  {
    var d := Next(c, Remote(R.Evicted));
    assert !c.s.complete;
    assert d == c.(r := d.r, doubt := c.doubt + c.r.assembly.pending.Keys) && d.r.assembly == Assembly(c.r.assembly.next, map[], 0);
    EvictedReceiver(c);
    hide S.SenderInv, Next, Enabled, Split, Reassembly.Carries, Ready, Fragments.Valid;
    FlightsKnownSame(c, d);
    forall n | n in d.acks ensures NumberCovered(d, n) {
      assert NumberCovered(c, n);
      if n in d.wire {
        forall f | f in Split(d.wire[n].data).0 ensures Kept(d, f) { assert Kept(c, f); }
      }
    }
    forall key, j | key in d.s.flights && 0 <= j < |d.s.flights[key].items| && Trusted(d, d.s.flights[key].items[j].message)
      ensures ItemCovered(d.r.assembly, d.s.flights[key].items[j])
    {
      assert Trusted(c, c.s.flights[key].items[j].message) && ItemCovered(c.r.assembly, c.s.flights[key].items[j]);
      ItemEvicted(c.r.assembly, d.r.assembly, c.s.flights[key].items[j]);
    }
    forall k | 0 <= k < |d.s.history| && Trusted(d, d.s.history[k]) ensures Live(d, k) || WholeCovered(d.r.assembly, d.s.history[k]) {
      assert Trusted(c, c.s.history[k]) && (Live(c, k) || WholeCovered(c.r.assembly, c.s.history[k]));
      if Live(c, k) { LiveSame(c, d, k); }
    }
  }

  ghost predicate Uncounted(c: Channel, m: Item) {
    Trusted(c, m.message) && m.message.sequence in c.r.assembly.pending ==> m.acked == {} && !m.emptyAcked
  }

  ghost predicate NoneBuffered(c: Channel, n: RecordNumber) {
    n in c.wire && c.wire[n].Carrying? ==> forall f :: f in Split(c.wire[n].data).0 ==> f.sequence in c.doubt || f.sequence !in c.r.assembly.pending
  }

  /** No byte that is only buffered has been acknowledged: none counts as acknowledged, and no acknowledgement of one is on its way. */
  ghost predicate NothingAcknowledged(c: Channel) {
    && (forall key, j :: key in c.s.flights && 0 <= j < |c.s.flights[key].items| ==> Uncounted(c, c.s.flights[key].items[j]))
    && forall n :: n in c.acks ==> NoneBuffered(c, n)
  }

  /** An eviction takes back bytes that were acknowledged exactly when some byte it drops had been. */
  lemma EvictionLosesExactly(c: Channel)
    requires DeliveryInv(c) && Enabled(c, Remote(R.Evicted))
    ensures var d := c.(r := R.Next(c.r, R.Evicted)); AckedCovered(d) && AcksHonest(d) <==> NothingAcknowledged(c)
  {
    var d := c.(r := R.Next(c.r, R.Evicted));
    assert d.r.assembly == Assembly(c.r.assembly.next, map[], 0) && d.r.queue == [];
    assert forall k :: k in c.r.assembly.pending ==> k >= c.r.assembly.next;
    hide S.SenderInv, Enabled, R.Next, Split, Reassembly.Consistent, Ready, FlightsKnown, WireHonest, NothingForgotten, PeerReady;
    forall key, j | key in c.s.flights && 0 <= j < |c.s.flights[key].items|
      ensures (Trusted(d, d.s.flights[key].items[j].message) ==> ItemCovered(d.r.assembly, d.s.flights[key].items[j])) <==>
              Uncounted(c, c.s.flights[key].items[j])
    {
      ItemLoses(c, d, c.s.flights[key].items[j], key, j);
    }
    forall n | n in c.acks ensures NumberCovered(d, n) <==> NoneBuffered(c, n) {
      assert NumberCovered(c, n);
      NumberLoses(c, d, n);
    }
  }

  lemma ItemLoses(c: Channel, d: Channel, m: Item, key: nat, j: nat)
    requires d == c.(r := d.r) && d.r.assembly == Assembly(c.r.assembly.next, map[], 0) && AckedCovered(c)
    requires forall k :: k in c.r.assembly.pending ==> k >= c.r.assembly.next
    requires key in c.s.flights && 0 <= j < |c.s.flights[key].items| && m == c.s.flights[key].items[j]
    ensures (Trusted(d, m.message) ==> ItemCovered(d.r.assembly, m)) <==> Uncounted(c, m)
  {
    if Trusted(c, m.message) { assert ItemCovered(c.r.assembly, m); }
  }

  lemma NumberLoses(c: Channel, d: Channel, n: RecordNumber)
    requires d == c.(r := d.r) && d.r.assembly == Assembly(c.r.assembly.next, map[], 0) && NumberCovered(c, n)
    requires forall k :: k in c.r.assembly.pending ==> k >= c.r.assembly.next
    ensures NumberCovered(d, n) <==> NoneBuffered(c, n)
  {
    hide Split;
    if n in c.wire {
      forall f | f in Split(c.wire[n].data).0 ensures Kept(d, f) <==> f.sequence in c.doubt || f.sequence !in c.r.assembly.pending {
        assert Kept(c, f);
      }
    }
  }

  lemma ItemEvicted(a: Assembly, b: Assembly, m: Item)
    requires ItemCovered(a, m) && m.message.sequence !in a.pending && b.next == a.next
    ensures ItemCovered(b, m)
  {
  }

  lemma EvictedReceiver(c: Channel)
    requires ReceiverHonest(c) && Keyless(c.r) && c.r.keys.installed == {} && DoubtIsPlain(c)
    ensures var d := c.(r := R.Next(c.r, R.Evicted), doubt := c.doubt + c.r.assembly.pending.Keys);
      ReceiverHonest(d) && Keyless(d.r) && DoubtIsPlain(d)
  {
    Reassembly.Cleared(c.r.assembly);
    forall k | k in c.r.assembly.pending ensures k < |c.s.history| && c.s.history[k].epoch == 0 {
      assert Reassembly.Matches(c.r.assembly.pending[k], c.s.history[k]);
    }
  }

  // ----- the sender moves -----

  ghost predicate SameMessages(f: FlightState, g: FlightState) {
    |f.items| == |g.items| && forall j :: 0 <= j < |f.items| ==> f.items[j].message == g.items[j].message
  }

  /** Replacing a live flight by a live one of the same messages forgets nothing. */
  lemma LiveReplaced(c: Channel, d: Channel, key: nat, k: nat)
    requires key in c.s.flights && key in d.s.flights && d.s.flights == c.s.flights[key := d.s.flights[key]]
    requires SameMessages(c.s.flights[key], d.s.flights[key]) && c.s.flights[key].complete == d.s.flights[key].complete
    requires Live(c, k)
    ensures Live(d, k)
  {
    var other, j :| other in c.s.flights && !c.s.flights[other].complete && 0 <= j < |c.s.flights[other].items|
                    && c.s.flights[other].items[j].message.sequence == k;
    assert other in d.s.flights && d.s.flights[other].items[j].message.sequence == k;
  }

  /** An acknowledged record that the flight remembers proves its part arrived. */
  lemma AckedPartCovered(c: Channel, f: FlightState, n: RecordNumber)
    requires NumberCovered(c, n) && n in f.sent && OnWire(c, f, n) && Reassembly.Numbered(c.s.history)
    requires Trusted(c, f.items[f.sent[n].message].message)
    requires var m := f.items[f.sent[n].message].message; m.sequence < |c.s.history| && c.s.history[m.sequence] == m
    ensures Reassembly.Covers(c.r.assembly, f.items[f.sent[n].message].message.sequence, f.sent[n].start, f.sent[n].end)
  {
    hide Encode, Split, Reassembly.Carries, Reassembly.Numbered;
    var part := f.sent[n];
    var m := f.items[part.message].message;
    Reassembly.EncodedCarries(m, part.start, part.end, c.s.history);
    assert Slice(m, part.start, part.end - part.start) in Split(c.wire[n].data).0;
    assert Kept(c, Slice(m, part.start, part.end - part.start));
  }

  lemma ItemAcked(a: Assembly, m: Item, start: nat, end: nat)
    requires ItemCovered(a, m) && start <= end <= m.Length() && Reassembly.Covers(a, m.message.sequence, start, end)
    ensures ItemCovered(a, MarkAcked(m, start, end))
  {
    var p := MarkAcked(m, start, end);
    forall i | i in p.acked ensures Reassembly.Covers(a, m.message.sequence, i, i + 1) {
      if i !in m.acked { assert i in Range(start, end); }
    }
  }

  lemma AckKeeps(c: Channel, key: nat, n: RecordNumber, authenticated: bool)
    requires DeliveryInv(c) && Enabled(c, AckArrives(key, n, authenticated))
    ensures DeliveryInv(Next(c, AckArrives(key, n, authenticated)))
  {
    var d := Next(c, AckArrives(key, n, authenticated));
    S.StepKeeps(c.s, S.Acknowledged(key, n, authenticated));
    AckFacts(c, key, n, authenticated);
    hide S.SenderInv, Doubted, AckOne;
    AckItems(c, d, key, n, authenticated);
    hide FlightsKnown, WireHonest, ReceiverHonest, AckedCovered, AcksHonest, NothingForgotten, Next, Enabled, AckOne, Flights.Valid,
         Keyless, DoubtIsPlain;
    AckFlightsKnown(c, d, key);
    SenderOnly(c, d, key);
  }

  lemma AckFacts(c: Channel, key: nat, n: RecordNumber, authenticated: bool)
    requires DeliveryInv(c) && Enabled(c, AckArrives(key, n, authenticated))
    ensures var d := Next(c, AckArrives(key, n, authenticated)); var f := c.s.flights[key]; var g := AckOne(f, n, authenticated).0;
      && d == c.(s := c.s.(flights := c.s.flights[key := g]), doubt := d.doubt) && d.s == S.Next(c.s, S.Acknowledged(key, n, authenticated))
      && d.doubt == c.doubt + Doubted(c, f, n, authenticated) && Flights.Valid(f) && DoubtIsPlain(d) && SameMessages(f, g) && g.complete == f.complete
      && (forall m :: m in g.sent ==> m in f.sent && g.sent[m] == f.sent[m])
  {
    hide DeliveryInv, AckOne, Doubted;
    var d, f := Next(c, AckArrives(key, n, authenticated)), c.s.flights[key];
    AckShape(f, n, authenticated);
    assert d.doubt == c.doubt + Doubted(c, f, n, authenticated);
    hide Next, Enabled;
    DoubtedPlain(c, key, n, authenticated);
  }

  lemma DoubtedPlain(c: Channel, key: nat, n: RecordNumber, authenticated: bool)
    requires DeliveryInv(c) && key in c.s.flights && Flights.Valid(c.s.flights[key]) && (authenticated ==> n in c.acks)
    ensures DoubtIsPlain(c) && forall k :: k in Doubted(c, c.s.flights[key], n, authenticated) ==> k < |c.s.history| && c.s.history[k].epoch == 0
  {
    hide S.SenderInv, WireHonest, ReceiverHonest, AckedCovered, AcksHonest, NothingForgotten, Keyless, OnWire, Range;
    var f := c.s.flights[key];
    if Counts(f, n, authenticated) { assert WentOut(f, n, f.sent[n]); }
  }

  /** Replacing a flight by one of the same messages leaves the rest of the picture as it was. */
  lemma SenderOnly(c: Channel, d: Channel, key: nat)
    requires WireHonest(c) && ReceiverHonest(c) && AcksHonest(c) && NothingForgotten(c) && (c.s.complete ==> PeerReady(c))
    requires d.r == c.r && d.wire == c.wire && d.acks == c.acks && c.doubt <= d.doubt
    requires key in c.s.flights && key in d.s.flights && d.s == c.s.(flights := c.s.flights[key := d.s.flights[key]])
    requires SameMessages(c.s.flights[key], d.s.flights[key]) && c.s.flights[key].complete == d.s.flights[key].complete
    ensures WireHonest(d) && ReceiverHonest(d) && AcksHonest(d) && NothingForgotten(d) && (d.s.complete ==> PeerReady(d))
  {
    hide Split, Reassembly.Consistent, Reassembly.Numbered, Reassembly.Covers, Reassembly.Carries, Reassembly.CoversAll, Ready;
    forall k | 0 <= k < |d.s.history| && (d.s.complete || Trusted(d, d.s.history[k]))
      ensures Live(d, k) || WholeCovered(d.r.assembly, d.s.history[k])
    {
      assert d.s.complete || Trusted(c, c.s.history[k]);
      if Live(c, k) { LiveReplaced(c, d, key, k); }
    }
    forall n | NumberCovered(c, n) ensures NumberCovered(d, n) { }
  }

  lemma AckShape(f: FlightState, n: RecordNumber, authenticated: bool)
    requires Flights.Valid(f)
    ensures var g := AckOne(f, n, authenticated).0;
      && SameMessages(f, g) && g.complete == f.complete
      && (forall m :: m in g.sent ==> m in f.sent && g.sent[m] == f.sent[m])
  {
  }

  lemma FlightShrinks(c: Channel, d: Channel, f: FlightState, g: FlightState)
    requires FlightKnown(c, f) && d.s.history == c.s.history && d.wire == c.wire && SameMessages(f, g)
    requires forall m :: m in g.sent ==> m in f.sent && g.sent[m] == f.sent[m]
    ensures FlightKnown(d, g)
  {
    hide Encode;
    forall n | n in g.sent ensures OnWire(d, g, n) { assert OnWire(c, f, n); }
  }

  lemma AckFlightsKnown(c: Channel, d: Channel, key: nat)
    requires FlightsKnown(c) && key in c.s.flights && key in d.s.flights
    requires d.s.flights == c.s.flights[key := d.s.flights[key]] && d.s.history == c.s.history && d.wire == c.wire
    requires SameMessages(c.s.flights[key], d.s.flights[key])
    requires forall m :: m in d.s.flights[key].sent ==>
      m in c.s.flights[key].sent && d.s.flights[key].sent[m] == c.s.flights[key].sent[m]
    ensures FlightsKnown(d)
  {
    hide FlightKnown, SameMessages;
    forall other | other in d.s.flights ensures FlightKnown(d, d.s.flights[other]) {
      if other != key { SameMessagesSelf(c.s.flights[other]); }
      FlightShrinks(c, d, c.s.flights[other], d.s.flights[other]);
    }
  }

  lemma SameMessagesSelf(f: FlightState)
    ensures SameMessages(f, f)
  {
  }

  lemma AckItem(c: Channel, f: FlightState, n: RecordNumber, authenticated: bool, j: nat)
    requires Flights.Valid(f) && FlightKnown(c, f) && Reassembly.Numbered(c.s.history) && j < |f.items|
    requires (n in c.acks ==> NumberCovered(c, n)) && ItemCovered(c.r.assembly, f.items[j])
    requires f.items[j].message.sequence !in c.doubt + Doubted(c, f, n, authenticated)
    ensures var g := AckOne(f, n, authenticated).0; ItemCovered(c.r.assembly, g.items[j])
  {
    hide Encode, Reassembly.Numbered, Reassembly.Covers, ItemCovered, NumberCovered, OnWire;
    if Counts(f, n, authenticated) && f.sent[n].message == j {
      assert WentOut(f, n, f.sent[n]) && OnWire(c, f, n);
      AckedPartCovered(c, f, n);
      ItemAcked(c.r.assembly, f.items[j], f.sent[n].start, f.sent[n].end);
    }
  }

  /** After the acknowledgement, every trusted item's acknowledged bytes are still ones the receiver has. */
  lemma AckItems(c: Channel, d: Channel, key: nat, n: RecordNumber, authenticated: bool)
    requires Picture(c) && key in c.s.flights && Flights.Valid(c.s.flights[key]) && d.r == c.r
    requires d.s.flights == c.s.flights[key := AckOne(c.s.flights[key], n, authenticated).0]
    requires d.doubt == c.doubt + Doubted(c, c.s.flights[key], n, authenticated)
    ensures AckedCovered(d)
  {
    var f := c.s.flights[key];
    AckShape(f, n, authenticated);
    hide ItemCovered, AckOne, Flights.Valid, NumberCovered, FlightKnown, Doubted, NothingForgotten, WireHonest, Keyless, DoubtIsPlain,
         Reassembly.Numbered, Reassembly.Consistent, Ready, PeerReady;
    forall other, j | other in d.s.flights && 0 <= j < |d.s.flights[other].items| && Trusted(d, d.s.flights[other].items[j].message)
      ensures ItemCovered(d.r.assembly, d.s.flights[other].items[j])
    {
      assert Trusted(c, c.s.flights[other].items[j].message);
      if other == key { AckItem(c, f, n, authenticated, j); }
    }
  }

  /** A new record on the wire, carrying only numbered messages, changes nothing that was known. */
  lemma WireGrows(c: Channel, d: Channel, n: RecordNumber)
    requires Picture(c) && n !in c.s.handed && n in d.wire && d.wire == c.wire[n := d.wire[n]]
    requires d.wire[n].Carrying? ==> Reassembly.Carries(d.wire[n].data, n.epoch, c.s.history)
    requires d.r == c.r && d.acks == c.acks && d.doubt == c.doubt
    requires d.s.history == c.s.history && d.s.flights == c.s.flights && d.s.complete == c.s.complete
    requires n in d.s.handed && forall m :: m in c.s.handed ==> m in d.s.handed
    ensures Picture(d)
  {
    hide Split, Reassembly.Consistent, Reassembly.Numbered, Reassembly.Covers, Reassembly.Carries, Reassembly.CoversAll, Ready;
    FlightsKnownSame(c, d);
    forall m | NumberCovered(c, m) ensures NumberCovered(d, m) { }
    forall k | 0 <= k < |d.s.history| && Live(c, k) ensures Live(d, k) { LiveSame(c, d, k); }
    assert forall m :: Trusted(c, m) == Trusted(d, m);
  }

  lemma StillOnWire(c: Channel, d: Channel, f: FlightState, x: RecordNumber)
    requires x in f.sent && OnWire(c, f, x) && d.wire == c.wire
    ensures OnWire(d, f, x)
  {
  }

  lemma NotedOnWire(c: Channel, d: Channel, f: FlightState, n: RecordNumber, part: Part, x: RecordNumber)
    requires Within(f, part) && n !in f.sent && n in c.wire && d.wire == c.wire
    requires var m := f.items[part.message].message;
      |m.body| <= MAX_BODY && c.wire[n] == Carrying(Encode(m, part.start, part.end - part.start).value)
    requires x in Note(f, Sending(n, part)).sent && (x != n ==> OnWire(c, f, x))
    ensures OnWire(d, Note(f, Sending(n, part)), x)
  {
    hide Encode, Range;
  }

  lemma NoteFlightsKnown(c: Channel, d: Channel, key: nat, n: RecordNumber, part: Part)
    requires FlightsKnown(c) && key in c.s.flights && Within(c.s.flights[key], part) && n in c.wire && n !in c.s.flights[key].sent
    requires d.s.flights == c.s.flights[key := Note(c.s.flights[key], Sending(n, part))]
    requires d.s.history == c.s.history && d.wire == c.wire
    requires var m := c.s.flights[key].items[part.message].message;
      |m.body| <= MAX_BODY && c.wire[n] == Carrying(Encode(m, part.start, part.end - part.start).value)
    ensures FlightsKnown(d)
  {
    hide Encode, OnWire, Range;
    forall other | other in d.s.flights
      ensures FlightKnown(d, d.s.flights[other])
    {
      var f := d.s.flights[other];
      forall x | x in f.sent ensures OnWire(d, f, x) {
        if other == key { NotedOnWire(c, d, c.s.flights[key], n, part, x); } else { StillOnWire(c, d, f, x); }
      }
    }
  }

  lemma NoteItems(c: Channel, d: Channel, key: nat, n: RecordNumber, part: Part)
    requires AckedCovered(c) && key in c.s.flights && Within(c.s.flights[key], part)
    requires d.s.flights == c.s.flights[key := Note(c.s.flights[key], Sending(n, part))]
    requires d.r == c.r && d.doubt == c.doubt
    ensures AckedCovered(d)
  {
    hide Reassembly.Covers;
    forall other, j | other in d.s.flights && 0 <= j < |d.s.flights[other].items| && Trusted(d, d.s.flights[other].items[j].message)
      ensures ItemCovered(d.r.assembly, d.s.flights[other].items[j])
    {
      assert Trusted(c, c.s.flights[other].items[j].message);
      assert ItemCovered(c.r.assembly, c.s.flights[other].items[j]);
    }
  }

  lemma SendPartShape(c: Channel, key: nat, part: Part, capacity: int, onlyNew: bool)
    requires Enabled(c, Local(S.SendPart(key, part, capacity, onlyNew)))
    requires |c.s.flights[key].items[part.message].message.body| <= MAX_BODY
    ensures var f := c.s.flights[key];
      var m := f.items[part.message].message;
      var d := Next(c, Local(S.SendPart(key, part, capacity, onlyNew)));
      && m.epoch in c.s.write && S.CanNumber(c.s, m.epoch)
      && d == c.(s := S.Spend(c.s, m.epoch).(flights := c.s.flights[key := Note(f, Sending(S.NextNumber(c.s, m.epoch), part))]),
                 wire := c.wire[S.NextNumber(c.s, m.epoch) := Carrying(Encode(m, part.start, part.end - part.start).value)])
      && SameMessages(f, d.s.flights[key]) && f.complete == d.s.flights[key].complete
  {
    hide Encode;
  }

  lemma SendPartFacts(c: Channel, key: nat, part: Part)
    requires DeliveryInv(c) && key in c.s.flights && Within(c.s.flights[key], part)
    requires S.CanNumber(c.s, c.s.flights[key].items[part.message].message.epoch)
    ensures var m := c.s.flights[key].items[part.message].message;
      var n := S.NextNumber(c.s, m.epoch);
      && |m.body| <= MAX_BODY && n !in c.wire && n !in c.s.handed && n !in c.s.flights[key].sent
      && Reassembly.Carries(Encode(m, part.start, part.end - part.start).value, n.epoch, c.s.history)
  {
    hide Reassembly.Carries, Encode, Split, Reassembly.Consistent, AcksHonest, AckedCovered, NothingForgotten;
    var m := c.s.flights[key].items[part.message].message;
    assert c.s.flights[key].items[part.message].Valid();
    S.SpendKeeps(c.s, m.epoch);
    Reassembly.EncodedCarries(m, part.start, part.end, c.s.history);
  }

  lemma SendPartKeeps(c: Channel, key: nat, part: Part, capacity: int, onlyNew: bool)
    requires DeliveryInv(c) && Enabled(c, Local(S.SendPart(key, part, capacity, onlyNew)))
    ensures DeliveryInv(Next(c, Local(S.SendPart(key, part, capacity, onlyNew))))
  {
    var e := S.SendPart(key, part, capacity, onlyNew);
    S.StepKeeps(c.s, e);
    var d := Next(c, Local(e));
    assert d.s == S.Next(c.s, e);
    var f := c.s.flights[key];
    var m := f.items[part.message].message;
    SendPartFacts(c, key, part);
    SendPartShape(c, key, part, capacity, onlyNew);
    hide S.SenderInv, FlightsKnown, WireHonest, ReceiverHonest, AckedCovered, AcksHonest, NothingForgotten, Next, Enabled,
         Flights.Valid, Encode, Reassembly.Carries, Split, S.Next, S.Enabled, Note, SameMessages;
    var n := S.NextNumber(c.s, m.epoch);
    var mid := c.(s := S.Spend(c.s, m.epoch), wire := d.wire);
    WireGrows(c, mid, n);
    NoteFlightsKnown(mid, d, key, n, part);
    NoteItems(mid, d, key, n, part);
    SenderOnly(mid, d, key);
  }

  /** A part that went out although its send failed is one more record of a numbered message. */
  lemma UnrecordedKeeps(c: Channel, key: nat, part: Part, capacity: int, onlyNew: bool)
    requires DeliveryInv(c) && Enabled(c, Unrecorded(key, part, capacity, onlyNew))
    ensures DeliveryInv(Next(c, Unrecorded(key, part, capacity, onlyNew)))
  {
    hide S.SenderInv, Encode, Picture, S.Spend;
    var m := c.s.flights[key].items[part.message].message;
    var n := S.NextNumber(c.s, m.epoch);
    UnrecordedShape(c, key, part, capacity, onlyNew);
    var d := Next(c, Unrecorded(key, part, capacity, onlyNew));
    hide Next, Enabled, S.Next, S.Enabled;
    S.StepKeeps(c.s, S.LoseNumber(m.epoch));
    SendPartFacts(c, key, part);
    Spends(c.s, m.epoch);
    WireGrows(c, d, n);
  }

  lemma Spends(s: S.Sender, epoch: nat)
    requires epoch in s.write
    ensures var t := S.Spend(s, epoch);
      && t.history == s.history && t.flights == s.flights && t.complete == s.complete
      && S.NextNumber(s, epoch) in t.handed && forall m :: m in s.handed ==> m in t.handed
  {
  }

  lemma UnrecordedShape(c: Channel, key: nat, part: Part, capacity: int, onlyNew: bool)
    requires Enabled(c, Unrecorded(key, part, capacity, onlyNew))
    ensures var m := c.s.flights[key].items[part.message].message;
      var d := Next(c, Unrecorded(key, part, capacity, onlyNew));
      && key in c.s.flights && Within(c.s.flights[key], part) && S.CanNumber(c.s, m.epoch) && S.Enabled(c.s, S.LoseNumber(m.epoch))
      && d == c.(s := S.Spend(c.s, m.epoch), wire := d.wire) && d.s == S.Next(c.s, S.LoseNumber(m.epoch))
      && d.wire == c.wire[S.NextNumber(c.s, m.epoch) := Carrying(Encode(m, part.start, part.end - part.start).value)]
  {
    hide Encode, S.Spend;
  }

  // ----- messages are numbered, flights begin and end -----

  lemma CarriesMore(data: seq<byte>, epoch: nat, history: seq<Message>, longer: seq<Message>)
    requires Reassembly.Carries(data, epoch, history) && history <= longer
    ensures Reassembly.Carries(data, epoch, longer)
  {
    hide Split;
    forall f | f in Split(data).0 ensures Reassembly.IsSlice(f, epoch, longer) {
      assert Reassembly.IsSlice(f, epoch, history);
    }
  }

  lemma ConsistentMore(a: Assembly, history: seq<Message>, longer: seq<Message>)
    requires Reassembly.Consistent(a, history) && history <= longer
    ensures Reassembly.Consistent(a, longer) && longer[..a.next] == history[..a.next]
  {
    hide Fragments.Valid, Reassembly.Matches;
  }

  lemma LiveKept(c: Channel, d: Channel, key: nat, k: nat)
    requires Live(c, k) && (key in c.s.flights ==> c.s.flights[key].complete)
    requires forall other :: other in c.s.flights && other != key ==> other in d.s.flights && d.s.flights[other] == c.s.flights[other]
    ensures Live(d, k)
  {
    var other, j :| other in c.s.flights && !c.s.flights[other].complete && 0 <= j < |c.s.flights[other].items|
                    && c.s.flights[other].items[j].message.sequence == k;
    assert other in d.s.flights && d.s.flights[other].items[j].message.sequence == k;
  }

  /** A new flight of newly numbered messages, none of it sent yet, in the place of a finished one. */
  lemma FlightBegins(c: Channel, d: Channel, key: nat, ms: seq<Message>, interval: int)
    requires Picture(c) && (key in c.s.flights ==> c.s.flights[key].complete)
    requires d == c.(s := c.s.(history := c.s.history + ms, flights := c.s.flights[key := Begin(ms, interval)]))
    requires Reassembly.Numbered(d.s.history)
    requires c.s.complete ==> forall j :: 0 <= j < |ms| ==> ms[j].epoch != 0
    ensures Picture(d)
  {
    hide Split, Reassembly.Consistent, Reassembly.Covers, Reassembly.Carries, Reassembly.CoversAll, Ready, Keyless, FlightKnown, AckedCovered, NothingForgotten;
    forall n | n in d.wire && d.wire[n].Carrying? ensures Reassembly.Carries(d.wire[n].data, n.epoch, d.s.history) {
      CarriesMore(d.wire[n].data, n.epoch, c.s.history, d.s.history);
    }
    ConsistentMore(c.r.assembly, c.s.history, d.s.history);
    forall n | NumberCovered(c, n) ensures NumberCovered(d, n) { }
    BeginKnown(c, d, key, ms, interval);
    BeginItems(c, d, key, ms, interval);
    BeginForgetsNothing(c, d, key, ms, interval);
  }

  lemma BeginForgetsNothing(c: Channel, d: Channel, key: nat, ms: seq<Message>, interval: int)
    requires NothingForgotten(c) && (key in c.s.flights ==> c.s.flights[key].complete) && Reassembly.Numbered(d.s.history)
    requires d == c.(s := c.s.(history := c.s.history + ms, flights := c.s.flights[key := Begin(ms, interval)]))
    ensures NothingForgotten(d)
  {
    hide WholeCovered;
    forall k | 0 <= k < |d.s.history| && (d.s.complete || Trusted(d, d.s.history[k]))
      ensures Live(d, k) || WholeCovered(d.r.assembly, d.s.history[k])
    {
      if k < |c.s.history| {
        assert Trusted(c, c.s.history[k]) == Trusted(d, d.s.history[k]);
        if Live(c, k) { LiveKept(c, d, key, k); }
      } else {
        var f := d.s.flights[key];
        assert f.items[k - |c.s.history|].message == ms[k - |c.s.history|] == d.s.history[k];
        assert d.s.history[k].sequence == k;
        assert Live(d, k);
      }
    }
  }

  lemma BeginKnown(c: Channel, d: Channel, key: nat, ms: seq<Message>, interval: int)
    requires FlightsKnown(c) && Reassembly.Numbered(d.s.history)
    requires d == c.(s := c.s.(history := c.s.history + ms, flights := c.s.flights[key := Begin(ms, interval)]))
    ensures FlightsKnown(d)
  {
    forall other | other in d.s.flights
      ensures FlightKnown(d, d.s.flights[other])
    {
      var f := d.s.flights[other];
      if other == key {
        forall j | 0 <= j < |f.items|
          ensures f.items[j].message.sequence < |d.s.history| && d.s.history[f.items[j].message.sequence] == f.items[j].message
        {
          assert d.s.history[|c.s.history| + j] == ms[j];
        }
      } else {
        forall n | n in f.sent ensures OnWire(d, f, n) { assert OnWire(c, f, n); }
      }
    }
  }

  lemma BeginItems(c: Channel, d: Channel, key: nat, ms: seq<Message>, interval: int)
    requires AckedCovered(c) && d.r == c.r && d.doubt == c.doubt
    requires d.s.flights == c.s.flights[key := Begin(ms, interval)]
    ensures AckedCovered(d)
  {
    hide Reassembly.Covers;
    forall other, j | other in d.s.flights && 0 <= j < |d.s.flights[other].items| && Trusted(d, d.s.flights[other].items[j].message)
      ensures ItemCovered(d.r.assembly, d.s.flights[other].items[j])
    {
      if other != key {
        assert Trusted(c, c.s.flights[other].items[j].message);
        assert ItemCovered(c.r.assembly, c.s.flights[other].items[j]);
      }
    }
  }

  /** A message whose bytes are all covered one by one is covered as a whole. */
  lemma AllBytesCovered(a: Assembly, m: Item)
    requires m.Valid() && m.Unacked() == 0 && ItemCovered(a, m)
    ensures WholeCovered(a, m.message)
  {
    FullOrSmaller(m.acked, m.Length());
    var k := m.message.sequence;
    if m.Length() > 0 && k >= a.next {
      assert 0 in m.acked;
      forall i | i in Range(0, m.Length()) ensures i in a.pending[k].seen {
        assert i in m.acked;
        assert i in Range(i, i + 1);
      }
    }
  }

  /** When every byte of a flight is acknowledged, the receiver has every byte of every message in it. */
  lemma AckSoundness(c: Channel, key: nat)
    requires DeliveryInv(c) && key in c.s.flights && AllAcknowledged(c.s.flights[key])
    ensures forall j :: 0 <= j < |c.s.flights[key].items| && Trusted(c, c.s.flights[key].items[j].message) ==>
      WholeCovered(c.r.assembly, c.s.flights[key].items[j].message)
  {
    forall j | 0 <= j < |c.s.flights[key].items| && Trusted(c, c.s.flights[key].items[j].message)
      ensures WholeCovered(c.r.assembly, c.s.flights[key].items[j].message)
    {
      assert Flights.Valid(c.s.flights[key]);
      AllBytesCovered(c.r.assembly, c.s.flights[key].items[j]);
    }
  }

  /** Ending a flight is safe when each of its messages that counts has been covered. */
  lemma FlightEnds(c: Channel, d: Channel, key: nat)
    requires Picture(c) && key in c.s.flights
    requires d == c.(s := c.s.(flights := c.s.flights[key := Finish(c.s.flights[key])]))
    requires forall j :: 0 <= j < |c.s.flights[key].items| && (c.s.complete || Trusted(c, c.s.flights[key].items[j].message)) ==>
      WholeCovered(c.r.assembly, c.s.flights[key].items[j].message)
    ensures Picture(d)
  {
    hide Split, Reassembly.Consistent, Reassembly.Covers, Reassembly.Carries, Reassembly.CoversAll, Ready, OnWire, ItemCovered, WholeCovered;
    forall other | other in d.s.flights
      ensures FlightKnown(d, d.s.flights[other])
    {
      if other != key {
        forall n | n in d.s.flights[other].sent ensures OnWire(d, d.s.flights[other], n) { OnWireSame(c, d, d.s.flights[other], n); }
      }
    }
    forall n | NumberCovered(c, n) ensures NumberCovered(d, n) { }
    forall k | 0 <= k < |d.s.history| && (d.s.complete || Trusted(d, d.s.history[k]))
      ensures Live(d, k) || WholeCovered(d.r.assembly, d.s.history[k])
    {
      assert Trusted(c, c.s.history[k]) == Trusted(d, d.s.history[k]);
      if Live(c, k) { EndedOrLive(c, d, key, k); }
    }
    forall other, j | other in d.s.flights && 0 <= j < |d.s.flights[other].items| && Trusted(d, d.s.flights[other].items[j].message)
      ensures ItemCovered(d.r.assembly, d.s.flights[other].items[j])
    {
      assert Trusted(c, c.s.flights[other].items[j].message);
    }
  }

  lemma OnWireSame(c: Channel, d: Channel, f: FlightState, n: RecordNumber)
    requires n in f.sent && OnWire(c, f, n) && d.wire == c.wire
    ensures OnWire(d, f, n)
  {
  }

  lemma EndedOrLive(c: Channel, d: Channel, key: nat, k: nat)
    requires FlightsKnown(c) && Live(c, k) && key in c.s.flights && k < |c.s.history|
    requires d == c.(s := c.s.(flights := c.s.flights[key := Finish(c.s.flights[key])]))
    requires forall j :: 0 <= j < |c.s.flights[key].items| && (c.s.complete || Trusted(c, c.s.flights[key].items[j].message)) ==>
      WholeCovered(c.r.assembly, c.s.flights[key].items[j].message)
    requires c.s.complete || Trusted(c, c.s.history[k])
    ensures Live(d, k) || WholeCovered(c.r.assembly, c.s.history[k])
  {
    hide OnWire, WholeCovered;
    var other, j :| other in c.s.flights && !c.s.flights[other].complete && 0 <= j < |c.s.flights[other].items|
                    && c.s.flights[other].items[j].message.sequence == k;
    if other != key {
      assert other in d.s.flights && d.s.flights[other].items[j].message.sequence == k;
    } else {
      assert c.s.history[k] == c.s.flights[key].items[j].message;
    }
  }

  // ----- every local event -----

  lemma BeginHandshakeKeeps(c: Channel, ms: seq<Message>, interval: int)
    requires DeliveryInv(c) && Enabled(c, Local(S.BeginHandshake(ms, interval)))
    ensures Picture(Next(c, Local(S.BeginHandshake(ms, interval))))
  {
    var d := Next(c, Local(S.BeginHandshake(ms, interval)));
    assert d == c.(s := c.s.(history := c.s.history + ms, flights := c.s.flights[S.OUTBOUND := Begin(ms, interval)]));
    NumberedMore(c.s.history, ms);
    hide Picture, Next, Enabled, S.SenderInv;
    FlightBegins(c, d, S.OUTBOUND, ms, interval);
  }

  lemma NumberedMore(history: seq<Message>, ms: seq<Message>)
    requires Reassembly.Numbered(history) && |history| + |ms| <= 0x1_0000
    requires forall j :: 0 <= j < |ms| ==> ms[j].sequence == |history| + j && |ms[j].body| <= MAX_BODY
    ensures Reassembly.Numbered(history + ms)
  {
  }

  lemma BeginPostShape(c: Channel, typ: byte, body: seq<byte>, interval: int, end: nat)
    requires Enabled(c, Local(S.BeginPost(typ, body, interval, end)))
    ensures var m := S.PostMessage(c.s, typ, body);
      var n := S.NextNumber(c.s, c.s.top);
      var begun := c.s.flights[typ := Begin([m], interval)];
      var d := Next(c, Local(S.BeginPost(typ, body, interval, end)));
      && S.CanNumber(c.s, c.s.top) && end <= |m.body| <= MAX_BODY
      && (typ in c.s.flights ==> c.s.flights[typ].complete)
      && d.wire == c.wire[n := Carrying(Encode(m, 0, end).value)] && d == c.(s := d.s, wire := d.wire)
      && d.s == S.Spend(c.s, c.s.top).(history := c.s.history + [m], updating := d.s.updating, localPending := d.s.localPending,
                                       flights := begun[typ := Note(begun[typ], Sending(n, Part(0, 0, end)))])
  {
    hide Encode;
  }

  lemma BeginPostKeeps(c: Channel, typ: byte, body: seq<byte>, interval: int, end: nat)
    requires DeliveryInv(c) && Enabled(c, Local(S.BeginPost(typ, body, interval, end)))
    ensures Picture(Next(c, Local(S.BeginPost(typ, body, interval, end))))
  {
    hide S.SenderInv, FlightsKnown, WireHonest, ReceiverHonest, AckedCovered, AcksHonest, NothingForgotten, Next, Enabled,
         Encode, Reassembly.Carries, Reassembly.Numbered, Split, S.Next, S.Enabled, Note;
    var d := Next(c, Local(S.BeginPost(typ, body, interval, end)));
    BeginPostShape(c, typ, body, interval, end);
    BeginPostFacts(c, typ, body, interval, end);
    var m, n := S.PostMessage(c.s, typ, body), S.NextNumber(c.s, c.s.top);
    var begun := c.(s := c.s.(history := c.s.history + [m], flights := c.s.flights[typ := Begin([m], interval)]));
    FlightBegins(c, begun, typ, [m], interval);
    var sent := begun.(s := d.s.(flights := begun.s.flights), wire := d.wire);
    WireGrows(begun, sent, n);
    NoteShape(begun.s.flights[typ], n, Part(0, 0, end));
    NoteFlightsKnown(sent, d, typ, n, Part(0, 0, end));
    NoteItems(sent, d, typ, n, Part(0, 0, end));
    SenderOnly(sent, d, typ);
  }

  lemma BeginPostFacts(c: Channel, typ: byte, body: seq<byte>, interval: int, end: nat)
    requires DeliveryInv(c) && Enabled(c, Local(S.BeginPost(typ, body, interval, end)))
    ensures var m, n := S.PostMessage(c.s, typ, body), S.NextNumber(c.s, c.s.top);
      && c.s.complete && c.s.top >= 3 && n !in c.wire && n !in c.s.handed && end <= |m.body| <= MAX_BODY
      && Reassembly.Numbered(c.s.history + [m]) && Reassembly.Carries(Encode(m, 0, end).value, n.epoch, c.s.history + [m])
  {
    var m, n := S.PostMessage(c.s, typ, body), S.NextNumber(c.s, c.s.top);
    assert c.s.complete && c.s.top >= 3;
    S.SpendKeeps(c.s, c.s.top);
    assert n !in c.wire;
    hide Encode, Split, Reassembly.Carries;
    NumberedMore(c.s.history, [m]);
    Reassembly.EncodedCarries(m, 0, end, c.s.history + [m]);
  }

  lemma NoteShape(f: FlightState, n: RecordNumber, part: Part)
    requires Within(f, part)
    ensures SameMessages(f, Note(f, Sending(n, part))) && f.complete == Note(f, Sending(n, part)).complete
  {
  }

  lemma FlightDoneKeeps(c: Channel, key: nat)
    requires DeliveryInv(c) && Enabled(c, Local(S.FlightDone(key)))
    ensures Picture(Next(c, Local(S.FlightDone(key))))
  {
    var d := Next(c, Local(S.FlightDone(key)));
    AckSoundness(c, key);
    var f := c.s.flights[key];
    forall j | 0 <= j < |f.items| && (c.s.complete || Trusted(c, f.items[j].message))
      ensures WholeCovered(c.r.assembly, f.items[j].message)
    {
      if !Trusted(c, f.items[j].message) { assert c.s.history[f.items[j].message.sequence].epoch == 0; }
    }
    assert d == c.(s := c.s.(flights := c.s.flights[key := Finish(f)]));
    hide S.SenderInv, Next, Enabled, Picture, WholeCovered;
    FlightEnds(c, d, key);
  }

  lemma AnsweredKeeps(c: Channel)
    requires DeliveryInv(c) && Enabled(c, Local(S.Answered))
    ensures Picture(Next(c, Local(S.Answered)))
  {
    var d := Next(c, Local(S.Answered));
    assert d == c.(s := c.s.(flights := c.s.flights[S.OUTBOUND := Finish(c.s.flights[S.OUTBOUND])]));
    FlightEnds(c, d, S.OUTBOUND);
  }

  lemma SendOtherKeeps(c: Channel, epoch: nat)
    requires DeliveryInv(c) && Enabled(c, Local(S.SendOther(epoch)))
    ensures Picture(Next(c, Local(S.SendOther(epoch))))
  {
    S.SpendKeeps(c.s, epoch);
    WireGrows(c, Next(c, Local(S.SendOther(epoch))), S.NextNumber(c.s, epoch));
  }

  /** Keys, counters, flags and finished flights are not part of the picture. */
  lemma QuietKeeps(c: Channel, d: Channel)
    requires Picture(c) && d == c.(s := d.s) && d.s.history == c.s.history
    requires d.s.complete == c.s.complete || (d.s.complete && PeerReady(d))
    requires forall n :: n in c.s.handed ==> n in d.s.handed
    requires forall key :: key in d.s.flights ==> key in c.s.flights && d.s.flights[key] == c.s.flights[key]
    requires forall key :: key in c.s.flights && key !in d.s.flights ==> c.s.flights[key].complete
    ensures Picture(d)
  {
    hide Split, Reassembly.Consistent, Reassembly.Covers, Reassembly.Carries, Reassembly.CoversAll, Ready, OnWire, ItemCovered;
    forall key | key in d.s.flights
      ensures FlightKnown(d, d.s.flights[key])
    {
      forall n | n in d.s.flights[key].sent ensures OnWire(d, d.s.flights[key], n) { OnWireSame(c, d, d.s.flights[key], n); }
    }
    forall n | NumberCovered(c, n) ensures NumberCovered(d, n) { }
    forall key, j | key in d.s.flights && 0 <= j < |d.s.flights[key].items| && Trusted(d, d.s.flights[key].items[j].message)
      ensures ItemCovered(d.r.assembly, d.s.flights[key].items[j])
    {
      assert Trusted(c, c.s.flights[key].items[j].message);
    }
    forall k | 0 <= k < |d.s.history| && (d.s.complete || Trusted(d, d.s.history[k]))
      ensures Live(d, k) || WholeCovered(d.r.assembly, d.s.history[k])
    {
      QuietForgetsNothing(c, d, k);
    }
  }

  lemma QuietForgetsNothing(c: Channel, d: Channel, k: nat)
    requires NothingForgotten(c) && DoubtIsPlain(c) && Reassembly.Numbered(c.s.history) && d == c.(s := d.s) && d.s.history == c.s.history && k < |d.s.history|
    requires d.s.complete == c.s.complete || (d.s.complete && PeerReady(d))
    requires forall key :: key in d.s.flights ==> key in c.s.flights && d.s.flights[key] == c.s.flights[key]
    requires forall key :: key in c.s.flights && key !in d.s.flights ==> c.s.flights[key].complete
    requires d.s.complete || Trusted(d, d.s.history[k])
    ensures Live(d, k) || WholeCovered(d.r.assembly, d.s.history[k])
  {
    if c.s.complete || Trusted(c, c.s.history[k]) {
      if Live(c, k) {
        var key, j :| key in c.s.flights && !c.s.flights[key].complete && 0 <= j < |c.s.flights[key].items|
                      && c.s.flights[key].items[j].message.sequence == k;
        assert key in d.s.flights && d.s.flights[key].items[j].message.sequence == k;
      }
    } else {
      assert d.s.history[k].sequence == k;
      assert k < d.r.assembly.next;
    }
  }

  lemma LocalKeeps(c: Channel, e: S.Event)
    requires DeliveryInv(c) && Enabled(c, Local(e))
    ensures DeliveryInv(Next(c, Local(e)))
  {
    S.StepKeeps(c.s, e);
    var d := Next(c, Local(e));
    assert d.s == S.Next(c.s, e);
    hide S.SenderInv, S.Next, S.Enabled, Next, Enabled;
    if e.SendPart? {
      SendPartKeeps(c, e.key, e.part, e.capacity, e.onlyNew);
    } else if e.BeginHandshake? {
      BeginHandshakeKeeps(c, e.messages, e.interval);
    } else if e.BeginPost? {
      BeginPostKeeps(c, e.typ, e.body, e.interval, e.end);
    } else if e.FlightDone? {
      FlightDoneKeeps(c, e.key);
    } else if e.Answered? {
      AnsweredKeeps(c);
    } else if e.SendOther? {
      SendOtherKeeps(c, e.epoch);
    } else {
      QuietShape(c, e);
      QuietKeeps(c, d);
    }
  }

  lemma QuietShape(c: Channel, e: S.Event)
    requires Enabled(c, Local(e))
    requires e.InstallKeys? || e.LoseNumber? || e.HandshakeDone? || e.RetireHandshakeKeys? || e.NextKeys? || e.Forget? || e.RequestUpdate?
    ensures var d := Next(c, Local(e));
      && d == c.(s := d.s) && d.s.history == c.s.history
      && (d.s.complete == c.s.complete || (d.s.complete && PeerReady(d)))
      && (forall n :: n in c.s.handed ==> n in d.s.handed)
      && (forall key :: key in d.s.flights ==> key in c.s.flights && d.s.flights[key] == c.s.flights[key])
      && forall key :: key in c.s.flights && key !in d.s.flights ==> c.s.flights[key].complete
  {
  }

  lemma StepKeeps(c: Channel, step: Step)
    requires DeliveryInv(c) && Enabled(c, step)
    ensures DeliveryInv(Next(c, step))
  {
    hide S.SenderInv, Picture;
    match step
    case Local(e) => LocalKeeps(c, e);
    case Unrecorded(key, part, capacity, onlyNew) => UnrecordedKeeps(c, key, part, capacity, onlyNew);
    case AckArrives(key, n, authenticated) => AckKeeps(c, key, n, authenticated);
    case Arrive(n, pool, handshake) => ArriveKeeps(c, n, pool, handshake);
    case SendAcks(count) => SendAcksKeeps(c, count);
    case Remote(e) => RemoteKeeps(c, e);
  }
}
