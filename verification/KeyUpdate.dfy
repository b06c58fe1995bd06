/** Two endpoints through any number of key updates: the reader always has the keys the writer is using. */
module KeyUpdate {
  import opened Wire
  import opened Bitmap
  import opened Budget
  import opened Fragments
  import opened Flights
  import Reassembly
  import S = Sending
  import R = Receiving
  import C = Channel

  /** How many key updates a prefix of the message history announces. */
  function Updates(history: seq<Message>): (n: nat) {
    if history == [] then 0
    else
      var m := history[|history| - 1];
      Updates(history[..|history| - 1]) + if m.typ == R.KEY_UPDATE && m.epoch >= 3 then 1 else 0
  }

  function EpochAfter(history: seq<Message>): nat { 3 + Updates(history) }

  lemma {:induction false} UpdatesMonotone(history: seq<Message>, i: nat, j: nat)
    requires i <= j <= |history|
    ensures Updates(history[..i]) <= Updates(history[..j])
    decreases j - i
  {
    if i < j {
      assert history[..j][..j - 1] == history[..j - 1];
      UpdatesMonotone(history, i, j - 1);
    }
  }

  lemma UpdatesStep(history: seq<Message>, i: nat)
    requires i < |history|
    ensures Updates(history[..i + 1]) ==
      Updates(history[..i]) + if history[i].typ == R.KEY_UPDATE && history[i].epoch >= 3 then 1 else 0
  {
    assert history[..i + 1][..i] == history[..i];
  }

  lemma {:induction false} NoUpdates(history: seq<Message>)
    requires forall k :: 0 <= k < |history| ==> history[k].epoch < 3
    ensures Updates(history) == 0
  {
    if history != [] { NoUpdates(history[..|history| - 1]); }
  }

  // ----- the invariant -----

  /** A message after the handshake is sent in the epoch its predecessors lead to. */
  ghost predicate InItsEpoch(history: seq<Message>, k: nat)
    requires k < |history|
  {
    history[k].epoch >= 3 ==>
      && history[k].epoch == EpochAfter(history[..k])
      && (history[k].typ == R.KEY_UPDATE ==> history[k].body in {[0], [1]})
      && history[k].typ in {R.REQUEST_CONNECTION_ID, R.NEW_CONNECTION_ID, R.KEY_UPDATE}
  }

  ghost predicate WriterInv(s: S.Sender) {
    && (forall k :: 0 <= k < |s.history| ==> InItsEpoch(s.history, k))
    && (s.complete ==> s.top + (if s.updating then 1 else 0) == EpochAfter(s.history))
    && (!s.complete ==> !s.updating && forall k :: 0 <= k < |s.history| ==> s.history[k].epoch < 3)
  }

  /** The reader's epoch is the one its delivered messages lead to, and it has every key from the writer's epoch up to it. */
  ghost predicate KeysFollow(k: R.ReadSide, history: seq<Message>, next: nat, top: nat)
    requires next <= |history|
  {
    && (3 !in k.installed ==> !k.complete && forall i :: 0 <= i < next ==> history[i].epoch < 3)
    && (3 in k.installed ==> k.app == EpochAfter(history[..next]))
    && (!k.complete ==> forall i :: 0 <= i < next ==> history[i].epoch < 3)
    && (forall e :: 3 <= e && top <= e <= k.app ==> e in k.read)
  }

  ghost predicate KeyInv(c: C.Channel) {
    && C.DeliveryInv(c) && WriterInv(c.s)
    && (c.r.alive ==> KeysFollow(c.r.keys, c.s.history, c.r.assembly.next, c.s.top))
    && (c.s.complete ==> c.s.top <= EpochAfter(c.s.history[..c.r.assembly.next]))
  }

  // ----- the reader -----

  lemma OpenedFollows(k: R.ReadSide, history: seq<Message>, next: nat, top: nat, epoch: nat)
    requires next <= |history| && KeysFollow(k, history, next, top) && epoch <= top
    ensures KeysFollow(R.Opened(k, epoch), history, next, top)
  {
  }

  lemma CompleteFollows(k: R.ReadSide, history: seq<Message>, next: nat, top: nat)
    requires next <= |history| && KeysFollow(k, history, next, top) && !k.complete
    ensures KeysFollow(R.Complete(k), history, next, top)
    ensures forall e :: e in {2, 3} ==> KeysFollow(R.Install(k, e), history, next, top)
  {
    assert forall i :: 0 <= i < next ==> history[..next][i] == history[i];
    NoUpdates(history[..next]);
  }

  lemma PostFollows(k: R.ReadSide, history: seq<Message>, next: nat, top: nat)
    requires next < |history| && KeysFollow(k, history, next, top) && k.complete && InItsEpoch(history, next)
    requires R.ReceivePost(k, history[next]).Some?
    ensures KeysFollow(R.ReceivePost(k, history[next]).value, history, next + 1, top)
  {
    UpdatesStep(history, next);
  }

  /** An update from an honest writer is never refused. */
  lemma PostAccepted(k: R.ReadSide, history: seq<Message>, next: nat, top: nat)
    requires next < |history| && KeysFollow(k, history, next, top) && k.complete && InItsEpoch(history, next)
    requires history[next].epoch >= 3
    ensures R.ReceivePost(k, history[next]).Some?
  {
  }

  lemma {:induction false} ProcessFollows(k: R.ReadSide, history: seq<Message>, lo: nat, hi: nat, top: nat, handshake: nat)
    requires lo <= hi <= |history| && KeysFollow(k, history, lo, top)
    requires forall i :: 0 <= i < |history| ==> InItsEpoch(history, i)
    requires R.Process(k, history[lo..hi], handshake).Some?
    ensures KeysFollow(R.Process(k, history[lo..hi], handshake).value, history, hi, top)
    decreases hi - lo
  {
    var out := history[lo..hi];
    if lo < hi {
      hide KeysFollow, InItsEpoch;
      assert out[0] == history[lo] && out[1..] == history[lo + 1..hi];
      assert InItsEpoch(history, lo);
      var rest := if handshake == 0 then 0 else handshake - 1;
      if k.complete {
        PostFollows(k, history, lo, top);
        ProcessFollows(R.ReceivePost(k, history[lo]).value, history, lo + 1, hi, top, rest);
      } else if handshake == 0 {
        CompleteFollows(k, history, lo, top);
        PostFollows(R.Complete(k), history, lo, top);
        ProcessFollows(R.ReceivePost(R.Complete(k), history[lo]).value, history, lo + 1, hi, top, rest);
      } else {
        HandshakeFollows(k, history, lo, top);
        ProcessFollows(k, history, lo + 1, hi, top, rest);
      }
    }
  }

  lemma HandshakeFollows(k: R.ReadSide, history: seq<Message>, next: nat, top: nat)
    requires next < |history| && KeysFollow(k, history, next, top) && history[next].epoch < 3
    ensures KeysFollow(k, history, next + 1, top)
  {
    UpdatesStep(history, next);
  }

  // ----- the writer -----

  /** With nothing owed, everything numbered has been delivered. */
  lemma AllDelivered(c: C.Channel)
    requires C.DeliveryInv(c) && c.s.complete && forall key :: key in c.s.flights ==> c.s.flights[key].complete
    ensures c.r.assembly.next == |c.s.history|
  {
    var a, h := c.r.assembly, c.s.history;
    if a.next < |h| {
      assert !C.Live(c, a.next);
      assert C.WholeCovered(a, h[a.next]);
      assert h[a.next].sequence == a.next;
      Reassembly.ReadyWhenComplete(a, h);
    }
  }

  lemma PrefixSame(h: seq<Message>, longer: seq<Message>, n: nat)
    requires h <= longer && n <= |h|
    ensures longer[..n] == h[..n]
  {
  }

  lemma HistoryFollows(k: R.ReadSide, h: seq<Message>, longer: seq<Message>, next: nat, top: nat, higher: nat)
    requires next <= |h| && h <= longer && KeysFollow(k, h, next, top) && top <= higher
    ensures KeysFollow(k, longer, next, higher)
  {
    PrefixSame(h, longer, next);
  }

  lemma BeginPostFollows(s: S.Sender, e: S.Event)
    requires WriterInv(s) && S.Enabled(s, e) && e.BeginPost?
    ensures WriterInv(S.Next(s, e)) && s.history <= S.Next(s, e).history && S.Next(s, e).top == s.top
  {
    var t := S.Next(s, e);
    assert t.history[..|s.history|] == s.history;
    forall k | 0 <= k < |t.history| ensures InItsEpoch(t.history, k) {
      if k < |s.history| {
        PrefixSame(s.history, t.history, k);
        assert InItsEpoch(s.history, k);
      } else {
        assert t.history[..k] == s.history;
      }
    }
    assert t.history == t.history[..|t.history|];
    UpdatesStep(t.history, |s.history|);
  }

  lemma BeginHandshakeFollows(s: S.Sender, e: S.Event)
    requires WriterInv(s) && S.Enabled(s, e) && e.BeginHandshake?
    ensures WriterInv(S.Next(s, e)) && s.history <= S.Next(s, e).history && S.Next(s, e).top == s.top
  {
  }

  lemma WriterFollows(s: S.Sender, e: S.Event)
    requires WriterInv(s) && S.NumbersInv(s) && S.Enabled(s, e) && !e.NextKeys?
    ensures var t := S.Next(s, e);
      && WriterInv(t) && s.history <= t.history && s.top <= t.top
      && (s.complete ==> t.top == s.top) && (t.complete && !s.complete ==> t.top == 3)
  {
    if e.BeginPost? {
      BeginPostFollows(s, e);
    } else if e.BeginHandshake? {
      BeginHandshakeFollows(s, e);
    } else if e.HandshakeDone? {
      NoUpdates(s.history);
    }
  }

  /** The writer's own events; new keys wait until everything before them has been delivered. */
  lemma LocalFollows(c: C.Channel, e: S.Event)
    requires KeyInv(c) && C.Enabled(c, C.Local(e))
    ensures KeyInv(C.Next(c, C.Local(e)))
  {
    C.StepKeeps(c, C.Local(e));
    var d := C.Next(c, C.Local(e));
    assert d.s == S.Next(c.s, e) && d.r == c.r;
    var next := c.r.assembly.next;
    if e.NextKeys? {
      AllDelivered(c);
      assert c.s.history[..next] == c.s.history;
      hide C.DeliveryInv, C.Next, C.Enabled;
      if c.r.alive { HistoryFollows(c.r.keys, c.s.history, d.s.history, next, c.s.top, d.s.top); }
    } else {
      WriterFollows(c.s, e);
      hide C.DeliveryInv, C.Next, C.Enabled, S.Next, S.Enabled;
      assert next <= |c.s.history| by { DeliveredBound(c); }
      PrefixSame(c.s.history, d.s.history, next);
      if c.r.alive { HistoryFollows(c.r.keys, c.s.history, d.s.history, next, c.s.top, d.s.top); }
    }
  }

  lemma DeliveredBound(c: C.Channel)
    requires C.DeliveryInv(c)
    ensures c.r.assembly.next <= |c.s.history|
  {
  }

  lemma AckFollows(c: C.Channel, key: nat, n: RecordNumber, authenticated: bool)
    requires KeyInv(c) && C.Enabled(c, C.AckArrives(key, n, authenticated))
    ensures KeyInv(C.Next(c, C.AckArrives(key, n, authenticated)))
  {
    hide C.DeliveryInv, C.Next, C.Enabled, KeysFollow, WriterInv, EpochAfter;
    C.StepKeeps(c, C.AckArrives(key, n, authenticated));
    AckChangesFlights(c, key, n, authenticated);
    var d := C.Next(c, C.AckArrives(key, n, authenticated));
    WriterSame(c.s, d.s);
  }

  lemma AckChangesFlights(c: C.Channel, key: nat, n: RecordNumber, authenticated: bool)
    requires C.Enabled(c, C.AckArrives(key, n, authenticated))
    ensures var d := C.Next(c, C.AckArrives(key, n, authenticated)); d.r == c.r && d.s == c.s.(flights := d.s.flights)
  {
  }

  lemma WriterSame(s: S.Sender, t: S.Sender)
    requires WriterInv(s) && t == s.(flights := t.flights)
    ensures WriterInv(t)
  {
    hide EpochAfter, InItsEpoch;
  }

  lemma ArriveFollows(c: C.Channel, n: RecordNumber, pool: Pool, handshake: nat)
    requires KeyInv(c) && C.Enabled(c, C.Arrive(n, pool, handshake))
    ensures KeyInv(C.Next(c, C.Arrive(n, pool, handshake)))
  {
    assert n in c.s.handed;
    if c.wire[n].Carrying? {
      ReceiveFollows(c, n, c.wire[n].data, pool, handshake);
    } else {
      StaleFollows(c, n, false);
    }
    hide KeyInv;
  }

  lemma ReceiveFollows(c: C.Channel, n: RecordNumber, data: seq<byte>, pool: Pool, handshake: nat)
    requires KeyInv(c) && c.r.alive && Reassembly.Carries(data, n.epoch, c.s.history) && pool.Valid() && R.Opens(c.r.keys, n.epoch)
    requires n in c.s.handed && (n in c.wire ==> c.wire[n] == C.Carrying(data))
    ensures KeyInv(c.(r := R.Receive(c.r, n, data, pool, handshake)))
  {
    C.ReceiveKeeps(c, n, data, pool, handshake);
    var d := c.(r := R.Receive(c.r, n, data, pool, handshake));
    var h, next := c.s.history, c.r.assembly.next;
    assert n.epoch <= c.s.top by { assert S.NumbersInv(c.s); }
    var keys := R.Opened(c.r.keys, n.epoch);
    OpenedFollows(c.r.keys, h, next, c.s.top, n.epoch);
    ReadsOn(c, n, data, pool);
    hide C.DeliveryInv, KeysFollow, Add, Reassembly.Drain, Reassembly.Carries, R.Process, R.Opens, Updates;
    if d.r.alive { ProcessFollows(keys, h, next, d.r.assembly.next, c.s.top, handshake); }
    UpdatesMonotone(h, next, d.r.assembly.next);
  }

  lemma StaleFollows(c: C.Channel, n: RecordNumber, queued: bool)
    requires KeyInv(c) && c.r.alive && R.Opens(c.r.keys, n.epoch) && n in c.s.handed && (queued ==> n !in c.wire)
    ensures KeyInv(C.Stale(c, n, queued))
  {
    C.StaleKeeps(c, n, queued);
    assert n.epoch <= c.s.top by { assert S.NumbersInv(c.s); }
    assert c.r.assembly.next <= |c.s.history| by { DeliveredBound(c); }
    OpenedFollows(c.r.keys, c.s.history, c.r.assembly.next, c.s.top, n.epoch);
    hide C.DeliveryInv, KeysFollow;
  }

  /** What the record delivers is the next stretch of the history. */
  lemma ReadsOn(c: C.Channel, n: RecordNumber, data: seq<byte>, pool: Pool)
    requires C.DeliveryInv(c) && pool.Valid() && Reassembly.Carries(data, n.epoch, c.s.history)
    ensures var (a, _, v) := Add(c.r.assembly, pool, data, n.epoch);
      var (b, out) := Reassembly.Drain(a);
      && !v.Rejected? && c.r.assembly.next <= b.next <= |c.s.history| && out == c.s.history[c.r.assembly.next..b.next]
  {
    hide Add, Reassembly.Drain, Reassembly.Carries, C.AcksHonest, C.AckedCovered, C.NothingForgotten, C.WireHonest, C.FlightsKnown, S.SenderInv;
    Reassembly.AddCarried(c.r.assembly, pool, data, n.epoch, c.s.history);
    Reassembly.DrainExact(Add(c.r.assembly, pool, data, n.epoch).0, c.s.history);
  }

  lemma UnrecordedFollows(c: C.Channel, step: C.Step)
    requires KeyInv(c) && C.Enabled(c, step) && step.Unrecorded?
    ensures KeyInv(C.Next(c, step))
  {
    C.StepKeeps(c, step);
    C.UnrecordedShape(c, step.key, step.part, step.capacity, step.onlyNew);
    var d := C.Next(c, step);
    var epoch := c.s.flights[step.key].items[step.part.message].message.epoch;
    DeliveredBound(c);
    Spent(c.s, epoch);
    hide C.DeliveryInv, C.Next, C.Enabled, S.Next, S.Enabled, KeysFollow, EpochAfter, S.Spend, Encode;
  }

  lemma Spent(s: S.Sender, epoch: nat)
    requires WriterInv(s) && epoch in s.write
    ensures var t := S.Spend(s, epoch); WriterInv(t) && t.history == s.history && t.top == s.top && t.complete == s.complete
  {
    hide EpochAfter, InItsEpoch;
  }

  /** An evicted reader had only delivered plaintext. */
  lemma EvictFollows(c: C.Channel)
    requires KeyInv(c) && C.Enabled(c, C.Remote(R.Evicted))
    ensures KeyInv(C.Next(c, C.Remote(R.Evicted)))
  {
    C.StepKeeps(c, C.Remote(R.Evicted));
    DeliveredBound(c);
    forall i | 0 <= i < c.r.assembly.next ensures c.s.history[i].epoch < 3 { assert c.r.delivered[i] in c.r.delivered; }
    var d := C.Next(c, C.Remote(R.Evicted));
    assert d.r.assembly.next == c.r.assembly.next && d.s == c.s && d.r.keys == c.r.keys;
    assert c.r.keys.read == {} && c.r.keys.app == 0 && !c.r.keys.complete && c.r.keys.installed == {};
    hide C.DeliveryInv, C.Next, C.Enabled, WriterInv, EpochAfter;
  }

  lemma RemoteFollows(c: C.Channel, step: C.Step)
    requires KeyInv(c) && C.Enabled(c, step) && (step.Remote? || step.SendAcks?) && step != C.Remote(R.Evicted)
    ensures KeyInv(C.Next(c, step))
  {
    C.StepKeeps(c, step);
    DeliveredBound(c);
    var d := C.Next(c, step);
    assert d.r.assembly == c.r.assembly && d.s == c.s;
    if step.Remote? && (step.change.InstallKeys? || step.change.Finished?) {
      CompleteFollows(c.r.keys, c.s.history, c.r.assembly.next, c.s.top);
    }
    hide C.DeliveryInv;
  }

  lemma StepFollows(c: C.Channel, step: C.Step)
    requires KeyInv(c) && C.Enabled(c, step)
    ensures KeyInv(C.Next(c, step))
  {
    hide KeyInv;
    match step
    case Local(e) => LocalFollows(c, e);
    case Unrecorded(_, _, _, _) => UnrecordedFollows(c, step);
    case AckArrives(key, n, authenticated) => AckFollows(c, key, n, authenticated);
    case Arrive(n, pool, handshake) => ArriveFollows(c, n, pool, handshake);
    case SendAcks(_) => RemoteFollows(c, step);
    case Remote(e) => if e.Evicted? { EvictFollows(c); } else { RemoteFollows(c, step); }
  }

  lemma InitialInv()
    ensures KeyInv(C.Initial())
  {
    SumNothing(0, MAX_PENDING);
  }

  lemma {:induction false} RunFollows(c: C.Channel, steps: seq<C.Step>)
    requires KeyInv(c) && C.Run(c, steps).Some?
    ensures KeyInv(C.Run(c, steps).value)
    decreases |steps|
  {
    hide KeyInv;
    if steps != [] {
      StepFollows(c, steps[0]);
      RunFollows(C.Next(c, steps[0]), steps[1..]);
    }
  }

  // ----- what holds in every reachable state -----

  /** The reader is at the writer's epoch or one ahead of it, and holds the keys the writer is using. */
  lemma KeyUpdateSafety(steps: seq<C.Step>)
    requires C.Run(C.Initial(), steps).Some?
    ensures var c := C.Run(C.Initial(), steps).value;
      c.s.complete && c.r.alive ==>
        && c.s.top <= c.r.keys.app <= c.s.top + 1
        && c.s.top in c.r.keys.read && c.r.keys.app in c.r.keys.read
        && (c.r.keys.app > c.s.top ==> c.s.updating)
  {
    InitialInv();
    RunFollows(C.Initial(), steps);
    Safe(C.Run(C.Initial(), steps).value);
  }

  lemma Safe(c: C.Channel)
    requires KeyInv(c)
    ensures c.r.delivered <= c.s.history
    ensures c.s.complete && c.r.alive ==>
      && c.s.top <= c.r.keys.app <= c.s.top + 1
      && c.s.top in c.r.keys.read && c.r.keys.app in c.r.keys.read
      && (c.r.keys.app > c.s.top ==> c.s.updating)
  {
    UpdatesMonotone(c.s.history, c.r.assembly.next, |c.s.history|);
    assert c.s.history[..|c.s.history|] == c.s.history;
  }

  /** The receiver has delivered this very message, or holds every byte of it. */
  ghost predicate Has(c: C.Channel, m: Message) {
    || (m.sequence < |c.r.delivered| && c.r.delivered[m.sequence] == m)
    || (m.sequence in c.r.assembly.pending && c.r.assembly.pending[m.sequence].message == m && c.r.assembly.pending[m.sequence].Whole())
  }

  /** Completing a flight on acknowledgements means every byte of it reached the receiver unchanged, but for plaintext in doubt. */
  lemma AcknowledgedFlightsArrived(steps: seq<C.Step>, key: nat, j: nat)
    requires C.Run(C.Initial(), steps).Some?
    requires var c := C.Run(C.Initial(), steps).value;
      key in c.s.flights && j < |c.s.flights[key].items| && AllAcknowledged(c.s.flights[key])
    ensures var c := C.Run(C.Initial(), steps).value;
      Has(c, c.s.flights[key].items[j].message) || c.s.flights[key].items[j].message.sequence in c.doubt
    ensures var c := C.Run(C.Initial(), steps).value;
      forall k :: k in c.doubt ==> k < |c.s.history| && c.s.history[k].epoch == 0
  {
    InitialInv();
    RunFollows(C.Initial(), steps);
    hide C.Run, C.DeliveryInv;
    Arrived(C.Run(C.Initial(), steps).value, key, j);
  }

  lemma Arrived(c: C.Channel, key: nat, j: nat)
    requires C.DeliveryInv(c) && key in c.s.flights && j < |c.s.flights[key].items| && AllAcknowledged(c.s.flights[key])
    ensures Has(c, c.s.flights[key].items[j].message) || c.s.flights[key].items[j].message.sequence in c.doubt
    ensures forall k :: k in c.doubt ==> k < |c.s.history| && c.s.history[k].epoch == 0
  {
    C.AckSoundness(c, key);
    hide S.SenderInv, C.NothingForgotten, C.AckedCovered, C.AcksHonest;
    var m := c.s.flights[key].items[j].message;
    assert c.s.history[m.sequence] == m;
    if C.Trusted(c, m) && m.sequence >= c.r.assembly.next {
      var p := c.r.assembly.pending[m.sequence];
      assert Reassembly.Matches(p, m);
      assert p.message.body == m.body;
      assert p.seen == Range(0, |m.body|);
      RangeSize(0, |m.body|);
    }
  }

  /** The receiver has delivered a prefix of what the sender numbered, in order and unchanged. */
  lemma DeliveredIsPrefix(steps: seq<C.Step>)
    requires C.Run(C.Initial(), steps).Some?
    ensures var c := C.Run(C.Initial(), steps).value; c.r.delivered <= c.s.history
  {
    InitialInv();
    RunFollows(C.Initial(), steps);
  }
}
