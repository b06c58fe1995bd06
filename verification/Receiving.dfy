/** The receiving half of a session: read keys by epoch, reassembly, acknowledgements owed, KeyUpdate. */
module Receiving {
  import opened Wire
  import opened Bitmap
  import opened Budget
  import opened Fragments
  import opened Reassembly

  const NEW_SESSION_TICKET := 4
  const REQUEST_CONNECTION_ID := 9
  const NEW_CONNECTION_ID := 10
  const KEY_UPDATE := 24
  const MAX_QUEUED_ACKS := 32

  /** Read epochs with keys, which of 2 and 3 were ever installed, the application epoch, and handshake completion. */
  datatype ReadSide = ReadSide(read: set<nat>, installed: set<nat>, app: nat, complete: bool)

  // ----- key events -----

  function Install(k: ReadSide, epoch: nat): ReadSide {
    if epoch in k.installed then k
    else k.(read := k.read + {epoch}, installed := k.installed + {epoch}, app := if epoch == 3 then 3 else k.app)
  }

  /** The retained epoch that the two low bits of a record header select: the highest that agrees with them. */
  ghost predicate Selects(read: set<nat>, bits: nat, epoch: nat) {
    epoch in read && epoch % 4 == bits && forall e :: e in read && e % 4 == bits ==> e <= epoch
  }

  /** A record of a new application epoch retires the older ones. */
  function Opened(k: ReadSide, epoch: nat): ReadSide {
    if epoch >= 4 then k.(read := set e | e in k.read && !(3 <= e < epoch)) else k
  }

  function Complete(k: ReadSide): ReadSide {
    Install(k, 3).(complete := true)
  }

  /** A message after the handshake; None when it ends the session. */
  function ReceivePost(k: ReadSide, m: Message): Option<ReadSide> {
    if m.epoch < 3 || m.epoch != k.app then None
    else if m.typ == KEY_UPDATE then
      if |m.body| != 1 || m.body[0] > 1 then None
      else Some(k.(app := m.epoch + 1, read := (k.read + {m.epoch + 1}) - {2}))
    else if m.typ in {NEW_SESSION_TICKET, NEW_CONNECTION_ID, REQUEST_CONNECTION_ID} then Some(k)
    else None
  }

  /** During the handshake only plaintext and epoch 2 messages are acceptable. */
  function ReceiveHandshake(k: ReadSide, m: Message): Option<ReadSide> {
    if m.epoch >= 3 then None else Some(k)
  }

  /** Handles delivered messages in order; the handshake reports completion after the first `handshake` of them. */
  function Process(k: ReadSide, out: seq<Message>, handshake: nat): Option<ReadSide>
    decreases |out|
  {
    if out == [] then Some(k)
    else
      var next := if k.complete then ReceivePost(k, out[0])
                  else if handshake == 0 then ReceivePost(Complete(k), out[0])
                  else ReceiveHandshake(k, out[0]);
      if next.None? then None else Process(next.value, out[1..], if handshake == 0 then 0 else handshake - 1)
  }

  // ----- one endpoint -----

  datatype Receiver = Receiver(
    assembly: Assembly, delivered: seq<Message>, queue: seq<RecordNumber>, keys: ReadSide, alive: bool)

  ghost function Fresh(next: nat): Receiver {
    Receiver(Assembly(next, map[], 0), [], [], ReadSide({}, {}, 0, false), true)
  }

  /** Plaintext opens only before any keys are installed; a protected record only with its own epoch's key. */
  predicate Opens(k: ReadSide, epoch: nat) {
    if epoch == 0 then k.installed == {} else epoch in k.read
  }

  function Queue(queue: seq<RecordNumber>, n: RecordNumber): seq<RecordNumber> {
    if |queue| >= MAX_QUEUED_ACKS then queue else queue + [n]
  }

  /** A handshake record: retire older keys, reassemble, queue its acknowledgement if all of it was kept, deliver. */
  function Receive(r: Receiver, n: RecordNumber, data: seq<byte>, pool: Pool, handshake: nat): Receiver {
    var keys := Opened(r.keys, n.epoch);
    var (a, _, verdict) := Add(r.assembly, pool, data, n.epoch);
    if verdict.Rejected? then r.(assembly := a, keys := keys, alive := false)
    else
      var (b, out) := Drain(a);
      var processed := Process(keys, out, handshake);
      Receiver(b, r.delivered + out, if verdict.Accepted? then Queue(r.queue, n) else r.queue,
               if processed.Some? then processed.value else keys, processed.Some?)
  }

  datatype Event =
    | Handshake(number: RecordNumber, data: seq<byte>, pool: Pool, handshake: nat)
    | OtherRecord(number: RecordNumber)
    | InstallKeys(epoch: nat)
    | Finished
    | HandshakeKeysExpire
    | SendAcks(count: nat)
    | Fail
    | Evicted

  /** Before it has keys, an endpoint may be evicted at any time, and taken up again with nothing buffered. */
  ghost predicate Enabled(r: Receiver, e: Event) {
    (r.alive || e.Evicted?) &&
    match e
    case Handshake(n, _, pool, _) => Opens(r.keys, n.epoch) && pool.Valid()
    case OtherRecord(n) => Opens(r.keys, n.epoch)
    case InstallKeys(epoch) => epoch in {2, 3} && epoch !in r.keys.installed && !r.keys.complete
    case Finished => !r.keys.complete
    case HandshakeKeysExpire => r.keys.complete
    case SendAcks(count) => count <= |r.queue|
    case Fail => true
    case Evicted => r.keys.installed == {}
  }

  ghost function Next(r: Receiver, e: Event): Receiver
    requires Enabled(r, e)
  {
    match e
    case Handshake(n, data, pool, handshake) => Receive(r, n, data, pool, handshake)
    case OtherRecord(n) => r.(keys := Opened(r.keys, n.epoch))
    case InstallKeys(epoch) => r.(keys := Install(r.keys, epoch))
    case Finished => r.(keys := Complete(r.keys))
    case HandshakeKeysExpire => r.(keys := r.keys.(read := r.keys.read - {2}))
    case SendAcks(count) => r.(queue := r.queue[count..])
    case Fail => r.(alive := false)
    case Evicted => r.(assembly := Assembly(r.assembly.next, map[], 0), queue := [], alive := true)
  }

  ghost function Run(r: Receiver, events: seq<Event>): Option<Receiver>
    decreases |events|
  {
    if events == [] then Some(r)
    else if Enabled(r, events[0]) then Run(Next(r, events[0]), events[1..])
    else None
  }

  // ----- two epoch bits are enough, whatever the peer sends -----

  ghost predicate Retained(k: ReadSide) {
    && k.installed <= {2, 3}
    && (3 !in k.installed ==> k.app == 0 && k.read <= {2} && !k.complete)
    && (3 in k.installed ==> k.app >= 3 && k.app in k.read && k.read <= {2, 3} + {k.app - 1, k.app})
    && (k.app > 3 ==> k.complete && k.read <= {k.app - 1, k.app})
    && (k.app == 3 ==> k.read <= {2, 3})
  }

  /** A message of an application epoch came in a record of that epoch, which retired everything older. */
  ghost predicate Recent(k: ReadSide, epoch: nat) {
    epoch >= 3 ==> 3 in k.installed && epoch <= k.app && forall e :: e in k.read && e >= 3 ==> e >= epoch
  }

  ghost predicate EpochInv(r: Receiver) {
    Retained(r.keys) && forall s :: s in r.assembly.pending ==> Recent(r.keys, r.assembly.pending[s].message.epoch)
  }

  lemma OpenedKeeps(k: ReadSide, epoch: nat)
    requires Retained(k) && Opens(k, epoch)
    ensures Retained(Opened(k, epoch)) && Recent(Opened(k, epoch), epoch)
    ensures forall e :: Recent(k, e) ==> Recent(Opened(k, epoch), e)
  {
  }

  /** Slots never change their epoch, and new ones take the record's. */
  lemma {:induction false} AddAllEpochs(a: Assembly, pool: Pool, fs: seq<Fragment>, epoch: nat)
    requires forall f :: f in fs ==> f.Fits()
    ensures var b := AddAll(a, pool, fs, epoch).0;
      forall s :: s in b.pending ==>
        b.pending[s].message.epoch == epoch || (s in a.pending && b.pending[s].message.epoch == a.pending[s].message.epoch)
    decreases |fs|
  {
    if fs != [] {
      var (b, q, v) := Insert(a, pool, fs[0], epoch);
      if !v.Rejected? { AddAllEpochs(b, q, fs[1..], epoch); }
    }
  }

  lemma {:induction false} DrainEpochs(a: Assembly)
    ensures var (b, out) := Drain(a);
      && (forall s :: s in b.pending ==> s in a.pending && b.pending[s] == a.pending[s])
      && forall m :: m in out ==> exists s :: s in a.pending && a.pending[s].message == m
    decreases |a.pending|
  {
    if Ready(a) {
      PopSmaller(a);
      DrainEpochs(Pop(a).1);
    }
  }

  lemma ReceivePostKeeps(k: ReadSide, m: Message)
    requires Retained(k) && k.complete && Recent(k, m.epoch) && ReceivePost(k, m).Some?
    ensures Retained(ReceivePost(k, m).value)
    ensures forall e :: Recent(k, e) ==> Recent(ReceivePost(k, m).value, e)
  {
  }

  lemma CompleteKeeps(k: ReadSide)
    requires Retained(k)
    ensures Retained(Complete(k))
    ensures forall e :: Recent(k, e) ==> Recent(Complete(k), e)
  {
  }

  lemma {:induction false} ProcessKeeps(k: ReadSide, out: seq<Message>, handshake: nat, pending: set<nat>)
    requires Retained(k) && (forall m :: m in out ==> Recent(k, m.epoch)) && (forall e :: e in pending ==> Recent(k, e))
    requires Process(k, out, handshake).Some?
    ensures Retained(Process(k, out, handshake).value)
    ensures forall e :: e in pending ==> Recent(Process(k, out, handshake).value, e)
    decreases |out|
  {
    if out != [] {
      var start := if !k.complete && handshake == 0 then Complete(k) else k;
      CompleteKeeps(k);
      assert Recent(start, out[0].epoch);
      if start.complete {
        ReceivePostKeeps(start, out[0]);
        ProcessKeeps(ReceivePost(start, out[0]).value, out[1..], if handshake == 0 then 0 else handshake - 1, pending);
      } else {
        ProcessKeeps(k, out[1..], handshake - 1, pending);
      }
    }
  }

  lemma ReceiveKeeps(r: Receiver, n: RecordNumber, data: seq<byte>, pool: Pool, handshake: nat)
    requires EpochInv(r) && Opens(r.keys, n.epoch)
    ensures EpochInv(Receive(r, n, data, pool, handshake))
  {
    var keys := Opened(r.keys, n.epoch);
    OpenedKeeps(r.keys, n.epoch);
    var fs := Split(data).0;
    AddAllEpochs(r.assembly, pool, fs, n.epoch);
    var (a, _, verdict) := Add(r.assembly, pool, data, n.epoch);
    hide Split, AddAll, Drain, Process, Opened, Retained;
    assert forall s :: s in a.pending ==> Recent(keys, a.pending[s].message.epoch);
    if !verdict.Rejected? {
      DrainEpochs(a);
      var (b, out) := Drain(a);
      if Process(keys, out, handshake).Some? {
        ProcessKeeps(keys, out, handshake, set s | s in b.pending :: b.pending[s].message.epoch);
      }
    }
  }

  lemma StepKeepsEpochs(r: Receiver, e: Event)
    requires EpochInv(r) && Enabled(r, e)
    ensures EpochInv(Next(r, e))
  {
    match e
    case Handshake(n, data, pool, handshake) => ReceiveKeeps(r, n, data, pool, handshake);
    case OtherRecord(n) => OpenedKeeps(r.keys, n.epoch);
    case Finished => CompleteKeeps(r.keys);
    case _ =>
  }

  lemma {:induction false} RunKeepsEpochs(r: Receiver, events: seq<Event>)
    requires EpochInv(r) && Run(r, events).Some?
    ensures EpochInv(Run(r, events).value)
    decreases |events|
  {
    if events != [] {
      StepKeepsEpochs(r, events[0]);
      RunKeepsEpochs(Next(r, events[0]), events[1..]);
    }
  }

  /** In every run the retained epochs are {2, 3} at first and the current and previous one later, so two bits pick at most one key. */
  lemma EpochBitsAreUnambiguous(next: nat, events: seq<Event>)
    requires Run(Fresh(next), events).Some?
    ensures var k := Run(Fresh(next), events).value.keys;
      && (k.app <= 3 ==> k.read <= {2, 3})
      && (k.app > 3 ==> k.read <= {k.app - 1, k.app})
      && (forall a, b :: a in k.read && b in k.read && a % 4 == b % 4 ==> a == b)
      && (k.complete ==> k.app in k.read)
      && forall e :: e in k.read ==> Selects(k.read, e % 4, e)
  {
    RunKeepsEpochs(Fresh(next), events);
    var k := Run(Fresh(next), events).value.keys;
    forall a, b | a in k.read && b in k.read && a % 4 == b % 4 ensures a == b { }
  }
}
