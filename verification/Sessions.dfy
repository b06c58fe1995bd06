/** A session's epoch tables and key updates, updated in place as the receiving and sending machines describe. */
module Sessions {
  import opened Wire
  import opened Fragments
  import opened Outlets
  import R = Receiving
  import S = Sending
  import Records
  import Replay
  import Flights

  // ----- read epochs -----

  datatype Content = Content(number: RecordNumber, typ: byte, body: seq<byte>)

  /** The key its epoch bits select ends the record with this error. */
  ghost predicate Fails(keys: map<nat, Records.Keys>, r: Records.Record, read: map<nat, Replay.Window>, error: Error)
    requires forall e :: e in read ==> e in keys && Records.Lawful(keys[e])
    requires r.encrypted ==> 1 <= r.seqLen <= 2 && r.seqOffset + r.seqLen <= |r.header|
  {
    exists e :: R.Selects(read.Keys, r.epoch, e) && Records.Decode(keys[e], r, e, r.cid, read[e]) == Err(error)
  }

  class ReadState {
    var read: map<nat, Replay.Window>
    var installed: set<nat>
    var app: nat
    var complete: bool

    function Keys(): R.ReadSide
      reads this
    {
      R.ReadSide(read.Keys, installed, app, complete)
    }

    constructor ()
      ensures Keys() == R.ReadSide({}, {}, 0, false)
    {
      read, installed, app, complete := map[], {}, 0, false;
    }

    /** Installs an epoch once, with an empty replay window; every other window stays. */
    method Install(epoch: nat)
      modifies this
      ensures Keys() == R.Install(old(Keys()), epoch)
      ensures read == if epoch in old(installed) then old(read) else old(read)[epoch := Replay.Fresh()]
      ensures epoch !in old(installed) ==> Replay.Represents(read[epoch], {})
    {
      if epoch in installed { return; }
      read := read[epoch := Replay.Fresh()];
      installed := installed + {epoch};
      if epoch == 3 { app := 3; }
    }

    /** The retained epoch a record's two epoch bits stand for. */
    method Select(bits: nat) returns (epoch: Option<nat>)
      ensures epoch.None? ==> forall e :: e in read ==> e % 4 != bits
      ensures epoch.Some? ==> R.Selects(read.Keys, bits, epoch.value)
    {
      epoch := None;
      var rest := read.Keys;
      while rest != {}
        invariant rest <= read.Keys
        invariant epoch.None? ==> forall e :: e in read && e !in rest ==> e % 4 != bits
        invariant epoch.Some? ==> epoch.value in read && epoch.value % 4 == bits
        invariant epoch.Some? ==> forall e :: e in read && e !in rest && e % 4 == bits ==> e <= epoch.value
      {
        var candidate :| candidate in rest;
        if candidate % 4 == bits && (epoch.None? || candidate > epoch.value) { epoch := Some(candidate); }
        rest := rest - {candidate};
      }
    }

    /** Forgets the application epochs before this one. */
    method Retire(epoch: nat)
      modifies this`read
      ensures Keys() == R.Opened(old(Keys()), epoch)
      ensures forall e :: e in read ==> read[e] == old(read)[e]
    {
      if epoch < 4 { return; }
      var rest := read.Keys;
      while rest != {}
        invariant rest <= old(read).Keys
        invariant forall e :: e in read <==> e in old(read) && (e in rest || !(3 <= e < epoch))
        invariant forall e :: e in read ==> read[e] == old(read)[e]
      {
        var candidate :| candidate in rest;
        if 3 <= candidate < epoch { read := read - {candidate}; }
        rest := rest - {candidate};
      }
    }

    /** Opens a record under the one key its epoch bits select; only then do windows and older epochs change. */
    method OpenRecord(keys: map<nat, Records.Keys>, r: Records.Record, cidFits: bool) returns (content: Option<Content>, error: Option<Error>)
      requires forall e :: e in read ==> e in keys && Records.Lawful(keys[e])
      requires r.encrypted ==> 1 <= r.seqLen <= 2 && r.seqOffset + r.seqLen <= |r.header|
      modifies this`read
      ensures r.encrypted ==> (content.Some? <==>
        cidFits && exists e :: R.Selects(old(read.Keys), r.epoch, e) && Records.Decode(keys[e], r, e, r.cid, old(read)[e]).Ok?)
      ensures content.None? ==> read == old(read)
      ensures error == Some(RecordOverflow) <==> r.encrypted && cidFits && Fails(keys, r, old(read), RecordOverflow)
      ensures error == Some(UnexpectedMessage) <==> r.encrypted && cidFits && Fails(keys, r, old(read), InvalidRecord)
      ensures error in {None, Some(RecordOverflow), Some(UnexpectedMessage)}
      ensures !r.encrypted ==> read == old(read)
      ensures !r.encrypted ==> content == if installed == {} then Some(Content(RecordNumber(0, r.sequence), r.typ, r.body)) else None
      ensures r.encrypted && content.Some? ==>
        var e := content.value.number.epoch;
        && cidFits && error.None? && R.Selects(old(read.Keys), r.epoch, e)
        && Keys() == R.Opened(old(Keys()), e) && e in read
        && Records.Decode(keys[e], r, e, r.cid, old(read)[e]) ==
           Ok(Records.Opened(content.value.number, content.value.typ, content.value.body, read[e]))
        && forall k :: k in read && k != e ==> read[k] == old(read)[k]
    {
      hide Records.Decode;
      if !r.encrypted {
        return (if installed == {} then Some(Content(RecordNumber(0, r.sequence), r.typ, r.body)) else None), None;
      }
      if !cidFits { return None, None; }
      var epoch := Select(r.epoch);
      if epoch.None? { return None, None; }
      var e := epoch.value;
      var decoded := Records.Decode(keys[e], r, e, r.cid, read[e]);
      DecodeFailures(keys[e], r, e, read[e]);
      if decoded.Err? {
        return None, if decoded.error in {Authentication, Replayed} then None
                     else Some(if decoded.error == InvalidRecord then UnexpectedMessage else decoded.error);
      }
      DecodedEpoch(keys[e], r, e, read[e]);
      read := read[e := decoded.value.window];
      Retire(e);
      return Some(Content(decoded.value.number, decoded.value.typ, decoded.value.content)), None;
    }

    /** A message after the handshake. A KeyUpdate adds the next epoch, with an empty replay window, and ends the handshake's;
        unknown or stale ones change nothing. */
    method ReceivePost(m: Message) returns (ok: bool)
      modifies this
      ensures ok <==> R.ReceivePost(old(Keys()), m).Some?
      ensures ok <==> 3 <= m.epoch == old(app) && (if m.typ == 24 then m.body == [0] || m.body == [1] else m.typ in {4, 9, 10})
      ensures ok && m.typ == R.KEY_UPDATE ==> m.epoch + 1 in read && Replay.Represents(read[m.epoch + 1], {})
      ensures forall e :: e in read && !(ok && m.typ == R.KEY_UPDATE && e == m.epoch + 1) ==> e in old(read) && read[e] == old(read)[e]
      ensures Keys() == if ok then R.ReceivePost(old(Keys()), m).value else old(Keys())
    {
      if m.epoch < 3 || m.epoch != app { return false; }
      if m.typ == R.KEY_UPDATE {
        if |m.body| != 1 || m.body[0] > 1 { return false; }
        app := m.epoch + 1;
        read := read[m.epoch + 1 := Replay.Fresh()];
        read := read - {2};
        return true;
      }
      return m.typ == R.NEW_SESSION_TICKET || m.typ == R.NEW_CONNECTION_ID || m.typ == R.REQUEST_CONNECTION_ID;
    }
  }

  lemma DecodedEpoch(k: Records.Keys, r: Records.Record, epoch: nat, w: Replay.Window)
    requires Records.Lawful(k) && (r.encrypted ==> 1 <= r.seqLen <= 2 && r.seqOffset + r.seqLen <= |r.header|)
    requires Records.Decode(k, r, epoch, r.cid, w).Ok?
    ensures Records.Decode(k, r, epoch, r.cid, w).value.number.epoch == epoch
  {
    hide Records.Masked, Records.Reconstruct, Records.Trim, Replay.Accept;
  }

  lemma DecodeFailures(k: Records.Keys, r: Records.Record, epoch: nat, w: Replay.Window)
    requires Records.Lawful(k) && (r.encrypted ==> 1 <= r.seqLen <= 2 && r.seqOffset + r.seqLen <= |r.header|)
    ensures var o := Records.Decode(k, r, epoch, r.cid, w); o.Err? ==> o.error in {Authentication, RecordOverflow, InvalidRecord, Replayed}
  {
    hide Records.Masked, Records.Reconstruct, Records.Trim, Replay.Accept;
  }

  // ----- write epochs and key updates -----

  /** What became of a flight's first transmission: nothing went out, with a record number spent or not, or its first part did. */
  datatype Attempt = NothingSent(spent: bool) | FirstPartSent(end: nat, failed: bool)

  /** A message that fits, and a first part of it that exists. */
  predicate Sendable(m: Option<(seq<byte>, Attempt)>) {
    m.Some? ==>
      |m.value.0| <= MAX_BODY && (m.value.1.FirstPartSent? ==> m.value.1.end <= |m.value.0| && (m.value.0 != [] ==> m.value.1.end > 0))
  }

  /** One message more has been numbered: of this type and epoch, with this body. */
  ghost predicate Adds(before: seq<Message>, after: seq<Message>, typ: byte, epoch: nat, body: seq<byte>) {
    && |after| == |before| + 1 && before <= after
    && after[|before|].typ == typ && after[|before|].epoch == epoch && after[|before|].body == body
  }

  /** Connection IDs go out if the peer asked for some and no such message is in progress, and then a request for some, each as far as its
      first part was sent and there are numbers left; a failure to answer holds the request back. */
  ghost predicate Exchanged(before: seq<Message>, after: seq<Message>, flights: map<nat, bool>, epoch: nat, sequence: nat, left: int,
                            free: bool, answer: Option<(seq<byte>, Attempt)>, freeToo: bool, request: Option<(seq<byte>, Attempt)>) {
    var due := answer.Some? && free;
    var used := if due then 1 else 0;
    var answered := due && answer.value.1.FirstPartSent? && sequence <= 65535 && left > 0;
    var asked := request.Some? && freeToo && request.value.1.FirstPartSent? && sequence + used <= 65535 && left > used
                 && (due ==> answered && !answer.value.1.failed);
    && (answered ==>
          && (R.NEW_CONNECTION_ID as nat) in flights && !flights[R.NEW_CONNECTION_ID as nat]
          && |before| < |after| && Adds(before, after[..|before| + 1], R.NEW_CONNECTION_ID, epoch, answer.value.0))
    && (asked ==>
          && (R.REQUEST_CONNECTION_ID as nat) in flights && !flights[R.REQUEST_CONNECTION_ID as nat]
          && |after| == |before| + used + 1 && Adds(after[..|before| + used], after, R.REQUEST_CONNECTION_ID, epoch, request.value.0))
    && (!answered && !asked ==> after == before)
  }

  lemma {:induction false} RunThen(s: S.Sender, events: seq<S.Event>, e: S.Event)
    requires S.Run(s, events).Some? && S.Enabled(S.Run(s, events).value, e)
    ensures S.Run(s, events + [e]) == Some(S.Next(S.Run(s, events).value, e))
    decreases |events|
  {
    hide S.Enabled, S.Next;
    if events == [] {
      assert [e][1..] == [];
    } else {
      assert (events + [e])[1..] == events[1..] + [e];
      RunThen(S.Next(s, events[0]), events[1..], e);
    }
  }

  class WriteState {
    var write: map<nat, WriteEpoch>
    var installed: set<nat>
    var sequence: nat
    var complete: bool
    var localPending: bool
    var updating: bool
    var requestPeer: bool
    var awaitingPeer: bool
    /** Whether each flight is complete: the handshake flight and those after it, by message type. */
    var flights: map<nat, bool>
    ghost var sender: S.Sender

    /** The tables are the sending machine's; the update flags follow at the end of each call. */
    ghost predicate Tied()
      reads this
    {
      && S.SenderInv(sender) && sender.write == write && sender.installed == installed && |sender.history| == sequence
      && sender.complete == complete && flights.Keys == sender.flights.Keys
      && (forall k :: k in flights ==> flights[k] == sender.flights[k].complete)
      && write.Keys <= {0, 2, sender.top} && (complete ==> sender.top >= 3 && 3 in installed)
    }

    ghost predicate Valid()
      reads this
    {
      Tied() && sender.localPending == localPending && sender.updating == updating
    }

    constructor ()
      ensures Valid() && sender == S.Initial() && sequence == 0
    {
      write, installed, sequence, flights := map[0 := WriteEpoch(0, 0x1_0000_0000_0000)], {}, 0, map[];
      complete, localPending, updating, requestPeer, awaitingPeer := false, false, false, false, false;
      sender := S.Initial();
    }

    /** The handshake is behind, nothing stands in the way of a flight of this type, and there are numbers left for it. */
    ghost predicate CanStart(typ: byte)
      reads this
    {
      && complete && !updating && (S.OUTBOUND in flights ==> flights[S.OUTBOUND]) && ((typ as nat) in flights ==> flights[typ as nat])
      && sequence <= 65535 && Left() > 0
    }

    /** Record numbers left under the current keys. */
    ghost function Left(): int
      reads this
    {
      if sender.top in write then write[sender.top].limit - write[sender.top].sequence else 0
    }

    /** The handshake is behind, and no update waits for its flights. */
    ghost predicate Moves()
      reads this
    {
      complete && (S.OUTBOUND in flights ==> flights[S.OUTBOUND]) && (updating ==> forall k :: k in flights ==> flights[k])
    }

    /** No flight of the type is in progress. */
    ghost predicate Free(typ: byte)
      reads this
    {
      (typ as nat) in flights ==> flights[typ as nat]
    }

    /** The write epoch, and the numbers left in it, once a finished update has taken effect. */
    ghost function TopAfter(): nat
      reads this
    {
      sender.top + if updating then 1 else 0
    }

    ghost function LeftAfter(limit: nat): int
      reads this
    {
      if updating then limit else Left()
    }

    /** A pending update can be announced now. */
    ghost predicate Announces(limit: nat, attempt: Attempt)
      reads this
    {
      && Moves() && localPending && Free(R.KEY_UPDATE) && TopAfter() < S.LAST_EPOCH && sequence <= 65535 && LeftAfter(limit) > 0
      && attempt.FirstPartSent?
    }

    method CurrentWriteEpoch() returns (highest: nat)
      requires Tied()
      ensures highest == sender.top
    {
      highest := 0;
      var rest := write.Keys;
      while rest != {}
        invariant rest <= write.Keys
        invariant highest <= sender.top && (sender.top in rest || highest == sender.top)
      {
        var epoch :| epoch in rest;
        if epoch > highest { highest := epoch; }
        rest := rest - {epoch};
      }
    }

    /** Installs the keys of a handshake epoch, once; a later call leaves everything as it is, after completion too. */
    method Install(epoch: nat, limit: nat) returns (ghost events: seq<S.Event>)
      requires Valid() && epoch in {2, 3} && (complete && epoch == 2 ==> epoch in installed)
      modifies this
      ensures Valid() && S.Run(old(sender), events) == Some(sender)
      ensures epoch in installed && complete == old(complete) && flights == old(flights)
      ensures epoch in old(installed) ==> events == [] && write == old(write)
    {
      events := [];
      if epoch in installed { return; }
      ghost var e := S.InstallKeys(epoch, limit);
      S.StepKeeps(sender, e);
      RunThen(sender, [], e);
      events := [] + [e];
      write := write[epoch := WriteEpoch(0, limit)];
      installed := installed + {epoch};
      sender := S.Next(sender, e);
    }

    /** The handshake is complete: the application keys go in if they are not there yet, and flights after it may start. */
    method CompleteHandshake(limit: nat) returns (ghost events: seq<S.Event>)
      requires Valid() && !complete
      modifies this
      ensures Valid() && S.Run(old(sender), events) == Some(sender)
      ensures complete && 3 in installed && sender.top == 3 && flights == old(flights) && sequence == old(sequence)
      ensures 3 !in old(installed) ==> 3 in write && write[3] == WriteEpoch(0, limit)
      ensures (updating, localPending, requestPeer, awaitingPeer) == old((updating, localPending, requestPeer, awaitingPeer))
    {
      hide S.SenderInv, S.Next, S.Enabled;
      CompleteShape(sender, limit);
      ghost var e := S.HandshakeDone(limit);
      EmptyRun(sender);
      S.StepKeeps(sender, e);
      RunThen(sender, [], e);
      events := [] + [e];
      if 3 !in installed {
        write := write[3 := WriteEpoch(0, limit)];
        installed := installed + {3};
      }
      assert sender.installed + {3} == installed;
      complete := true;
      sender := S.Next(sender, e);
    }

    /** A handshake flight begins, in place of one that is complete. */
    method StartFlight(messages: seq<Message>, interval: int) returns (ghost events: seq<S.Event>)
      requires Valid() && S.Enabled(sender, S.BeginHandshake(messages, interval))
      modifies this
      ensures Valid() && S.Run(old(sender), events) == Some(sender)
      ensures flights == old(flights)[S.OUTBOUND := false] && sequence == old(sequence) + |messages| && write == old(write)
    {
      hide S.SenderInv, S.Next, S.Enabled;
      ghost var e := S.BeginHandshake(messages, interval);
      EmptyRun(sender);
      BeginHandshakeShape(sender, messages, interval);
      S.StepKeeps(sender, e);
      RunThen(sender, [], e);
      events := [] + [e];
      flights := flights[S.OUTBOUND := false];
      sequence := sequence + |messages|;
      sender := S.Next(sender, e);
    }

    /** Every byte of a flight has been acknowledged, or for the handshake's the peer has answered it. */
    method FinishFlight(key: nat) returns (ghost events: seq<S.Event>)
      requires Valid() && key in flights && !flights[key]
      requires Flights.AllAcknowledged(sender.flights[key]) || (key == S.OUTBOUND && !complete)
      modifies `flights, `sender
      ensures Valid() && S.Run(old(sender), events) == Some(sender) && flights == old(flights)[key := true]
    {
      hide S.SenderInv, S.Next, S.Enabled;
      ghost var e := if Flights.AllAcknowledged(sender.flights[key]) then S.FlightDone(key) else S.Answered;
      EmptyRun(sender);
      FinishShape(sender, key);
      S.StepKeeps(sender, e);
      RunThen(sender, [], e);
      events := [] + [e];
      flights := flights[key := true];
      sender := S.Next(sender, e);
    }

    /** An acknowledgement names a record of the flight. */
    method Acknowledge(key: nat, number: RecordNumber, authenticated: bool) returns (ghost events: seq<S.Event>)
      requires Valid() && key in flights && !flights[key]
      modifies `sender
      ensures Valid() && S.Run(old(sender), events) == Some(sender)
      ensures Flights.Valid(old(sender).flights[key]) && sender.flights == old(sender).flights[key := Flights.AckOne(old(sender).flights[key], number, authenticated).0]
    {
      hide S.SenderInv, S.Next, S.Enabled, Flights.AckOne, Flights.Valid, Flights.Counts;
      AckShape(sender, key, number, authenticated);
      ghost var e := S.Acknowledged(key, number, authenticated);
      EmptyRun(sender);
      S.StepKeeps(sender, e);
      RunThen(sender, [], e);
      events := [] + [e];
      sender := S.Next(sender, e);
    }

    /** Starts a flight after the handshake. Of a flight whose first send failed only a spent record number may remain; whether that
        packet is on the network all the same is not known here. */
    method StartPost(typ: byte, body: seq<byte>, interval: int, attempt: Attempt)
      returns (error: Option<Error>, started: bool, ghost events: seq<S.Event>)
      requires Valid() && typ in {R.REQUEST_CONNECTION_ID, R.NEW_CONNECTION_ID, R.KEY_UPDATE} && |body| <= MAX_BODY
      requires typ == R.KEY_UPDATE ==> localPending && body in {[0], [1]} && sender.top < S.LAST_EPOCH
      requires attempt.FirstPartSent? ==> attempt.end <= |body| && (body != [] ==> attempt.end > 0)
      modifies this
      ensures Tied() && S.Run(old(sender), events) == Some(sender)
      ensures sender.updating == (updating || (started && typ == R.KEY_UPDATE))
      ensures sender.localPending == (localPending && !(started && typ == R.KEY_UPDATE))
      ensures (updating, localPending, requestPeer, awaitingPeer, complete) == old((updating, localPending, requestPeer, awaitingPeer, complete))
      ensures started ==> flights == old(flights)[typ as nat := false] && sequence == old(sequence) + 1 && !updating
      ensures !started ==> error.Some? && sequence == old(sequence) && flights == if error == Some(SendFailed) then old(flights) - {typ as nat} else old(flights)
      ensures error.None? <==> started && attempt.FirstPartSent? && !attempt.failed
      ensures started <==> attempt.FirstPartSent? && old(CanStart(typ))
      ensures sender.top == old(sender).top && write.Keys == old(write).Keys
      ensures started ==> Adds(old(sender).history, sender.history, typ, sender.top, body) && Left() == old(Left()) - 1
      ensures !started ==> sender.history == old(sender).history
    {
      hide S.SenderInv, S.Next, S.Enabled, S.Run;
      events, started := [], false;
      EmptyRun(sender);
      if !complete || updating || (S.OUTBOUND in flights && !flights[S.OUTBOUND]) { return Some(OperationPending), false, []; }
      if (typ as nat) in flights && !flights[typ] { return Some(OperationPending), false, []; }
      var epoch := CurrentWriteEpoch();
      var room := CanNumber(epoch);
      if sequence > 65535 || !room { return Some(SequenceExhausted), false, []; }
      if attempt.NothingSent? {
        events := FailStart(typ, epoch, attempt.spent);
        return Some(SendFailed), false, events;
      }
      BeginPostEnabled(sender, typ, body, interval, attempt.end);
      events := BeginFlight(epoch, typ, body, interval, attempt.end);
      return (if attempt.failed then Some(SendFailed) else None), true, events;
    }

    method FailStart(typ: byte, epoch: nat, spent: bool) returns (ghost events: seq<S.Event>)
      requires Valid() && complete && !updating && ((typ as nat) in flights ==> flights[typ])
      requires epoch == sender.top && S.CanNumber(sender, epoch)
      modifies `flights, `write, `sender
      ensures Valid() && S.Run(old(sender), events) == Some(sender) && flights == old(flights) - {typ as nat}
      ensures sender.top == old(sender).top && write.Keys == old(write).Keys && sender.history == old(sender).history
    {
      hide S.SenderInv, S.Enabled, S.Next, S.Run;
      events := Withdraw(typ);
      if spent {
        ghost var more := Lose(epoch);
        RunOn(old(sender), events, more);
        events := events + more;
      }
    }

    /** The new flight, of which nothing was sent, had taken the place of a complete one of its type. */
    method Withdraw(typ: byte) returns (ghost events: seq<S.Event>)
      requires Valid() && complete && !updating && ((typ as nat) in flights ==> flights[typ])
      modifies `flights, `sender
      ensures Valid() && S.Run(old(sender), events) == Some(sender) && flights == old(flights) - {typ as nat}
      ensures sender == old(sender).(flights := old(sender).flights - {typ as nat})
    {
      hide S.SenderInv, S.Enabled, S.Next;
      EmptyRun(sender);
      events := [];
      if (typ as nat) in flights {
        ForgetShape(sender, typ);
        S.StepKeeps(sender, S.Forget(typ));
        RunThen(sender, [], S.Forget(typ));
        events := [] + [S.Forget(typ)];
        sender := S.Next(sender, S.Forget(typ));
      } else {
        assert sender.flights - {typ as nat} == sender.flights;
      }
      flights := flights - {typ as nat};
    }

    method CanNumber(epoch: nat) returns (ok: bool)
      requires Tied() && epoch == sender.top
      ensures ok == S.CanNumber(sender, epoch)
    {
      ok := epoch in write && write[epoch].sequence < write[epoch].limit;
    }

    method Lose(epoch: nat) returns (ghost events: seq<S.Event>)
      requires Valid() && epoch == sender.top && S.CanNumber(sender, epoch)
      modifies `write, `sender
      ensures Valid() && S.Run(old(sender), events) == Some(sender) && sender.top == old(sender).top && write.Keys == old(write).Keys
      ensures sender.history == old(sender).history
    {
      hide S.SenderInv;
      ghost var e := S.LoseNumber(epoch);
      S.StepKeeps(sender, e);
      RunThen(sender, [], e);
      events := [] + [e];
      write := write[epoch := write[epoch].(sequence := write[epoch].sequence + 1)];
      sender := S.Next(sender, e);
    }

    method BeginFlight(epoch: nat, typ: byte, body: seq<byte>, interval: int, end: nat) returns (ghost events: seq<S.Event>)
      requires Valid() && epoch == sender.top && S.Enabled(sender, S.BeginPost(typ, body, interval, end))
      modifies `write, `sequence, `flights, `sender
      ensures Tied() && S.Run(old(sender), events) == Some(sender) && sender.top == old(sender).top && write.Keys == old(write).Keys
      ensures flights == old(flights)[typ as nat := false] && sequence == old(sequence) + 1
      ensures sender.updating == (typ == R.KEY_UPDATE) && sender.localPending == (localPending && typ != R.KEY_UPDATE)
      ensures Adds(old(sender).history, sender.history, typ, sender.top, body) && Left() == old(Left()) - 1
    {
      hide S.SenderInv, S.Next, S.Enabled;
      ghost var e := S.BeginPost(typ, body, interval, end);
      EmptyRun(sender);
      S.StepKeeps(sender, e);
      RunThen(sender, [], e);
      events := [] + [e];
      BeginPostShape(sender, typ, body, interval, end);
      write := write[epoch := write[epoch].(sequence := write[epoch].sequence + 1)];
      sequence := sequence + 1;
      flights := flights[typ as nat := false];
      sender := S.Next(sender, e);
    }

    /** Drops the handshake's write keys once its flight is acknowledged. */
    method RetireHandshakeKeys() returns (ghost events: seq<S.Event>)
      requires Valid() && complete && (S.OUTBOUND in flights ==> flights[S.OUTBOUND])
      modifies `write, `sender
      ensures Valid() && S.Run(old(sender), events) == Some(sender) && write.Keys == {sender.top} && sender.top == old(sender).top
      ensures sender.history == old(sender).history && Left() == old(Left())
    {
      ghost var e := S.RetireHandshakeKeys;
      S.StepKeeps(sender, e);
      RunThen(sender, [], e);
      events := [] + [e];
      write := write - {0, 2};
      sender := S.Next(sender, e);
      assert sender.top in write;
    }

    method AllComplete() returns (ok: bool)
      ensures ok <==> forall k :: k in flights ==> flights[k]
    {
      var rest := flights.Keys;
      while rest != {}
        invariant rest <= flights.Keys && forall k :: k in flights && k !in rest ==> flights[k]
      {
        var k :| k in rest;
        if !flights[k] { return false; }
        rest := rest - {k};
      }
      ok := true;
    }

    /** Replaces the write epoch by the next one; every flight of the old one has been acknowledged. */
    method InstallNextKeys(limit: nat) returns (ghost events: seq<S.Event>)
      requires Valid() && complete && updating && write.Keys == {sender.top} && forall k :: k in flights ==> flights[k]
      modifies `write, `updating, `sender
      ensures Valid() && S.Run(old(sender), events) == Some(sender) && !updating && sender.top == old(sender).top + 1
      ensures write.Keys == {sender.top} && sender.history == old(sender).history && Left() == limit
    {
      hide S.SenderInv, S.Enabled, S.Next;
      ghost var e := S.NextKeys(limit);
      var epoch := CurrentWriteEpoch();
      EmptyRun(sender);
      NextKeysShape(sender, limit);
      S.StepKeeps(sender, e);
      RunThen(sender, [], e);
      events := [] + [e];
      write := write[epoch + 1 := WriteEpoch(0, limit)];
      assert write.Keys == {epoch, epoch + 1};
      write := write - {epoch};
      assert write == map[epoch + 1 := WriteEpoch(0, limit)];
      updating := false;
      sender := S.Next(sender, e);
    }

    /** Lets go of flights that are complete, the handshake's apart. */
    method ForgetComplete() returns (ghost events: seq<S.Event>)
      requires Valid() && complete && !updating
      modifies `flights, `sender
      ensures Valid() && S.Run(old(sender), events) == Some(sender) && sender.top == old(sender).top && sender.history == old(sender).history
      ensures forall k :: k in flights <==> k in old(flights) && (k == S.OUTBOUND || !old(flights)[k])
      ensures forall k :: k in flights ==> flights[k] == old(flights)[k]
    {
      hide S.SenderInv, S.Enabled, S.Next;
      events := [];
      EmptyRun(sender);
      var rest := flights.Keys - {S.OUTBOUND};
      while rest != {}
        invariant Valid() && complete && !updating && S.Run(old(sender), events) == Some(sender) && sender.top == old(sender).top
        invariant sender.history == old(sender).history
        invariant rest <= old(flights).Keys - {S.OUTBOUND}
        invariant forall k :: k in flights <==> k in old(flights) && (k == S.OUTBOUND || k in rest || !old(flights)[k])
        invariant forall k :: k in flights ==> flights[k] == old(flights)[k]
      {
        var k :| k in rest;
        rest := rest - {k};
        if flights[k] {
          ForgetShape(sender, k);
          S.StepKeeps(sender, S.Forget(k));
          RunThen(old(sender), events, S.Forget(k));
          events := events + [S.Forget(k)];
          flights := flights - {k};
          sender := S.Next(sender, S.Forget(k));
        }
      }
    }

    /** Announces an update of this side's keys, asking the peer for one unless that is already asked. */
    method BeginKeyUpdate(interval: int, attempt: Attempt) returns (error: Option<Error>, ghost events: seq<S.Event>)
      requires Valid() && complete && !updating && localPending && (attempt.FirstPartSent? ==> attempt.end == 1)
      modifies this
      ensures Valid() && S.Run(old(sender), events) == Some(sender) && sender.top == old(sender).top && write.Keys == old(write).Keys
      ensures complete && (error.None? ==> updating && !localPending)
      ensures updating ==> awaitingPeer == old(awaitingPeer || requestPeer) && !requestPeer && !localPending
      ensures !updating ==> error.Some? && localPending && awaitingPeer == old(awaitingPeer) && flights.Keys <= old(flights).Keys
      ensures flights.Keys <= old(flights).Keys + {R.KEY_UPDATE as nat}
      ensures updating ==> (R.KEY_UPDATE as nat) in flights && !flights[R.KEY_UPDATE as nat]
      ensures updating <==> old(CanStart(R.KEY_UPDATE)) && sender.top < S.LAST_EPOCH && attempt.FirstPartSent?
      ensures updating ==> Adds(old(sender).history, sender.history, R.KEY_UPDATE, sender.top, [if old(requestPeer && !awaitingPeer) then 1 else 0])
      ensures !updating ==> sender.history == old(sender).history
      ensures error.None? <==> updating && !attempt.failed
    {
      hide S.SenderInv, S.Enabled, S.Next, S.Run, WriteState.CanStart, WriteState.Tied, Adds;
      EmptyRun(sender);
      var epoch := CurrentWriteEpoch();
      if epoch >= S.LAST_EPOCH { return Some(SequenceExhausted), []; }
      var request: byte := if requestPeer && !awaitingPeer then 1 else 0;
      var started;
      error, started, events := StartPost(R.KEY_UPDATE, [request], interval, attempt);
      if !started { return; }
      MarkUpdating(request == 1);
    }

    /** An announced update is in progress, and the peer is asked for its own if that was in the announcement. */
    method MarkUpdating(asked: bool)
      requires Tied() && sender.updating && !sender.localPending
      modifies `updating, `localPending, `requestPeer, `awaitingPeer
      ensures Valid() && updating && !localPending && !requestPeer && awaitingPeer == (old(awaitingPeer) || asked)
    {
      hide S.SenderInv;
      updating, localPending, requestPeer := true, false, false;
      if asked { awaitingPeer := true; }
    }

    /** A flight of one of the connection ID messages, unless an update is in progress or one of its type is there already. */
    method SendIds(typ: byte, body: seq<byte>, interval: int, attempt: Attempt) returns (error: Option<Error>, ghost events: seq<S.Event>)
      requires Valid() && typ in {R.REQUEST_CONNECTION_ID, R.NEW_CONNECTION_ID} && |body| <= MAX_BODY
      requires attempt.FirstPartSent? ==> attempt.end <= |body| && (body != [] ==> attempt.end > 0)
      modifies this
      ensures Valid() && S.Run(old(sender), events) == Some(sender) && sender.top == old(sender).top && write.Keys == old(write).Keys
      ensures (updating, localPending, requestPeer, awaitingPeer, complete) == old((updating, localPending, requestPeer, awaitingPeer, complete))
      ensures flights.Keys <= old(flights).Keys + if updating then {} else {typ as nat}
      ensures forall k :: k != typ as nat ==> (k in flights <==> k in old(flights)) && (k in flights ==> flights[k] == old(flights)[k])
      ensures (typ as nat) !in old(flights) && !updating && error.None? ==> (typ as nat) in flights && !flights[typ]
      ensures updating || (typ as nat) in old(flights) ==> error.None? && flights == old(flights) && events == [] && sender == old(sender) && Left() == old(Left())
      ensures var starts := attempt.FirstPartSent? && old(CanStart(typ)) && (typ as nat) !in old(flights);
        && sequence == old(sequence) + (if starts then 1 else 0)
        && (starts ==> flights == old(flights)[typ as nat := false] && Adds(old(sender).history, sender.history, typ, sender.top, body) && Left() == old(Left()) - 1)
        && (!starts ==> sender.history == old(sender).history)
        && (error.None? <==> updating || (typ as nat) in old(flights) || (starts && !attempt.failed))
    {
      hide S.SenderInv, S.Enabled, S.Next, S.Run, WriteState.Tied, Adds, S.CanNumber;
      EmptyRun(sender);
      if updating || (typ as nat) in flights { return None, []; }
      var started;
      error, started, events := StartPost(typ, body, interval, attempt);
    }

    /** Everything a session does after the handshake between events, in this order: retire the handshake's keys, replace the keys,
        forget what is complete, announce an update, then send connection IDs the peer asked for and ask for some. */
    method AdvancePost(limit: nat, interval: int, attempt: Attempt, answer: Option<(seq<byte>, Attempt)>, request: Option<(seq<byte>, Attempt)>)
      returns (error: Option<Error>, ghost events: seq<S.Event>)
      requires Valid() && (attempt.FirstPartSent? ==> attempt.end == 1) && Sendable(answer) && Sendable(request)
      modifies this
      ensures Valid() && S.Run(old(sender), events) == Some(sender)
      ensures sender.top == old(sender).top || (sender.top == old(sender).top + 1 && old(updating) && forall k :: k in old(flights) ==> old(flights)[k])
      ensures complete && (S.OUTBOUND in old(flights) ==> old(flights)[S.OUTBOUND]) ==> write.Keys == {sender.top}
      ensures complete == old(complete) && (error.None? && old(localPending) ==> localPending || updating)
      ensures forall k :: k in flights && k !in old(flights) ==>
        k == R.KEY_UPDATE || (!updating && ((k == R.NEW_CONNECTION_ID && answer.Some?) || (k == R.REQUEST_CONNECTION_ID && request.Some?)))
      ensures old(Moves()) ==> sender.top == old(TopAfter()) && (updating <==> old(Announces(limit, attempt)))
      ensures old(Announces(limit, attempt)) ==>
        && !localPending && !requestPeer && (R.KEY_UPDATE as nat) in flights && !flights[R.KEY_UPDATE as nat]
        && Adds(old(sender).history, sender.history, R.KEY_UPDATE, old(TopAfter()), [if old(requestPeer && !awaitingPeer) then 1 else 0])
      ensures old(Moves() && localPending && !Announces(limit, attempt)) ==> error.Some? && localPending && sender.history == old(sender).history
      ensures old(Moves() && !localPending) ==>
        Exchanged(old(sender).history, sender.history, flights, old(TopAfter()), old(sequence), old(LeftAfter(limit)),
                  old(Free(R.NEW_CONNECTION_ID)), answer, old(Free(R.REQUEST_CONNECTION_ID)), request)
    {
      hide S.SenderInv, S.Enabled, S.Next, S.Run, WriteState.Tied, Adds, Exchanged, Sendable, S.CanNumber;
      EmptyRun(sender);
      error, events := None, [];
      if !complete || (S.OUTBOUND in flights && !flights[S.OUTBOUND]) { return; }
      var waiting;
      waiting, events := AdvanceKeys(limit);
      if waiting { return; }
      ghost var more;
      error, more := AdvanceMessages(interval, attempt, answer, request);
      RunOn(old(sender), events, more);
      events := events + more;
    }

    /** The message half, with nothing in progress that would hold it back. */
    method AdvanceMessages(interval: int, attempt: Attempt, answer: Option<(seq<byte>, Attempt)>, request: Option<(seq<byte>, Attempt)>)
      returns (error: Option<Error>, ghost events: seq<S.Event>)
      requires Valid() && Moves() && !updating && (attempt.FirstPartSent? ==> attempt.end == 1) && Sendable(answer) && Sendable(request)
      requires forall k :: k in flights && k != S.OUTBOUND ==> !flights[k]
      modifies this
      ensures Valid() && S.Run(old(sender), events) == Some(sender) && sender.top == old(sender).top && write.Keys == old(write).Keys
      ensures complete && (error.None? && old(localPending) ==> localPending || updating)
      ensures forall k :: k in flights && k !in old(flights) ==>
        k == R.KEY_UPDATE || (!updating && ((k == R.NEW_CONNECTION_ID && answer.Some?) || (k == R.REQUEST_CONNECTION_ID && request.Some?)))
      ensures updating <==> old(Announces(0, attempt))
      ensures updating ==>
        && !localPending && !requestPeer && (R.KEY_UPDATE as nat) in flights && !flights[R.KEY_UPDATE as nat]
        && Adds(old(sender).history, sender.history, R.KEY_UPDATE, sender.top, [if old(requestPeer && !awaitingPeer) then 1 else 0])
      ensures old(localPending) && !updating ==> error.Some? && localPending && sender.history == old(sender).history
      ensures !old(localPending) ==>
        Exchanged(old(sender).history, sender.history, flights, sender.top, old(sequence), old(Left()),
                  old(Free(R.NEW_CONNECTION_ID)), answer, old(Free(R.REQUEST_CONNECTION_ID)), request)
    {
      hide S.SenderInv, S.Enabled, S.Next, S.Run, Adds, Exchanged, Sendable;
      EmptyRun(sender);
      error, events := None, [];
      if localPending {
        error, events := BeginKeyUpdate(interval, attempt);
        if error.Some? { return; }
      }
      ghost var more;
      error, more := ExchangeIds(interval, answer, request);
      RunOn(old(sender), events, more);
      events := events + more;
    }

    method ExchangeIds(interval: int, answer: Option<(seq<byte>, Attempt)>, request: Option<(seq<byte>, Attempt)>)
      returns (error: Option<Error>, ghost events: seq<S.Event>)
      requires Valid() && Sendable(answer) && Sendable(request)
      modifies this
      ensures Valid() && S.Run(old(sender), events) == Some(sender) && sender.top == old(sender).top && write.Keys == old(write).Keys
      ensures (updating, localPending, requestPeer, awaitingPeer, complete) == old((updating, localPending, requestPeer, awaitingPeer, complete))
      ensures forall k :: k in flights && k !in old(flights) ==>
        !updating && ((k == R.NEW_CONNECTION_ID && answer.Some?) || (k == R.REQUEST_CONNECTION_ID && request.Some?))
      ensures old(complete && (S.OUTBOUND in flights ==> flights[S.OUTBOUND])) && !updating ==>
        Exchanged(old(sender).history, sender.history, flights, sender.top, old(sequence), old(Left()),
                  (R.NEW_CONNECTION_ID as nat) !in old(flights), answer, (R.REQUEST_CONNECTION_ID as nat) !in old(flights), request)
      ensures updating ==> flights == old(flights) && sender == old(sender)
    {
      hide S.SenderInv, S.Enabled, S.Next, S.Run, WriteState.Tied, S.CanNumber;
      EmptyRun(sender);
      error, events := None, [];
      ghost var more;
      if answer.Some? {
        error, events := SendIds(R.NEW_CONNECTION_ID, answer.value.0, interval, answer.value.1);
        assert |sender.history| == |old(sender).history| + 1 ==> sender.history[..|old(sender).history| + 1] == sender.history;
        if error.Some? { return; }
      }
      ghost var halfway := sender.history;
      if request.Some? {
        error, more := SendIds(R.REQUEST_CONNECTION_ID, request.value.0, interval, request.value.1);
        assert halfway <= sender.history && sender.history[..|halfway|] == halfway;
        RunOn(old(sender), events, more);
        events := events + more;
      }
    }

    /** The key half: waiting when an update's flights are not all acknowledged yet. */
    method AdvanceKeys(limit: nat) returns (waiting: bool, ghost events: seq<S.Event>)
      requires Valid() && complete && (S.OUTBOUND in flights ==> flights[S.OUTBOUND])
      modifies `write, `updating, `flights, `sender
      ensures Valid() && S.Run(old(sender), events) == Some(sender) && write.Keys == {sender.top}
      ensures sender.top == old(sender).top + if old(updating) && !waiting then 1 else 0
      ensures waiting <==> old(updating) && exists k :: k in old(flights) && !old(flights)[k]
      ensures waiting ==> updating && flights == old(flights)
      ensures !waiting ==> !updating && flights.Keys <= old(flights).Keys
      ensures !waiting ==> forall k :: k in flights <==> k in old(flights) && (k == S.OUTBOUND || !old(flights)[k])
      ensures !waiting ==> forall k :: k in flights ==> flights[k] == old(flights)[k]
      ensures sender.history == old(sender).history && Left() == if old(updating) && !waiting then limit else old(Left())
    {
      hide S.SenderInv, S.Enabled, S.Next, S.Run;
      events := RetireHandshakeKeys();
      waiting := false;
      if updating {
        var all := AllComplete();
        if !all { return true, events; }
        ghost var more := InstallNextKeys(limit);
        RunOn(old(sender), events, more);
        events := events + more;
      }
      ghost var more := ForgetComplete();
      RunOn(old(sender), events, more);
      events := events + more;
    }

    method MarkPending() returns (ghost events: seq<S.Event>)
      requires Valid() && complete && sender.top < S.LAST_EPOCH
      modifies `localPending, `sender
      ensures Valid() && localPending && S.Run(old(sender), events) == Some(sender) && sender == old(sender).(localPending := true)
    {
      ghost var e := S.RequestUpdate;
      S.StepKeeps(sender, e);
      RunThen(sender, [], e);
      events := [] + [e];
      hide S.SenderInv;
      localPending := true;
      sender := S.Next(sender, e);
    }

    /** The user asks for new keys, and perhaps for the peer's as well. */
    method RequestKeyUpdate(peerToo: bool, limit: nat, interval: int, attempt: Attempt, answer: Option<(seq<byte>, Attempt)>, request: Option<(seq<byte>, Attempt)>)
      returns (error: Option<Error>, ghost events: seq<S.Event>)
      requires Valid() && (attempt.FirstPartSent? ==> attempt.end == 1) && Sendable(answer) && Sendable(request)
      modifies this
      ensures Valid() && S.Run(old(sender), events) == Some(sender)
      ensures !old(complete) ==> error == Some(UnexpectedMessage) && sender == old(sender)
      ensures old(complete && sender.top >= S.LAST_EPOCH) ==> error == Some(SequenceExhausted) && sender == old(sender)
      ensures error.None? ==> localPending || updating
      ensures old(Moves() && Free(R.KEY_UPDATE) && TopAfter() < S.LAST_EPOCH && sequence <= 65535 && LeftAfter(limit) > 0) && attempt.FirstPartSent? ==>
        && updating && !localPending && (R.KEY_UPDATE as nat) in flights && !flights[R.KEY_UPDATE as nat]
        && Adds(old(sender).history, sender.history, R.KEY_UPDATE, old(TopAfter()),
                [if (old(requestPeer) || peerToo) && !old(awaitingPeer) then 1 else 0])
    {
      hide S.SenderInv, S.Enabled, S.Next, S.Run, Adds, Exchanged, Sendable;
      EmptyRun(sender);
      if !complete { return Some(UnexpectedMessage), []; }
      var epoch := CurrentWriteEpoch();
      if epoch >= S.LAST_EPOCH { return Some(SequenceExhausted), []; }
      events := MarkPending();
      if peerToo && !awaitingPeer { requestPeer := true; }
      ghost var more;
      error, more := AdvancePost(limit, interval, attempt, answer, request);
      RunOn(old(sender), events, more);
      events := events + more;
    }

    /** The peer has updated its keys, and may want this side to do the same. */
    method PeerUpdated(requested: bool) returns (ghost events: seq<S.Event>)
      requires Valid() && complete
      modifies `localPending, `requestPeer, `awaitingPeer, `sender
      ensures Valid() && S.Run(old(sender), events) == Some(sender) && !awaitingPeer && !requestPeer
      ensures localPending == (old(localPending) || (requested && sender.top < S.LAST_EPOCH))
    {
      hide S.SenderInv, S.Enabled, S.Next;
      EmptyRun(sender);
      events := [];
      awaitingPeer, requestPeer := false, false;
      var epoch := CurrentWriteEpoch();
      if requested && epoch < S.LAST_EPOCH { events := MarkPending(); }
    }
  }

  /** From a new session to its first flight after the handshake. */
  method FirstPost(limit: nat, body: seq<byte>, interval: int) returns (w: WriteState, started: bool)
    requires 0 < limit && 0 < |body| <= MAX_BODY
    ensures fresh(w) && w.Valid() && started && (R.NEW_CONNECTION_ID as nat) in w.flights && w.sequence == 1
  {
    w := new WriteState();
    ghost var events := w.CompleteHandshake(limit);
    var error;
    error, started, events := w.StartPost(R.NEW_CONNECTION_ID, body, interval, FirstPartSent(|body|, false));
  }

  lemma BeginPostEnabled(s: S.Sender, typ: byte, body: seq<byte>, interval: int, end: nat)
    requires s.complete && !s.updating && S.OutboundDone(s) && |s.history| < 0x1_0000 && |body| <= MAX_BODY
    requires typ in {R.REQUEST_CONNECTION_ID, R.NEW_CONNECTION_ID, R.KEY_UPDATE}
    requires (typ as nat) in s.flights ==> s.flights[typ].complete
    requires typ == R.KEY_UPDATE ==> s.localPending && body in {[0], [1]} && s.top < S.LAST_EPOCH
    requires S.CanNumber(s, s.top) && end <= |body| && (body != [] ==> end > 0)
    ensures S.Enabled(s, S.BeginPost(typ, body, interval, end))
  {
  }

  lemma FinishShape(s: S.Sender, key: nat)
    requires key in s.flights && !s.flights[key].complete && (Flights.AllAcknowledged(s.flights[key]) || (key == S.OUTBOUND && !s.complete))
    ensures var e := if Flights.AllAcknowledged(s.flights[key]) then S.FlightDone(key) else S.Answered;
      S.Enabled(s, e) && S.Next(s, e) == s.(flights := s.flights[key := Flights.Finish(s.flights[key])])
    ensures Flights.Finish(s.flights[key]).complete
  {
  }

  lemma AckShape(s: S.Sender, key: nat, number: RecordNumber, authenticated: bool)
    requires S.SenderInv(s) && key in s.flights && !s.flights[key].complete
    ensures Flights.Valid(s.flights[key]) && S.Enabled(s, S.Acknowledged(key, number, authenticated))
    ensures var g := Flights.AckOne(s.flights[key], number, authenticated).0;
      S.Next(s, S.Acknowledged(key, number, authenticated)) == s.(flights := s.flights[key := g]) && !g.complete
  {
    Flights.AckOneKeeps(s.flights[key], number, authenticated);
    hide Flights.AckOne, Flights.Valid;
  }

  lemma CompleteShape(s: S.Sender, limit: nat)
    requires !s.complete && S.SenderInv(s)
    ensures S.Enabled(s, S.HandshakeDone(limit)) && s.top in {0, 2, 3}
    ensures var t := S.Next(s, S.HandshakeDone(limit));
      t == s.(complete := true, top := 3, installed := s.installed + {3}, write := if 3 in s.installed then s.write else s.write[3 := WriteEpoch(0, limit)])
  {
    assert 3 in s.installed ==> s.installed + {3} == s.installed;
  }

  lemma BeginHandshakeShape(s: S.Sender, messages: seq<Message>, interval: int)
    requires S.Enabled(s, S.BeginHandshake(messages, interval))
    ensures var t := S.Next(s, S.BeginHandshake(messages, interval));
      && t == s.(history := s.history + messages, flights := t.flights)
      && t.flights.Keys == s.flights.Keys + {S.OUTBOUND} && !t.flights[S.OUTBOUND].complete
      && forall k :: k in s.flights && k != S.OUTBOUND ==> t.flights[k] == s.flights[k]
  {
  }

  lemma EmptyRun(s: S.Sender)
    ensures S.Run(s, []) == Some(s)
  {
  }

  /** What starting a flight after the handshake changes. */
  lemma BeginPostShape(s: S.Sender, typ: byte, body: seq<byte>, interval: int, end: nat)
    requires S.Enabled(s, S.BeginPost(typ, body, interval, end))
    ensures s.top in s.write && var t := S.Next(s, S.BeginPost(typ, body, interval, end)); var w := s.write[s.top];
      && t.write == s.write[s.top := w.(sequence := w.sequence + 1)] && t.top == s.top && t.installed == s.installed
      && Adds(s.history, t.history, typ, s.top, body) && t.complete == s.complete && t.flights.Keys == s.flights.Keys + {typ as nat}
      && !t.flights[typ].complete && (forall k :: k in s.flights && k != typ ==> t.flights[k] == s.flights[k])
      && t.updating == (typ == R.KEY_UPDATE) && t.localPending == (s.localPending && typ != R.KEY_UPDATE)
  {
  }

  lemma NextKeysShape(s: S.Sender, limit: nat)
    requires s.complete && s.updating && s.write.Keys == {s.top} && forall k :: k in s.flights ==> s.flights[k].complete
    ensures S.Enabled(s, S.NextKeys(limit))
    ensures S.Next(s, S.NextKeys(limit)) == s.(write := map[s.top + 1 := WriteEpoch(0, limit)], top := s.top + 1, updating := false)
  {
  }

  lemma ForgetShape(s: S.Sender, key: nat)
    requires key in s.flights && s.flights[key].complete && s.complete && !s.updating
    ensures S.Enabled(s, S.Forget(key)) && S.Next(s, S.Forget(key)) == s.(flights := s.flights - {key})
  {
  }

  lemma {:induction false} RunOn(s: S.Sender, a: seq<S.Event>, b: seq<S.Event>)
    requires S.Run(s, a).Some?
    ensures S.Run(s, a + b) == S.Run(S.Run(s, a).value, b)
    decreases |a|
  {
    hide S.Enabled, S.Next;
    if a == [] {
      assert [] + b == b;
    } else {
      assert (a + b)[1..] == a[1..] + b;
      RunOn(S.Next(s, a[0]), a[1..], b);
    }
  }
}
