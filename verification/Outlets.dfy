/** The sending half of a session's record layer: one counter per installed write epoch. */
module Outlets {
  import opened Wire

  datatype WriteEpoch = WriteEpoch(sequence: nat, limit: nat)

  datatype Packet = Packet(number: RecordNumber, body: seq<byte>)

  /** Bytes on the wire for a record with this much content: a plain header, or a unified header, type byte and tag. */
  function PacketLength(epoch: nat, cid: nat, content: nat): nat {
    if epoch == 0 then 13 + content else 1 + cid + 2 + 2 + content + 1 + 16
  }

  /** Every number handed out lies below its epoch's counter, and no counter passes its limit. */
  ghost predicate Issued(numbers: seq<RecordNumber>, epochs: map<nat, WriteEpoch>) {
    && (forall e :: e in epochs ==> epochs[e].sequence <= epochs[e].limit)
    && (forall n :: n in numbers && n.epoch in epochs ==> n.sequence < epochs[n.epoch].sequence)
    && forall i, j :: 0 <= i < j < |numbers| ==> numbers[i] != numbers[j]
  }

  class Outlet {
    var epochs: map<nat, WriteEpoch>
    var cid: nat
    var mtu: nat
    /** Numbers of all packets handed to the transport, and the packets it said it took. */
    ghost var handed: seq<RecordNumber>
    ghost var wire: seq<Packet>

    constructor (cid: nat, mtu: nat)
      ensures Valid() && epochs == map[0 := WriteEpoch(0, 0x1_0000_0000_0000)]
      ensures this.cid == cid && this.mtu == mtu && handed == [] && wire == []
    {
      epochs := map[0 := WriteEpoch(0, 0x1_0000_0000_0000)];
      this.cid, this.mtu, handed, wire := cid, mtu, [], [];
    }

    ghost predicate Valid()
      reads this
    {
      Issued(handed, epochs)
    }

    /** Numbers, bounds, hands over; the transport may still report a failure, and the number is then spent. */
    method Send(epoch: nat, body: seq<byte>) returns (r: Result<RecordNumber>)
      requires Valid()
      modifies `epochs, `handed, `wire
      ensures Valid()
      ensures epochs.Keys == old(epochs).Keys
      ensures forall e :: e in epochs && e != epoch ==> epochs[e] == old(epochs)[e]
      ensures forall e :: e in epochs ==> old(epochs)[e].sequence <= epochs[e].sequence
      ensures epoch in epochs ==> epochs[epoch].limit == old(epochs)[epoch].limit
      ensures r.Ok? ==>
        && epoch in old(epochs)
        && r.value == RecordNumber(epoch, old(epochs)[epoch].sequence)
        && r.value.sequence < epochs[epoch].limit && epochs[epoch].sequence == r.value.sequence + 1
        && PacketLength(epoch, cid, |body|) <= mtu && |body| <= MAX_CONTENT
        && handed == old(handed) + [r.value] && wire == old(wire) + [Packet(r.value, body)]
      ensures r.Err? ==> wire == old(wire)
      ensures r == Err(KeyMaterial) <==> epoch !in old(epochs)
      ensures r == Err(SequenceExhausted) <==> epoch in old(epochs) && old(epochs)[epoch].sequence == old(epochs)[epoch].limit
      ensures r == Err(RecordOverflow) <==>
        (epoch in old(epochs) && old(epochs)[epoch].sequence < old(epochs)[epoch].limit
         && (|body| > MAX_CONTENT || PacketLength(epoch, cid, |body|) > mtu))
      ensures r.Err? ==> r.error in {KeyMaterial, SequenceExhausted, RecordOverflow, SendFailed}
      ensures r.Err? && r.error != SendFailed ==> epochs == old(epochs) && handed == old(handed)
      ensures r == Err(SendFailed) ==>
        && epochs[epoch].sequence == old(epochs)[epoch].sequence + 1
        && handed == old(handed) + [RecordNumber(epoch, old(epochs)[epoch].sequence)]
    {
      if epoch !in epochs { return Err(KeyMaterial); }
      var w := epochs[epoch];
      if w.sequence >= w.limit { return Err(SequenceExhausted); }
      if |body| > MAX_CONTENT || PacketLength(epoch, cid, |body|) > mtu { return Err(RecordOverflow); }
      var number := RecordNumber(epoch, w.sequence);
      epochs := epochs[epoch := w.(sequence := w.sequence + 1)];
      handed := handed + [number];
      var taken: bool := *;
      if !taken { return Err(SendFailed); }
      wire := wire + [Packet(number, body)];
      return Ok(number);
    }
  }
}
