/** How large each kind of datagram comes out on the wire. */
module Sizing {
  import opened Wire
  import Outlets
  import Records
  import Replay

  const RRC_MESSAGE := 9
  const RRC_TYPE := 27
  const TAG := 16

  function Min(a: int, b: int): int { if a < b then a else b }

  function Overhead(cid: nat): nat { 1 + cid + 2 + 2 + 1 + TAG }

  /** Body bytes of a handshake fragment that still fit a datagram. */
  function FragmentBudget(mtu: int, cid: nat): (n: nat) {
    var n := mtu - HANDSHAKE_HEADER - 5 - cid - 17;
    Min(if n < 1 then 1 else n, MAX_CONTENT - HANDSHAKE_HEADER)
  }

  /** Record numbers in one acknowledgement record. */
  function AckLimit(mtu: int, cid: nat): nat { (FragmentBudget(mtu, cid) + HANDSHAKE_HEADER - 2) / 16 }

  /** The largest application write published to the user. */
  function DatagramBudget(mtu: int, cid: nat): nat {
    var n := Min(MAX_CONTENT, mtu - Overhead(cid));
    if n < 0 then 0 else n
  }

  function ProbePadding(size: int, cid: nat): Result<nat> {
    var overhead := Overhead(cid) + RRC_MESSAGE;
    if size < overhead then Err(InvalidRecord)
    else if RRC_MESSAGE + size - overhead > MAX_CONTENT then Err(RecordOverflow)
    else Ok(size - overhead)
  }

  /** One record of any epoch: plain below epoch 2, protected from there on. */
  function Protect(k: Records.Keys, number: RecordNumber, cid: seq<byte>, typ: byte, content: seq<byte>, padding: int): Result<seq<byte>>
    requires Records.Lawful(k)
  {
    if number.epoch == 0 then Records.EncodePlain(typ, number.sequence, content)
    else Records.Encode(k, number, cid, typ, content, padding)
  }

  lemma WireLength(k: Records.Keys, number: RecordNumber, cid: seq<byte>, typ: byte, content: seq<byte>)
    requires Records.Lawful(k)
    ensures var r := Protect(k, number, cid, typ, content, 0);
      r.Ok? ==> |r.value| == Outlets.PacketLength(number.epoch, |cid|, |content|)
  {
    if number.epoch != 0 && Records.Encode(k, number, cid, typ, content, 0).Ok? {
      Records.EncodedLength(k, number, cid, typ, content, 0);
    }
  }

  function FragmentPacket(epoch: nat, cid: nat, body: nat): nat {
    Outlets.PacketLength(epoch, cid, HANDSHAKE_HEADER + body)
  }

  /** Every fragment within the budget fits the datagram size exactly when it has room for headers, tag and one byte. */
  lemma FragmentsFit(mtu: int, cid: nat)
    ensures (forall epoch, body: nat :: body <= FragmentBudget(mtu, cid) ==> FragmentPacket(epoch, cid, body) <= mtu) <==> mtu >= cid + 35
  {
    assert FragmentPacket(2, cid, FragmentBudget(mtu, cid)) == cid + 34 + FragmentBudget(mtu, cid);
  }

  /** Acknowledgements of up to the limit fit; the limit lets one through exactly from five more bytes on. */
  lemma AcksFit(mtu: int, cid: nat, epoch: nat, count: nat)
    requires count <= AckLimit(mtu, cid)
    ensures mtu >= cid + 35 ==> Outlets.PacketLength(epoch, cid, 2 + 16 * count) <= mtu
    ensures AckLimit(mtu, cid) >= 1 <==> mtu >= cid + 40
  {
  }

  /** A write encodes to at most the working size exactly when it is within the published maximum and the overhead alone fits. */
  lemma ApplicationWritesFit(k: Records.Keys, number: RecordNumber, cid: seq<byte>, content: seq<byte>, mtu: int)
    requires Records.Lawful(k) && 2 <= number.epoch && number.sequence <= Replay.MAX_SEQUENCE && |cid| <= Records.MAX_CID
    ensures var r := Records.Encode(k, number, cid, 23, content, 0);
      (r.Ok? && |r.value| <= mtu) <==> mtu >= Overhead(|cid|) && |content| <= DatagramBudget(mtu, |cid|)
  {
    if |content| <= MAX_CONTENT {
      Records.EncodedLength(k, number, cid, 23, content, 0);
    }
  }

  /** A probe of a requested size is a datagram of exactly that size. */
  lemma ProbesAreExact(k: Records.Keys, number: RecordNumber, cid: seq<byte>, message: seq<byte>, size: int)
    requires Records.Lawful(k) && 2 <= number.epoch && number.sequence <= Replay.MAX_SEQUENCE && |cid| <= Records.MAX_CID
    requires |message| == RRC_MESSAGE && ProbePadding(size, |cid|).Ok?
    ensures var r := Records.Encode(k, number, cid, RRC_TYPE, message, ProbePadding(size, |cid|).value); r.Ok? && |r.value| == size
  {
    Records.EncodedLength(k, number, cid, RRC_TYPE, message, ProbePadding(size, |cid|).value);
  }
}
