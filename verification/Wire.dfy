/** Shared vocabulary: bytes, errors, record numbers and the wire reader and writer. */
module Wire {

  type byte = n: int | 0 <= n < 256
  type u16 = n: int | 0 <= n < 0x1_0000
  type u64 = n: int | 0 <= n < 0x1_0000_0000_0000_0000

  /** Largest record content, and what a handshake header takes of it. */
  const MAX_CONTENT := 0x4000
  const HANDSHAKE_HEADER := 12

  datatype Option<+T> = None | Some(value: T)

  datatype Error =
    | Decode | IllegalParameter | UnexpectedMessage | ProtocolVersion
    | HandshakeLimit | FragmentConflict | HandshakeTimeout
    | InvalidRecord | RecordOverflow | SequenceExhausted | Replayed | Authentication
    | UnsupportedExtension | HandshakeFailure
    | KeyMaterial | OperationPending | MalformedAck | SendFailed | Closed | Collision

  datatype Result<+T> = Ok(value: T) | Err(error: Error)

  datatype RecordNumber = RecordNumber(epoch: nat, sequence: nat)

  // ----- big-endian integers -----

  function U16(n: u16): (s: seq<byte>)
    ensures |s| == 2
  {
    [n / 256, n % 256]
  }

  function U24(n: int): (s: seq<byte>)
    requires 0 <= n < 0x100_0000
    ensures |s| == 3
  {
    [n / 0x1_0000, n / 256 % 256, n % 256]
  }

  function U32(n: int): (s: seq<byte>)
    requires 0 <= n < 0x1_0000_0000
    ensures |s| == 4
  {
    U16(n / 0x1_0000) + U16(n % 0x1_0000)
  }

  function U64(n: u64): (s: seq<byte>)
    ensures |s| == 8
  {
    U32(n / 0x1_0000_0000) + U32(n % 0x1_0000_0000)
  }

  function Value16(s: seq<byte>): (n: u16)
    requires |s| == 2
  {
    (s[0] as int) * 256 + s[1]
  }

  function Value24(s: seq<byte>): (n: nat)
    requires |s| == 3
    ensures n < 0x100_0000
  {
    (s[0] as int) * 0x1_0000 + (s[1] as int) * 256 + s[2]
  }

  function Value32(s: seq<byte>): (n: nat)
    requires |s| == 4
    ensures n < 0x1_0000_0000
  {
    (Value16(s[..2]) as int) * 0x1_0000 + Value16(s[2..])
  }

  function Value64(s: seq<byte>): (n: u64)
    requires |s| == 8
  {
    Value32(s[..4]) * 0x1_0000_0000 + Value32(s[4..])
  }

  lemma RoundTrip16(n: u16)
    ensures Value16(U16(n)) == n
  {
  }

  lemma RoundTrip32(n: int)
    requires 0 <= n < 0x1_0000_0000
    ensures Value32(U32(n)) == n
  {
    assert U32(n)[..2] == U16(n / 0x1_0000) && U32(n)[2..] == U16(n % 0x1_0000);
  }

  lemma RoundTrip64(n: u64)
    ensures Value64(U64(n)) == n
  {
    assert U64(n)[..4] == U32(n / 0x1_0000_0000) && U64(n)[4..] == U32(n % 0x1_0000_0000);
    RoundTrip32(n / 0x1_0000_0000);
    RoundTrip32(n % 0x1_0000_0000);
  }

  // ----- wireReader: every read after a short one fails and yields nothing -----

  datatype Reader = Reader(data: seq<byte>, failed: bool) {
    function Take(n: int): (seq<byte>, Reader) {
      if failed || n < 0 || n > |data| then ([], Reader(data, true))
      else (data[..n], Reader(data[n..], false))
    }

    function ReadU8(): (byte, Reader) {
      var (b, r) := Take(1);
      (if |b| == 1 then b[0] else 0, r)
    }

    function ReadU16(): (u16, Reader) {
      var (b, r) := Take(2);
      (if |b| == 2 then Value16(b) else 0, r)
    }

    function ReadU24(): (nat, Reader) {
      var (b, r) := Take(3);
      (if |b| == 3 then Value24(b) else 0, r)
    }

    function Vector8(): (seq<byte>, Reader) {
      var (n, r) := ReadU8();
      r.Take(n)
    }

    function Vector16(): (seq<byte>, Reader) {
      var (n, r) := ReadU16();
      r.Take(n)
    }

    function Vector24(): (seq<byte>, Reader) {
      var (n, r) := ReadU24();
      r.Take(n)
    }

    predicate Done() {
      !failed && data == []
    }
  }

  // Reading back what was written leaves exactly the rest of the input.

  lemma ReadsU8(n: byte, rest: seq<byte>)
    ensures Reader([n] + rest, false).ReadU8() == (n, Reader(rest, false))
  {
    assert ([n] + rest)[1..] == rest;
  }

  lemma ReadsU16(n: u16, rest: seq<byte>)
    ensures Reader(U16(n) + rest, false).ReadU16() == (n, Reader(rest, false))
  {
    Taken(U16(n), rest);
  }

  lemma ReadsU24(n: int, rest: seq<byte>)
    requires 0 <= n < 0x100_0000
    ensures Reader(U24(n) + rest, false).ReadU24() == (n, Reader(rest, false))
  {
    Taken(U24(n), rest);
  }

  lemma Taken(s: seq<byte>, rest: seq<byte>)
    ensures Reader(s + rest, false).Take(|s|) == (s, Reader(rest, false))
  {
    assert (s + rest)[..|s|] == s && (s + rest)[|s|..] == rest;
  }

  lemma ReadsVector8(v: seq<byte>, rest: seq<byte>)
    requires |v| < 256
    ensures Reader([|v|] + v + rest, false).Vector8() == (v, Reader(rest, false))
  {
    assert [|v|] + v + rest == [|v|] + (v + rest);
    ReadsU8(|v|, v + rest);
    Taken(v, rest);
  }

  lemma ReadsVector16(v: seq<byte>, rest: seq<byte>)
    requires |v| < 0x1_0000
    ensures Reader(U16(|v|) + v + rest, false).Vector16() == (v, Reader(rest, false))
  {
    assert U16(|v|) + v + rest == U16(|v|) + (v + rest);
    ReadsU16(|v|, v + rest);
    Taken(v, rest);
  }

  lemma ReadsVector24(v: seq<byte>, rest: seq<byte>)
    requires |v| < 0x100_0000
    ensures Reader(U24(|v|) + v + rest, false).Vector24() == (v, Reader(rest, false))
  {
    assert U24(|v|) + v + rest == U24(|v|) + (v + rest);
    ReadsU24(|v|, v + rest);
    Taken(v, rest);
  }

  // And what could be read had been written so.

  lemma WasU16(r: Reader)
    ensures var (n, rest) := r.ReadU16(); !rest.failed ==> !r.failed && r.data == U16(n) + rest.data
  {
    if !r.ReadU16().1.failed { assert r.data == r.data[..2] + r.data[2..]; }
  }

  lemma WasVector8(r: Reader)
    ensures var (v, rest) := r.Vector8(); !rest.failed ==> !r.failed && |v| < 256 && r.data == [|v|] + v + rest.data
  {
    if !r.Vector8().1.failed { assert r.data == r.data[..1] + r.data[1..]; }
  }

  lemma WasVector16(r: Reader)
    ensures var (v, rest) := r.Vector16(); !rest.failed ==> !r.failed && |v| < 0x1_0000 && r.data == U16(|v|) + v + rest.data
  {
    WasU16(r);
    var (n, s) := r.ReadU16();
    hide U16;
    if !r.Vector16().1.failed { assert s.data == s.data[..n] + s.data[n..]; }
  }
}
