/** The record layer: unified headers, sequence numbers cut to sixteen bits, padding, and their way back. */
module Records {
  import opened Wire
  import opened Replay

  const MAX_CIPHERTEXT := MAX_CONTENT + 256
  const PLAIN_HEADER := 13
  const MAX_CID := 255
  const TAG := 16
  const MASK := 16

  /** Record protection of one epoch: what the record layer needs of its cipher, and nothing more. */
  datatype Keys = Keys(
    seal: (seq<byte>, u64, seq<byte>) -> seq<byte>,
    open: (seq<byte>, u64, seq<byte>) -> Option<seq<byte>>,
    mask: seq<byte> -> seq<byte>)

  ghost predicate Lawful(k: Keys) {
    && (forall header, n, plain :: |k.seal(header, n, plain)| == |plain| + TAG)
    && (forall header, n, plain :: k.open(header, n, k.seal(header, n, plain)) == Some(plain))
    && (forall sample :: |k.mask(sample)| == MASK)
  }

  datatype Record = Record(
    header: seq<byte>, body: seq<byte>, cid: seq<byte>, epoch: nat, sequence: nat, typ: byte,
    encrypted: bool, seqOffset: nat, seqLen: nat)

  predicate ValidContentType(typ: byte) {
    typ == 21 || typ == 22 || typ == 23 || typ == 26 || typ == 27
  }

  // ----- masking -----

  function Pow2(n: nat): nat { if n == 0 then 1 else 2 * Pow2(n - 1) }

  /** Exclusive-or of the n low bits. */
  function XorBits(a: nat, b: nat, n: nat): (r: nat)
    ensures r < Pow2(n)
  {
    if n == 0 then 0 else 2 * XorBits(a / 2, b / 2, n - 1) + (a + b) % 2
  }

  function Xor(a: byte, b: byte): byte { XorBits(a, b, 8) }

  lemma {:induction false} XorBitsTwice(a: nat, b: nat, n: nat)
    requires a < Pow2(n)
    ensures XorBits(XorBits(a, b, n), b, n) == a
  {
    if n > 0 {
      LowBit(XorBits(a / 2, b / 2, n - 1), a, b);
      XorBitsTwice(a / 2, b / 2, n - 1);
    }
  }

  lemma LowBit(half: nat, a: nat, b: nat)
    ensures var r := 2 * half + (a + b) % 2; r / 2 == half && r % 2 == (a + b) % 2 && (r + b) % 2 == a % 2
  {
  }

  /** Bit i of a number, the lowest being bit 0. */
  predicate Bit(a: nat, i: nat) { if i == 0 then a % 2 == 1 else Bit(a / 2, i - 1) }

  /** What the bits of a number below i are worth. */
  function Worth(a: nat, i: nat): nat {
    if i == 0 then 0 else Worth(a, i - 1) + if Bit(a, i - 1) then Pow2(i - 1) else 0
  }

  lemma {:induction false} WorthDoubles(a: nat, i: nat)
    ensures Worth(a, i + 1) == 2 * Worth(a / 2, i) + a % 2
  {
    if i > 0 { WorthDoubles(a, i - 1); }
  }

  /** A number below 2^n is the sum of its n bits. */
  lemma {:induction false} BitsMakeTheNumber(a: nat, n: nat)
    requires a < Pow2(n)
    ensures Worth(a, n) == a
  {
    if n > 0 {
      BitsMakeTheNumber(a / 2, n - 1);
      WorthDoubles(a, n - 1);
    }
  }

  lemma {:induction false} XorBitsDiffer(a: nat, b: nat, n: nat, i: nat)
    requires i < n
    ensures Bit(XorBits(a, b, n), i) <==> Bit(a, i) != Bit(b, i)
  {
    LowBit(XorBits(a / 2, b / 2, n - 1), a, b);
    if i > 0 {
      XorBitsDiffer(a / 2, b / 2, n - 1, i - 1);
    } else {
      OddSum(a, b);
    }
  }

  lemma OddSum(a: nat, b: nat)
    ensures (a + b) % 2 == 1 <==> a % 2 != b % 2
  {
  }

  /** Each bit of the result is set exactly where the two bytes differ. */
  ghost predicate IsXor(r: byte, a: byte, b: byte) {
    forall i :: 0 <= i < 8 ==> (Bit(r, i) <==> Bit(a, i) != Bit(b, i))
  }

  lemma XorIsExclusiveOr(a: byte, b: byte)
    ensures IsXor(Xor(a, b), a, b)
  {
    forall i | 0 <= i < 8 ensures Bit(Xor(a, b), i) <==> Bit(a, i) != Bit(b, i) { XorBitsDiffer(a, b, 8, i); }
  }

  lemma XorTwice(a: byte, b: byte)
    ensures Xor(Xor(a, b), b) == a
  {
    XorBitsTwice(a, b, 8);
  }

  /** Exclusive-or of the n bytes at offset with the start of the mask. */
  function Masked(header: seq<byte>, offset: nat, n: nat, mask: seq<byte>): (r: seq<byte>)
    requires offset + n <= |header| && n <= |mask|
    ensures |r| == |header|
  {
    seq(|header|, i requires 0 <= i < |header| =>
      if offset <= i < offset + n then Xor(header[i], mask[i - offset]) else header[i])
  }

  lemma MaskedTwice(header: seq<byte>, offset: nat, n: nat, mask: seq<byte>)
    requires offset + n <= |header| && n <= |mask|
    ensures Masked(Masked(header, offset, n, mask), offset, n, mask) == header
  {
    hide Xor;
    forall i | 0 <= i < |header| ensures Masked(Masked(header, offset, n, mask), offset, n, mask)[i] == header[i] {
      if offset <= i < offset + n { XorTwice(header[i], mask[i - offset]); }
    }
  }

  // ----- encoding -----

  function Zeros(n: nat): (z: seq<byte>)
    ensures |z| == n && forall i :: 0 <= i < n ==> z[i] == 0
  {
    seq(n, _ => 0)
  }

  function FirstByte(epoch: nat, cid: seq<byte>): byte {
    0x2c + epoch % 4 + if cid == [] then 0 else 0x10
  }

  function Header(epoch: nat, cid: seq<byte>, truncated: u16, length: u16): (h: seq<byte>)
    ensures |h| == 1 + |cid| + 4
  {
    [FirstByte(epoch, cid)] + cid + U16(truncated) + U16(length)
  }

  function Encode(k: Keys, number: RecordNumber, cid: seq<byte>, typ: byte, content: seq<byte>, padding: int): (r: Result<seq<byte>>)
    requires Lawful(k)
  {
    if number.epoch < 2 || |cid| > MAX_CID || !ValidContentType(typ) || number.sequence > MAX_SEQUENCE then Err(InvalidRecord)
    else if |content| > MAX_CONTENT || padding < 0 || padding > MAX_CONTENT - |content| then Err(RecordOverflow)
    else
      var inner := content + [typ] + Zeros(padding);
      var length := |inner| + TAG;
      var header := Header(number.epoch, cid, number.sequence % 0x1_0000, length);
      var sealed := k.seal(header, number.sequence, inner);
      Ok(Masked(header, 1 + |cid|, 2, k.mask(sealed)) + sealed)
  }

  /** The size of a protected record does not depend on what it carries, only on how much. */
  lemma EncodedLength(k: Keys, number: RecordNumber, cid: seq<byte>, typ: byte, content: seq<byte>, padding: int)
    requires Lawful(k) && Encode(k, number, cid, typ, content, padding).Ok?
    ensures |Encode(k, number, cid, typ, content, padding).value| == 1 + |cid| + 2 + 2 + |content| + padding + 1 + TAG
  {
    hide Xor;
  }

  function EncodePlain(typ: byte, sequence: nat, content: seq<byte>): (r: Result<seq<byte>>) {
    if sequence >= 0x1_0000_0000_0000 then Err(SequenceExhausted)
    else if typ != 22 && typ != 21 && typ != 26 then Err(InvalidRecord)
    else if |content| > MAX_CONTENT then Err(RecordOverflow)
    else Ok([typ, 0xfe, 0xfd] + [0, 0] + U24(sequence / 0x100_0000) + U24(sequence % 0x100_0000) + U16(|content|) + content)
  }

  // ----- parsing -----

  function ParseUnified(datagram: seq<byte>, cidLen: nat): (r: Result<(Record, seq<byte>)>)
    requires |datagram| > 0
  {
    var first := datagram[0];
    var hasCid, long, hasLength := first / 16 % 2 == 1, first / 8 % 2 == 1, first / 4 % 2 == 1;
    if hasCid && (cidLen == 0 || |datagram| < 1 + cidLen) then Err(InvalidRecord)
    else
      var seqOffset := 1 + if hasCid then cidLen else 0;
      var seqLen := if long then 2 else 1;
      var headerLen := seqOffset + seqLen + if hasLength then 2 else 0;
      if |datagram| < headerLen then Err(InvalidRecord)
      else
        var bodyLen := if hasLength then Value16(datagram[headerLen - 2..headerLen]) else |datagram| - headerLen;
        if bodyLen < MASK || bodyLen > |datagram| - headerLen then Err(InvalidRecord)
        else if bodyLen > MAX_CIPHERTEXT then Err(RecordOverflow)
        else
          Ok((Record(datagram[..headerLen], datagram[headerLen..headerLen + bodyLen],
                     if hasCid then datagram[1..1 + cidLen] else [], first % 4, 0, first, true, seqOffset, seqLen),
              datagram[headerLen + bodyLen..]))
  }

  function ParsePlain(datagram: seq<byte>): (r: Result<(Record, seq<byte>)>)
    requires |datagram| > 0
  {
    var first := datagram[0];
    if (first != 21 && first != 22 && first != 26) || |datagram| < PLAIN_HEADER || Value16(datagram[3..5]) != 0 then Err(InvalidRecord)
    else
      var length := Value16(datagram[11..13]);
      if length > |datagram| - PLAIN_HEADER then Err(InvalidRecord)
      else if length > MAX_CONTENT then Err(RecordOverflow)
      else
        Ok((Record(datagram[..PLAIN_HEADER], datagram[PLAIN_HEADER..PLAIN_HEADER + length], [], 0,
                   Value24(datagram[5..8]) * 0x100_0000 + Value24(datagram[8..11]), first, false, 0, 0),
            datagram[PLAIN_HEADER + length..]))
  }

  function Parse(datagram: seq<byte>, cidLen: int): (r: Result<(Record, seq<byte>)>) {
    if |datagram| == 0 || cidLen < 0 || cidLen > MAX_CID then Err(InvalidRecord)
    else if datagram[0] / 32 == 1 then ParseUnified(datagram, cidLen)
    else ParsePlain(datagram)
  }

  lemma ParseShrinks(datagram: seq<byte>, cidLen: int)
    ensures Parse(datagram, cidLen).Ok? ==> |Parse(datagram, cidLen).value.1| < |datagram|
  {
  }

  // ----- sequence numbers -----

  /** The number nearest to the expected one whose low bytes were sent. */
  function Reconstruct(truncated: nat, size: nat, expected: u64): (n: nat)
    requires size == 1 || size == 2
    requires truncated < if size == 1 then 0x100 else 0x1_0000
  {
    var window := if size == 1 then 0x100 else 0x1_0000;
    var half := window / 2;
    var candidate := expected / window * window + truncated;
    if candidate <= expected && expected - candidate >= half && candidate <= MAX_SEQUENCE - window then candidate + window
    else if candidate > expected && candidate - expected > half && candidate >= window then candidate - window
    else candidate
  }

  lemma ReconstructTwo(n: u64, expected: u64)
    requires expected - 0x8000 < n <= expected + 0x8000
    ensures Reconstruct(n % 0x1_0000, 2, expected) == n
  {
    var q, p := expected / 0x1_0000, n / 0x1_0000;
    assert p == q || p == q + 1 || p == q - 1;
  }

  lemma ReconstructOne(n: u64, expected: u64)
    requires expected - 0x80 < n <= expected + 0x80
    ensures Reconstruct(n % 0x100, 1, expected) == n
  {
    var q, p := expected / 0x100, n / 0x100;
    assert p == q || p == q + 1 || p == q - 1;
  }

  /** Within half a window of the expected number, the low bytes determine the number, at both ends of the range too. */
  lemma ReconstructExact(n: u64, size: nat, expected: u64)
    requires size == 1 || size == 2
    requires var half := if size == 1 then 0x80 else 0x8000; expected - half < n <= expected + half
    ensures Reconstruct(n % if size == 1 then 0x100 else 0x1_0000, size, expected) == n
  {
    hide Reconstruct;
    if size == 1 { ReconstructOne(n, expected); } else { ReconstructTwo(n, expected); }
  }

  // ----- decoding -----

  /** The inner plaintext up to and including its last byte that is not zero. */
  function Trim(inner: seq<byte>): (r: seq<byte>)
    ensures r <= inner && (r != [] ==> r[|r| - 1] != 0)
  {
    if inner == [] || inner[|inner| - 1] != 0 then inner else Trim(inner[..|inner| - 1])
  }

  lemma {:induction false} TrimPadded(s: seq<byte>, padding: nat)
    requires s == [] || s[|s| - 1] != 0
    ensures Trim(s + Zeros(padding)) == s
  {
    if padding == 0 {
      assert s + Zeros(0) == s;
    } else {
      assert (s + Zeros(padding))[..|s| + padding - 1] == s + Zeros(padding - 1);
      TrimPadded(s, padding - 1);
    }
  }

  method FindContentEnd(inner: seq<byte>) returns (end: int)
    ensures -1 <= end < |inner| && Trim(inner) == inner[..end + 1]
  {
    end := |inner| - 1;
    assert inner[..end + 1] == inner;
    while end >= 0 && inner[end] == 0
      invariant -1 <= end < |inner| && Trim(inner) == Trim(inner[..end + 1])
    {
      assert inner[..end + 1][..end] == inner[..end];
      end := end - 1;
    }
  }

  function TruncatedValue(s: seq<byte>): (n: nat)
    requires |s| == 1 || |s| == 2
    ensures n < if |s| == 1 then 0x100 else 0x1_0000
  {
    if |s| == 1 then s[0] else Value16(s)
  }

  datatype Opened = Opened(number: RecordNumber, typ: byte, content: seq<byte>, window: Window)

  function Decode(k: Keys, r: Record, epoch: nat, cid: seq<byte>, w: Window): (o: Result<Opened>)
    requires Lawful(k)
    requires r.encrypted ==> 1 <= r.seqLen <= 2 && r.seqOffset + r.seqLen <= |r.header|
  {
    if !r.encrypted || r.epoch != epoch % 4 || (r.cid != [] && cid != r.cid) then Err(Authentication)
    else if |r.body| < MASK then Err(Authentication)
    else
      var header := Masked(r.header, r.seqOffset, r.seqLen, k.mask(r.body));
      var sequence := Reconstruct(TruncatedValue(header[r.seqOffset..r.seqOffset + r.seqLen]), r.seqLen, Expected(w));
      if sequence > MAX_SEQUENCE then Err(Authentication)
      else
        var inner := k.open(header, sequence, r.body);
        if inner.None? then Err(Authentication)
        else if |inner.value| > MAX_CONTENT + 1 then Err(RecordOverflow)
        else
          var trimmed := Trim(inner.value);
          if trimmed == [] || !ValidContentType(trimmed[|trimmed| - 1]) then Err(InvalidRecord)
          else
            var (next, fresh_) := Accept(w, sequence);
            if !fresh_ then Err(Replayed)
            else Ok(Opened(RecordNumber(epoch, sequence), trimmed[|trimmed| - 1], trimmed[..|trimmed| - 1], next))
  }

  // ----- only sealed records open -----

  /** What opens was sealed. */
  ghost predicate Authentic(k: Keys) {
    forall header, n, sealed :: k.open(header, n, sealed).Some? ==> sealed == k.seal(header, n, k.open(header, n, sealed).value)
  }

  lemma {:induction false} TrimRest(inner: seq<byte>)
    ensures inner == Trim(inner) + Zeros(|inner| - |Trim(inner)|)
  {
    if inner != [] && inner[|inner| - 1] == 0 {
      var rest := inner[..|inner| - 1];
      TrimRest(rest);
      assert inner == rest + [0];
      assert Zeros(|inner| - |Trim(inner)|) == Zeros(|rest| - |Trim(rest)|) + [0];
    }
  }

  /** Whatever the cipher opens to has the low bytes that were sent. */
  lemma ReconstructCongruent(truncated: nat, size: nat, expected: u64)
    requires size == 1 || size == 2
    requires truncated < if size == 1 then 0x100 else 0x1_0000
    ensures Reconstruct(truncated, size, expected) % (if size == 1 then 0x100 else 0x1_0000) == truncated
  {
    if size == 1 { CongruentOne(expected / 0x100, truncated); } else { CongruentTwo(expected / 0x1_0000, truncated); }
  }

  lemma CongruentOne(q: int, truncated: nat)
    requires truncated < 0x100
    ensures (q * 0x100 + truncated) % 0x100 == truncated
    ensures (q * 0x100 + truncated + 0x100) % 0x100 == truncated && (q * 0x100 + truncated - 0x100) % 0x100 == truncated
  {
  }

  lemma CongruentTwo(q: int, truncated: nat)
    requires truncated < 0x1_0000
    ensures (q * 0x1_0000 + truncated) % 0x1_0000 == truncated
    ensures (q * 0x1_0000 + truncated + 0x1_0000) % 0x1_0000 == truncated && (q * 0x1_0000 + truncated - 0x1_0000) % 0x1_0000 == truncated
  {
  }

  /** The plaintext a record was opened to, and the header it was sealed under. */
  ghost predicate SealedAs(k: Keys, r: Record, o: Opened, padding: nat)
    requires 1 <= r.seqLen <= 2 && r.seqOffset + r.seqLen <= |r.header| && Lawful(k)
  {
    var header := Masked(r.header, r.seqOffset, r.seqLen, k.mask(r.body));
    && o.number.sequence <= MAX_SEQUENCE && r.body == k.seal(header, o.number.sequence, o.content + [o.typ] + Zeros(padding))
    && o.number.sequence % (if r.seqLen == 1 then 0x100 else 0x1_0000) == TruncatedValue(header[r.seqOffset..r.seqOffset + r.seqLen])
  }

  /** A record is accepted only if it was sealed with this content and type, under this number and this header, and is new to the window. */
  lemma DecodedIsGenuine(k: Keys, r: Record, epoch: nat, cid: seq<byte>, w: Window)
    requires Lawful(k) && Authentic(k) && (r.encrypted ==> 1 <= r.seqLen <= 2 && r.seqOffset + r.seqLen <= |r.header|)
    requires Decode(k, r, epoch, cid, w).Ok?
    ensures var o := Decode(k, r, epoch, cid, w).value;
      && r.encrypted && r.epoch == epoch % 4 && (r.cid == [] || r.cid == cid) && o.number.epoch == epoch
      && ValidContentType(o.typ) && |o.content| <= MAX_CONTENT && Accept(w, o.number.sequence) == (o.window, true)
      && exists padding: nat :: SealedAs(k, r, o, padding)
  {
    hide Xor, Accept, Reconstruct, Expected, Trim, Masked, TruncatedValue;
    var o := Decode(k, r, epoch, cid, w).value;
    var header := Masked(r.header, r.seqOffset, r.seqLen, k.mask(r.body));
    ReconstructCongruent(TruncatedValue(header[r.seqOffset..r.seqOffset + r.seqLen]), r.seqLen, Expected(w));
    var inner := k.open(header, o.number.sequence, r.body).value;
    TrimRest(inner);
    assert Trim(inner) == o.content + [o.typ];
    assert SealedAs(k, r, o, |inner| - |Trim(inner)|);
  }

  // ----- round trip -----

  predicate ValidForm(seqLen: nat) { seqLen == 1 || seqLen == 2 }

  function Low(sequence: nat, seqLen: nat): (s: seq<byte>)
    requires ValidForm(seqLen)
    ensures |s| == seqLen
  {
    if seqLen == 2 then U16(sequence % 0x1_0000) else [sequence % 0x100]
  }

  function Flags(epoch: nat, cid: seq<byte>, seqLen: nat, withLength: bool): byte {
    0x20 + (if cid == [] then 0 else 0x10) + (if seqLen == 2 then 8 else 0) + (if withLength then 4 else 0) + epoch % 4
  }

  /** Every form of the unified header: one or two sequence bytes, with a length or without. */
  function Form(epoch: nat, cid: seq<byte>, sequence: nat, seqLen: nat, withLength: bool, length: u16): (h: seq<byte>)
    requires ValidForm(seqLen)
    ensures |h| == 1 + |cid| + seqLen + if withLength then 2 else 0
  {
    [Flags(epoch, cid, seqLen, withLength)] + cid + Low(sequence, seqLen) + if withLength then U16(length) else []
  }

  /** A record as any peer may protect it. */
  datatype Shape = Shape(number: RecordNumber, cid: seq<byte>, typ: byte, content: seq<byte>, padding: nat, seqLen: nat, withLength: bool) {
    predicate Valid() {
      && ValidForm(seqLen) && number.sequence <= MAX_SEQUENCE && |cid| <= MAX_CID && ValidContentType(typ) && |content| + padding <= MAX_CONTENT
    }

    function Inner(): seq<byte> { content + [typ] + Zeros(padding) }

    function Clear(): seq<byte>
      requires Valid()
    {
      Form(number.epoch, cid, number.sequence, seqLen, withLength, |Inner()| + TAG)
    }

    function Sealed(k: Keys): seq<byte>
      requires Valid()
    {
      k.seal(Clear(), number.sequence, Inner())
    }

    function Front(k: Keys): seq<byte>
      requires Lawful(k) && Valid()
    {
      Masked(Clear(), 1 + |cid|, seqLen, k.mask(Sealed(k)))
    }

    /** What the parser sees of it, wherever in the datagram it stands. */
    function Sighted(k: Keys): Record
      requires Lawful(k) && Valid()
    {
      Record(Front(k), Sealed(k), cid, number.epoch % 4, 0, Flags(number.epoch, cid, seqLen, withLength), true, 1 + |cid|, seqLen)
    }
  }

  lemma FormParts(epoch: nat, cid: seq<byte>, sequence: nat, seqLen: nat, withLength: bool, length: u16)
    requires ValidForm(seqLen)
    ensures var h, c := Form(epoch, cid, sequence, seqLen, withLength, length), |cid|;
      && h[0] == Flags(epoch, cid, seqLen, withLength) && h[1..1 + c] == cid && h[1 + c..1 + c + seqLen] == Low(sequence, seqLen)
      && (withLength ==> h[1 + c + seqLen..] == U16(length))
  {
    hide Flags, Low, U16;
  }

  lemma MaskedElsewhere(header: seq<byte>, offset: nat, n: nat, mask: seq<byte>)
    requires offset + n <= |header| && n <= |mask|
    ensures Masked(header, offset, n, mask)[..offset] == header[..offset]
    ensures Masked(header, offset, n, mask)[offset + n..] == header[offset + n..]
  {
    hide Xor;
  }

  /** The header's bytes, before masking and after. */
  lemma UnifiedHeader(x: Shape, mask: seq<byte>)
    requires x.Valid() && |mask| == MASK
    ensures var c := |x.cid|;
      var header := Masked(x.Clear(), 1 + c, x.seqLen, mask);
      && header[0] == Flags(x.number.epoch, x.cid, x.seqLen, x.withLength) && header[1..1 + c] == x.cid
      && x.Clear()[1 + c..1 + c + x.seqLen] == Low(x.number.sequence, x.seqLen)
      && (x.withLength ==> header[1 + c + x.seqLen..] == U16(|x.Inner()| + TAG))
  {
    hide Masked, Form, Flags, Low, U16;
    var c, clear := |x.cid|, x.Clear();
    var header := Masked(clear, 1 + c, x.seqLen, mask);
    FormParts(x.number.epoch, x.cid, x.number.sequence, x.seqLen, x.withLength, |x.Inner()| + TAG);
    MaskedElsewhere(clear, 1 + c, x.seqLen, mask);
    assert header[0] == header[..1 + c][0] == clear[..1 + c][0];
    assert header[1..1 + c] == header[..1 + c][1..] == clear[..1 + c][1..] == clear[1..1 + c];
  }

  lemma FlagBits(epoch: nat, cid: seq<byte>, seqLen: nat, withLength: bool)
    requires ValidForm(seqLen)
    ensures var first := Flags(epoch, cid, seqLen, withLength);
      && first / 32 == 1 && (first / 16 % 2 == 1 <==> cid != []) && (first / 8 % 2 == 1 <==> seqLen == 2) && (first / 4 % 2 == 1 <==> withLength)
      && first % 4 == epoch % 4
  {
  }

  lemma Placed(header: seq<byte>, sealed: seq<byte>, rest: seq<byte>, c: nat)
    requires |header| >= 2 && 1 + c <= |header|
    ensures var datagram, n := header + sealed + rest, |header|;
      && datagram[0] == header[0] && datagram[..n] == header && datagram[n - 2..n] == header[n - 2..]
      && datagram[n..n + |sealed|] == sealed && datagram[n + |sealed|..] == rest && datagram[1..1 + c] == header[1..1 + c]
  {
  }

  /** Bytes laid out as a unified header says are found again. */
  lemma ParseLaidOut(header: seq<byte>, sealed: seq<byte>, rest: seq<byte>, epoch: nat, cid: seq<byte>, seqLen: nat, withLength: bool, cidLen: nat)
    requires ValidForm(seqLen) && |header| == 1 + |cid| + seqLen + (if withLength then 2 else 0) && MASK <= |sealed| <= MAX_CIPHERTEXT
    requires header[0] == Flags(epoch, cid, seqLen, withLength) && header[1..1 + |cid|] == cid
    requires if withLength then header[|header| - 2..] == U16(|sealed|) else rest == []
    requires cidLen <= MAX_CID && (cid != [] ==> |cid| == cidLen)
    ensures Parse(header + sealed + rest, cidLen) == Ok((Record(header, sealed, cid, epoch % 4, 0, header[0], true, 1 + |cid|, seqLen), rest))
  {
    FlagBits(epoch, cid, seqLen, withLength);
    RoundTrip16(|sealed|);
    hide Flags, ParsePlain, U16, Value16;
    Placed(header, sealed, rest, |cid|);
  }

  /** A record of any form is found in its datagram; without a length it reaches to the end. */
  lemma ParseSighted(k: Keys, x: Shape, cidLen: nat, rest: seq<byte>)
    requires Lawful(k) && x.Valid() && cidLen <= MAX_CID && (x.cid != [] ==> |x.cid| == cidLen) && (x.withLength || rest == [])
    ensures Parse(x.Front(k) + x.Sealed(k) + rest, cidLen) == Ok((x.Sighted(k), rest))
  {
    hide Xor, Flags, Masked, Form, Parse, U16;
    UnifiedHeader(x, k.mask(x.Sealed(k)));
    ParseLaidOut(x.Front(k), x.Sealed(k), rest, x.number.epoch, x.cid, x.seqLen, x.withLength, cidLen);
  }

  /** Sealed by whoever has the key, under any header that names the number, around any plaintext. */
  function Around(k: Keys, clear: seq<byte>, number: RecordNumber, cid: seq<byte>, seqLen: nat, inner: seq<byte>): Record
    requires Lawful(k) && ValidForm(seqLen) && number.sequence <= MAX_SEQUENCE && |clear| >= 1 + |cid| + seqLen
  {
    var sealed := k.seal(clear, number.sequence, inner);
    Record(Masked(clear, 1 + |cid|, seqLen, k.mask(sealed)), sealed, cid, number.epoch % 4, 0, clear[0], true, 1 + |cid|, seqLen)
  }

  /** What an authentic record comes to: too long, without a valid type, replayed, or its content. */
  ghost predicate Verdict(o: Result<Opened>, number: RecordNumber, content: seq<byte>, typ: byte, padding: nat, w: Window)
    requires number.sequence <= MAX_SEQUENCE
  {
    if |content| + 1 + padding > MAX_CONTENT + 1 then o == Err(RecordOverflow)
    else if !ValidContentType(typ) then o == Err(InvalidRecord)
    else if !Accept(w, number.sequence).1 then o == Err(Replayed)
    else o == Ok(Opened(number, typ, content, Accept(w, number.sequence).0))
  }

  lemma SequenceFound(k: Keys, clear: seq<byte>, number: RecordNumber, cid: seq<byte>, seqLen: nat, inner: seq<byte>, w: Window)
    requires Lawful(k) && ValidForm(seqLen) && number.sequence <= MAX_SEQUENCE && |clear| >= 1 + |cid| + seqLen
    requires clear[1 + |cid|..1 + |cid| + seqLen] == Low(number.sequence, seqLen)
    requires var half := if seqLen == 1 then 0x80 else 0x8000; Expected(w) - half < number.sequence <= Expected(w) + half
    ensures var r := Around(k, clear, number, cid, seqLen, inner);
      && Masked(r.header, r.seqOffset, r.seqLen, k.mask(r.body)) == clear
      && Reconstruct(TruncatedValue(clear[r.seqOffset..r.seqOffset + r.seqLen]), r.seqLen, Expected(w)) == number.sequence
  {
    hide Xor, Masked, Reconstruct, Expected;
    MaskedTwice(clear, 1 + |cid|, seqLen, k.mask(k.seal(clear, number.sequence, inner)));
    assert TruncatedValue(Low(number.sequence, seqLen)) == number.sequence % if seqLen == 1 then 0x100 else 0x1_0000;
    ReconstructExact(number.sequence, seqLen, Expected(w));
  }

  /** An authentic record is judged by its plaintext alone: the last byte that is not zero is its type, and one without a valid type is
      an error of the peer, not a stray packet. */
  lemma AuthenticIsJudged(k: Keys, clear: seq<byte>, number: RecordNumber, cid: seq<byte>, seqLen: nat, content: seq<byte>, typ: byte, padding: nat,
                          w: Window)
    requires Lawful(k) && ValidForm(seqLen) && number.sequence <= MAX_SEQUENCE && |clear| >= 1 + |cid| + seqLen
    requires clear[1 + |cid|..1 + |cid| + seqLen] == Low(number.sequence, seqLen)
    requires var half := if seqLen == 1 then 0x80 else 0x8000; Expected(w) - half < number.sequence <= Expected(w) + half
    ensures typ != 0 ==>
      Verdict(Decode(k, Around(k, clear, number, cid, seqLen, content + [typ] + Zeros(padding)), number.epoch, cid, w), number, content, typ, padding, w)
    ensures padding <= MAX_CONTENT + 1 ==>
      Decode(k, Around(k, clear, number, cid, seqLen, Zeros(padding)), number.epoch, cid, w) == Err(InvalidRecord)
  {
    hide Xor, Low, Masked, Accept, Reconstruct, Expected, Trim;
    var inner := content + [typ] + Zeros(padding);
    SequenceFound(k, clear, number, cid, seqLen, inner, w);
    SequenceFound(k, clear, number, cid, seqLen, Zeros(padding), w);
    if typ != 0 { TrimPadded(content + [typ], padding); }
    TrimPadded([], padding);
    assert [] + Zeros(padding) == Zeros(padding);
    assert (content + [typ])[..|content|] == content;
  }

  lemma DecodeSighted(k: Keys, x: Shape, w: Window)
    requires Lawful(k) && x.Valid()
    requires var half := if x.seqLen == 1 then 0x80 else 0x8000; Expected(w) - half < x.number.sequence <= Expected(w) + half
    ensures Decode(k, x.Sighted(k), x.number.epoch, x.cid, w)
            == if Accept(w, x.number.sequence).1 then Ok(Opened(x.number, x.typ, x.content, Accept(w, x.number.sequence).0)) else Err(Replayed)
  {
    hide Xor, Low, Masked, Accept, Expected, Decode;
    UnifiedHeader(x, k.mask(x.Sealed(k)));
    AuthenticIsJudged(k, x.Clear(), x.number, x.cid, x.seqLen, x.content, x.typ, x.padding, w);
  }

  /** A record of any form, within half a window of the expected number, comes back whole if the replay window admits it, and otherwise not at all. */
  lemma AnyFormRoundTrip(k: Keys, x: Shape, cidLen: nat, w: Window, rest: seq<byte>)
    requires Lawful(k) && x.Valid() && cidLen <= MAX_CID && (x.cid != [] ==> |x.cid| == cidLen) && (x.withLength || rest == [])
    requires var half := if x.seqLen == 1 then 0x80 else 0x8000; Expected(w) - half < x.number.sequence <= Expected(w) + half
    ensures var parsed := Parse(x.Front(k) + x.Sealed(k) + rest, cidLen);
      && parsed.Ok? && parsed.value.1 == rest
      && parsed.value.0.encrypted && ValidForm(parsed.value.0.seqLen) && parsed.value.0.seqOffset + parsed.value.0.seqLen <= |parsed.value.0.header|
      && Decode(k, parsed.value.0, x.number.epoch, x.cid, w)
         == if Accept(w, x.number.sequence).1 then Ok(Opened(x.number, x.typ, x.content, Accept(w, x.number.sequence).0)) else Err(Replayed)
  {
    hide Xor, Masked, Accept, Reconstruct, Expected, Trim, Decode, Parse, Form;
    ParseSighted(k, x, cidLen, rest);
    DecodeSighted(k, x, w);
  }

  /** What this side sends has two sequence bytes and a length. */
  function Own(number: RecordNumber, cid: seq<byte>, typ: byte, content: seq<byte>, padding: nat): Shape {
    Shape(number, cid, typ, content, padding, 2, true)
  }

  lemma EncodeForm(k: Keys, number: RecordNumber, cid: seq<byte>, typ: byte, content: seq<byte>, padding: int)
    requires Lawful(k)
    ensures var r := Encode(k, number, cid, typ, content, padding);
      && (r.Ok? <==> number.epoch >= 2 && 0 <= padding && Own(number, cid, typ, content, padding).Valid())
      && (r.Ok? ==> var x := Own(number, cid, typ, content, padding); r.value == x.Front(k) + x.Sealed(k))
  {
    hide Xor, Masked, U16;
    if Encode(k, number, cid, typ, content, padding).Ok? {
      var x := Own(number, cid, typ, content, padding);
      assert Header(number.epoch, cid, number.sequence % 0x1_0000, |x.Inner()| + TAG) == x.Clear();
    }
  }

  /** The header of this side's records in the clear, byte by byte. */
  function Plainly(number: RecordNumber, cid: seq<byte>, length: u16): seq<byte> {
    [0x2c + number.epoch % 4 + if cid == [] then 0 else 0x10] + cid
    + [number.sequence / 256 % 256, number.sequence % 256] + [length / 256, length % 256]
  }

  lemma ClearPlainly(x: Shape)
    requires x.Valid() && x.seqLen == 2 && x.withLength
    ensures x.Clear() == Plainly(x.number, x.cid, |x.Inner()| + TAG)
  {
    SplitNumber(x.number.sequence);
  }

  /** On the wire: both sequence bytes are hidden under the mask, every other header byte is clear, and what follows is sealed under the clear header. */
  ghost predicate OnTheWire(k: Keys, packet: seq<byte>, number: RecordNumber, cid: seq<byte>, inner: seq<byte>)
    requires Lawful(k) && number.sequence <= MAX_SEQUENCE
  {
    var c := |cid|;
    && |packet| == 5 + c + |inner| + TAG < 0x1_0000
    && var sealed := packet[5 + c..];
       var clear := Plainly(number, cid, |sealed|);
       && IsXor(packet[1 + c], number.sequence / 256 % 256, k.mask(sealed)[0])
       && IsXor(packet[2 + c], number.sequence % 256, k.mask(sealed)[1])
       && packet[..1 + c] == clear[..1 + c] && packet[3 + c..5 + c] == clear[3 + c..]
       && sealed == k.seal(clear, number.sequence, inner)
  }

  lemma NumbersAreMasked(k: Keys, number: RecordNumber, cid: seq<byte>, typ: byte, content: seq<byte>, padding: int)
    requires Lawful(k) && Encode(k, number, cid, typ, content, padding).Ok?
    ensures OnTheWire(k, Encode(k, number, cid, typ, content, padding).value, number, cid, content + [typ] + Zeros(padding))
  {
    EncodeForm(k, number, cid, typ, content, padding);
    var x := Own(number, cid, typ, content, padding);
    ClearPlainly(x);
    hide Xor, Masked, Encode, OnTheWire, Form, Plainly;
    MaskedOnTheWire(k, number, cid, x.Inner(), x.Sealed(k));
  }

  lemma MaskedOnTheWire(k: Keys, number: RecordNumber, cid: seq<byte>, inner: seq<byte>, sealed: seq<byte>)
    requires Lawful(k) && number.sequence <= MAX_SEQUENCE && |inner| + TAG + 5 + |cid| < 0x1_0000 && |sealed| == |inner| + TAG
    requires sealed == k.seal(Plainly(number, cid, |sealed|), number.sequence, inner)
    ensures |Plainly(number, cid, |sealed|)| == 5 + |cid|
    ensures OnTheWire(k, Masked(Plainly(number, cid, |sealed|), 1 + |cid|, 2, k.mask(sealed)) + sealed, number, cid, inner)
  {
    hide Xor, Masked, IsXor;
    var c, clear := |cid|, Plainly(number, cid, |sealed|);
    NumberBytes(number, cid, |sealed|);
    hide Plainly;
    var front := Masked(clear, 1 + c, 2, k.mask(sealed));
    MaskedBytes(clear, 1 + c, 2, k.mask(sealed));
    Pieces(front, sealed, 1 + c);
    assert IsXor(front[1 + c + 0], clear[1 + c + 0], k.mask(sealed)[0]);
    assert IsXor(front[1 + c + 1], clear[1 + c + 1], k.mask(sealed)[1]);
  }

  lemma NumberBytes(number: RecordNumber, cid: seq<byte>, length: u16)
    ensures var clear := Plainly(number, cid, length);
      |clear| == 5 + |cid| && clear[1 + |cid|] == number.sequence / 256 % 256 && clear[2 + |cid|] == number.sequence % 256
  {
  }

  lemma Pieces(front: seq<byte>, sealed: seq<byte>, n: nat)
    requires |front| == n + 4
    ensures var packet := front + sealed;
      && packet[n + 4..] == sealed && packet[..n] == front[..n] && packet[n + 2..n + 4] == front[n + 2..]
      && packet[n] == front[n] && packet[n + 1] == front[n + 1]
  {
  }

  lemma SplitNumber(n: nat)
    ensures n % 0x1_0000 / 256 == n / 256 % 256 && n % 0x1_0000 % 256 == n % 256
  {
  }

  /** Masking combines each of the n bytes with its mask byte and leaves the others. */
  lemma MaskedBytes(header: seq<byte>, offset: nat, n: nat, mask: seq<byte>)
    requires offset + n <= |header| && n <= |mask|
    ensures var r := Masked(header, offset, n, mask);
      && r[..offset] == header[..offset] && r[offset + n..] == header[offset + n..]
      && forall i :: 0 <= i < n ==> IsXor(r[offset + i], header[offset + i], mask[i])
  {
    hide Xor, IsXor;
    var r := Masked(header, offset, n, mask);
    forall i | 0 <= i < n ensures IsXor(r[offset + i], header[offset + i], mask[i]) { XorIsExclusiveOr(header[offset + i], mask[i]); }
  }

  lemma EncodeParse(k: Keys, number: RecordNumber, cid: seq<byte>, cidLen: nat, typ: byte, content: seq<byte>, padding: int, rest: seq<byte>)
    requires Lawful(k) && Encode(k, number, cid, typ, content, padding).Ok?
    requires cidLen <= MAX_CID && (cid != [] ==> |cid| == cidLen)
    ensures Own(number, cid, typ, content, padding).Valid()
    ensures Parse(Encode(k, number, cid, typ, content, padding).value + rest, cidLen)
            == Ok((Own(number, cid, typ, content, padding).Sighted(k), rest))
  {
    EncodeForm(k, number, cid, typ, content, padding);
    hide Encode, Parse;
    ParseSighted(k, Own(number, cid, typ, content, padding), cidLen, rest);
  }

  /** A record within half a window of the expected number comes back whole if the replay window admits it, and otherwise not at all. */
  lemma RecordRoundTrip(k: Keys, number: RecordNumber, cid: seq<byte>, cidLen: nat, typ: byte, content: seq<byte>, padding: int,
                        w: Window, rest: seq<byte>)
    requires Lawful(k) && Encode(k, number, cid, typ, content, padding).Ok?
    requires cidLen <= MAX_CID && (cid != [] ==> |cid| == cidLen)
    requires Expected(w) - 0x8000 < number.sequence <= Expected(w) + 0x8000
    ensures var parsed := Parse(Encode(k, number, cid, typ, content, padding).value + rest, cidLen);
      && parsed.Ok? && parsed.value.1 == rest
      && parsed.value.0.encrypted && parsed.value.0.seqLen == 2 && parsed.value.0.seqOffset + 2 <= |parsed.value.0.header|
      && Decode(k, parsed.value.0, number.epoch, cid, w)
         == if Accept(w, number.sequence).1 then Ok(Opened(number, typ, content, Accept(w, number.sequence).0)) else Err(Replayed)
  {
    hide Accept, Expected, Decode, Parse, Encode, Masked, Form;
    EncodeParse(k, number, cid, cidLen, typ, content, padding, rest);
    DecodeSighted(k, Own(number, cid, typ, content, padding), w);
  }

  lemma PlainRoundTrip(typ: byte, sequence: nat, content: seq<byte>, cidLen: nat, rest: seq<byte>)
    requires EncodePlain(typ, sequence, content).Ok? && cidLen <= MAX_CID
    ensures var packet := EncodePlain(typ, sequence, content).value;
      && Parse(packet + rest, cidLen) == Ok((Record(packet[..PLAIN_HEADER], content, [], 0, sequence, typ, false, 0, 0), rest))
      && packet[0] == typ && packet[1..3] == [0xfe, 0xfd]
  {
    var packet := EncodePlain(typ, sequence, content).value;
    var datagram := packet + rest;
    assert datagram[3..5] == [0, 0];
    assert datagram[5..8] == U24(sequence / 0x100_0000);
    assert datagram[8..11] == U24(sequence % 0x100_0000);
    assert datagram[11..13] == U16(|content|);
    assert datagram[..PLAIN_HEADER] == packet[..PLAIN_HEADER];
    assert datagram[PLAIN_HEADER..PLAIN_HEADER + |content|] == content;
    assert datagram[PLAIN_HEADER + |content|..] == rest;
    RoundTrip24(sequence / 0x100_0000);
    RoundTrip24(sequence % 0x100_0000);
  }

  lemma RoundTrip24(n: int)
    requires 0 <= n < 0x100_0000
    ensures Value24(U24(n)) == n
  {
  }
}
