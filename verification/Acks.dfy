/** Acknowledgement records: sorted, duplicate-free lists of record numbers, split to fit the path. */
module Acks {
  import opened Wire
  import opened Sizing
  import Outlets

  const MAX_RECORDS := (MAX_CONTENT - 2) / 16

  predicate Small(r: RecordNumber) { r.epoch < 0x1_0000_0000_0000_0000 && r.sequence < 0x1_0000_0000_0000_0000 }

  predicate AllSmall(rs: seq<RecordNumber>) { forall i :: 0 <= i < |rs| ==> Small(rs[i]) }

  function Compare(a: RecordNumber, b: RecordNumber): int {
    if a.epoch < b.epoch || (a.epoch == b.epoch && a.sequence < b.sequence) then -1 else if a == b then 0 else 1
  }

  /** Strictly ascending: sorted, with no number twice. */
  predicate Ascending(rs: seq<RecordNumber>) {
    forall i, j :: 0 <= i < j < |rs| ==> Compare(rs[i], rs[j]) < 0
  }

  /** Puts a number in its place, once. */
  function Insert(r: RecordNumber, rs: seq<RecordNumber>): seq<RecordNumber> {
    if rs == [] || Compare(r, rs[0]) < 0 then [r] + rs
    else if Compare(r, rs[0]) == 0 then rs
    else [rs[0]] + Insert(r, rs[1..])
  }

  /** Sorts and drops duplicates. */
  function Sort(rs: seq<RecordNumber>): seq<RecordNumber> {
    if rs == [] then [] else Insert(rs[0], Sort(rs[1..]))
  }

  lemma {:induction false} InsertAscends(r: RecordNumber, rs: seq<RecordNumber>)
    requires Ascending(rs)
    ensures Ascending(Insert(r, rs)) && |Insert(r, rs)| <= |rs| + 1
    ensures forall x :: x in Insert(r, rs) <==> x == r || x in rs
  {
    if rs != [] && Compare(r, rs[0]) > 0 {
      InsertAscends(r, rs[1..]);
      var rest := Insert(r, rs[1..]);
      forall j | 0 <= j < |rest| ensures Compare(rs[0], rest[j]) < 0 { assert rest[j] in rest; }
    }
  }

  /** What is acknowledged is the same set of numbers, each once, by epoch and then by sequence number. */
  lemma {:induction false} SortAscends(rs: seq<RecordNumber>)
    ensures Ascending(Sort(rs)) && |Sort(rs)| <= |rs|
    ensures forall i, j :: 0 <= i < j < |Sort(rs)| ==>
      var a, b := Sort(rs)[i], Sort(rs)[j];
      a.epoch < b.epoch || (a.epoch == b.epoch && a.sequence < b.sequence)
    ensures forall x :: x in Sort(rs) <==> x in rs
  {
    if rs != [] {
      SortAscends(rs[1..]);
      InsertAscends(rs[0], Sort(rs[1..]));
    }
  }

  lemma SortSmall(rs: seq<RecordNumber>)
    requires AllSmall(rs)
    ensures AllSmall(Sort(rs))
  {
    SortAscends(rs);
    forall i | 0 <= i < |Sort(rs)| ensures Small(Sort(rs)[i]) {
      assert Sort(rs)[i] in rs;
    }
  }

  lemma AscendingTail(a: seq<RecordNumber>)
    requires Ascending(a) && a != []
    ensures Ascending(a[1..]) && forall x :: x in a[1..] <==> x in a && x != a[0]
    ensures forall x :: x in a ==> Compare(a[0], x) <= 0
  {
    assert a == [a[0]] + a[1..];
    forall x | x in a[1..] ensures Compare(a[0], x) < 0 {
      var i :| 0 <= i < |a[1..]| && a[1..][i] == x;
      assert a[i + 1] == x;
    }
  }

  /** There is only one way to list a set of numbers in ascending order. */
  lemma {:induction false} OnlyAscending(a: seq<RecordNumber>, b: seq<RecordNumber>)
    requires Ascending(a) && Ascending(b) && forall x :: x in a <==> x in b
    ensures a == b
  {
    hide Ascending;
    assert b != [] ==> b[0] in a;
    if a != [] {
      assert a[0] in b;
      assert b[0] in a;
      AscendingTail(a);
      AscendingTail(b);
      assert a[0] == b[0];
      OnlyAscending(a[1..], b[1..]);
    }
  }

  function Body(rs: seq<RecordNumber>): (b: seq<byte>)
    requires AllSmall(rs)
    ensures |b| == 16 * |rs|
  {
    if rs == [] then [] else U64(rs[0].epoch) + U64(rs[0].sequence) + Body(rs[1..])
  }

  function Encode(rs: seq<RecordNumber>): Result<seq<byte>>
    requires AllSmall(rs)
  {
    SortAscends(rs); SortSmall(rs);
    if |rs| > MAX_RECORDS then Err(MalformedAck) else Ok(U16(16 * |Sort(rs)|) + Body(Sort(rs)))
  }

  function Numbers(b: seq<byte>): seq<RecordNumber>
    requires |b| % 16 == 0
  {
    if b == [] then [] else [RecordNumber(Value64(b[..8]), Value64(b[8..16]))] + Numbers(b[16..])
  }

  function Parse(data: seq<byte>): Result<seq<RecordNumber>> {
    if |data| < 2 || |data| > MAX_CONTENT || Value16(data[..2]) != |data| - 2 || (|data| - 2) % 16 != 0 then Err(MalformedAck)
    else Ok(Numbers(data[2..]))
  }

  lemma {:induction false} NumbersOfBody(rs: seq<RecordNumber>)
    requires AllSmall(rs)
    ensures Numbers(Body(rs)) == rs
  {
    if rs != [] {
      hide U64, Value64;
      var b := Body(rs);
      assert b[..8] == U64(rs[0].epoch) && b[8..16] == U64(rs[0].sequence) && b[16..] == Body(rs[1..]);
      RoundTrip64(rs[0].epoch);
      RoundTrip64(rs[0].sequence);
      NumbersOfBody(rs[1..]);
    }
  }

  /** Parsing an acknowledgement gives the sorted duplicate-free list of what was to be acknowledged. */
  lemma AckRoundTrip(rs: seq<RecordNumber>)
    requires AllSmall(rs)
    ensures Encode(rs).Ok? <==> |rs| <= MAX_RECORDS
    ensures Encode(rs).Ok? ==> Parse(Encode(rs).value) == Ok(Sort(rs)) && |Encode(rs).value| == 2 + 16 * |Sort(rs)|
  {
    SortAscends(rs);
    SortSmall(rs);
    if |rs| <= MAX_RECORDS { BodyRoundTrip(Sort(rs)); }
    hide Sort, Body, Parse;
  }

  lemma BodyRoundTrip(rs: seq<RecordNumber>)
    requires AllSmall(rs) && |rs| <= MAX_RECORDS
    ensures Parse(U16(16 * |rs|) + Body(rs)) == Ok(rs)
  {
    hide Body, Numbers, U16, Value16;
    NumbersOfBody(rs);
    RoundTrip16(16 * |rs|);
    var n, body := 16 * |rs|, Body(rs);
    var data := U16(n) + body;
    assert data[..2] == U16(n) && data[2..] == body;
  }

  /** Reads the numbers sixteen bytes at a time. */
  method ParseAck(data: seq<byte>) returns (r: Result<seq<RecordNumber>>)
    ensures r == Parse(data)
  {
    if |data| < 2 || |data| > MAX_CONTENT || Value16(data[..2]) != |data| - 2 || (|data| - 2) % 16 != 0 {
      return Err(MalformedAck);
    }
    hide Value64;
    var records, rest := [], data[2..];
    while rest != []
      invariant |rest| % 16 == 0 && Numbers(data[2..]) == records + Numbers(rest)
      decreases |rest|
    {
      records := records + [RecordNumber(Value64(rest[..8]), Value64(rest[8..16]))];
      rest := rest[16..];
    }
    assert records + [] == records;
    return Ok(records);
  }

  // ----- the queue of record numbers to acknowledge -----

  function Flat(chunks: seq<seq<RecordNumber>>): seq<RecordNumber> {
    if chunks == [] then [] else Flat(chunks[..|chunks| - 1]) + chunks[|chunks| - 1]
  }

  /** An acknowledgement of this chunk that fits the path. */
  ghost predicate Carries(body: seq<byte>, chunk: seq<RecordNumber>, mtu: int, cid: nat, epoch: nat) {
    && AllSmall(chunk) && Encode(chunk) == Ok(body)
    && (mtu >= cid + 35 ==> Outlets.PacketLength(epoch, cid, |body|) <= mtu)
  }

  /** One packet per chunk. */
  ghost predicate Fits(chunks: seq<seq<RecordNumber>>, bodies: seq<seq<byte>>, mtu: int, cid: nat, epoch: nat) {
    |bodies| == |chunks| && forall i :: 0 <= i < |chunks| ==> Carries(bodies[i], chunks[i], mtu, cid, epoch)
  }

  /** No chunk could be longer: the format or the path would not take one more number. */
  predicate Full(chunk: seq<RecordNumber>, mtu: int, cid: nat) {
    |chunk| == MAX_RECORDS || Outlets.PacketLength(2, cid, 2 + 16 * (|chunk| + 1)) > mtu
  }

  /** Each chunk went out, and all but the last are full. */
  ghost predicate Packed(chunks: seq<seq<RecordNumber>>, results: seq<bool>, mtu: int, cid: nat, more: bool) {
    && |chunks| <= |results|
    && forall i :: 0 <= i < |chunks| ==> results[i] && chunks[i] != [] && (i + 1 < |chunks| || more ==> Full(chunks[i], mtu, cid))
  }

  lemma ChunkCarried(chunk: seq<RecordNumber>, mtu: int, cid: nat, epoch: nat)
    requires AllSmall(chunk) && 1 <= |chunk| <= AckLimit(mtu, cid)
    ensures Encode(chunk).Ok? && Carries(Encode(chunk).value, chunk, mtu, cid, epoch)
    ensures |chunk| == AckLimit(mtu, cid) ==> Full(chunk, mtu, cid)
  {
    AckRoundTrip(chunk);
    SortAscends(chunk);
    AcksFit(mtu, cid, epoch, |Sort(chunk)|);
    hide Encode, Sort, Ascending;
  }

  lemma FlatNext(chunks: seq<seq<RecordNumber>>, pending: seq<RecordNumber>, n: nat)
    requires n <= |pending|
    ensures Flat(chunks + [pending[..n]]) + pending[n..] == Flat(chunks) + pending
  {
    assert (chunks + [pending[..n]])[..|chunks|] == chunks && pending == pending[..n] + pending[n..];
  }

  lemma PackedNext(chunks: seq<seq<RecordNumber>>, chunk: seq<RecordNumber>, results: seq<bool>, mtu: int, cid: nat, more: bool)
    requires Packed(chunks, results, mtu, cid, true) && |chunks| < |results| && results[|chunks|]
    requires chunk != [] && (more ==> Full(chunk, mtu, cid))
    ensures Packed(chunks + [chunk], results, mtu, cid, more)
  {
  }

  class AckQueue {
    var pending: seq<RecordNumber>

    constructor ()
      ensures pending == []
    {
      pending := [];
    }

    /** Sends the queue in chunks until it is empty or a send fails; what was not sent stays queued. */
    method Write(mtu: int, cid: nat, epoch: nat, results: seq<bool>)
      returns (bodies: seq<seq<byte>>, ghost chunks: seq<seq<RecordNumber>>, error: Option<Error>)
      requires AllSmall(pending)
      modifies this
      ensures Flat(chunks) + pending == old(pending) && Fits(chunks, bodies, mtu, cid, epoch)
      ensures error.None? ==> pending == []
      ensures error == Some(RecordOverflow) <==> old(pending) != [] && mtu < cid + 40
      ensures error.Some? && error != Some(RecordOverflow) ==>
        error == Some(SendFailed) && (|chunks| < |results| ==> !results[|chunks|])
      ensures Packed(chunks, results, mtu, cid, pending != [])
    {
      bodies, chunks, error := [], [], None;
      assert Packed(chunks, results, mtu, cid, pending != []);
      if pending == [] { return; }
      var limit := AckLimit(mtu, cid);
      AcksFit(mtu, cid, epoch, 0);
      hide Encode, AckLimit, Carries, Full, Flat, Packed;
      if limit < 1 { return [], [], Some(RecordOverflow); }
      while pending != []
        invariant AllSmall(pending) && Flat(chunks) + pending == old(pending) && Fits(chunks, bodies, mtu, cid, epoch)
        invariant limit == AckLimit(mtu, cid) && Packed(chunks, results, mtu, cid, pending != [])
        decreases |pending|
      {
        var n := if limit < |pending| then limit else |pending|;
        var body := Encode(pending[..n]);
        ChunkCarried(pending[..n], mtu, cid, epoch);
        FlatNext(chunks, pending, n);
        if body.Err? || |bodies| >= |results| || !results[|bodies|] { return bodies, chunks, Some(SendFailed); }
        PackedNext(chunks, pending[..n], results, mtu, cid, pending[n..] != []);
        bodies, chunks, pending := bodies + [body.value], chunks + [pending[..n]], pending[n..];
      }
    }
  }
}
