/** ClientHello and ServerHello on the wire. */
module Hello {
  import opened Wire

  const LEGACY_VERSION: u16 := 0xfefd
  const PRE_SHARED_KEY: u16 := 41
  const RANDOM := 32

  type Extensions = map<u16, seq<byte>>

  // ----- extensions -----

  predicate Least(m: u16, ids: set<u16>) { m in ids && forall k :: k in ids ==> m <= k }

  lemma {:induction false} HasLeast(ids: set<u16>)
    requires ids != {}
    ensures exists m :: Least(m, ids)
    decreases |ids|
  {
    var x :| x in ids;
    if ids == {x} {
      assert Least(x, ids);
    } else {
      assert ids == {x} + (ids - {x});
      HasLeast(ids - {x});
      var y :| Least(y, ids - {x});
      assert Least(if x <= y then x else y, ids);
    }
  }

  function Sorted(ids: set<u16>): seq<u16>
    decreases |ids|
  {
    if ids == {} then []
    else
      HasLeast(ids);
      var m :| m in ids && Least(m, ids);
      [m] + Sorted(ids - {m})
  }

  /** The order extensions are written in. */
  function Order(e: Extensions): seq<u16> {
    Sorted(e.Keys - {PRE_SHARED_KEY}) + if PRE_SHARED_KEY in e then [PRE_SHARED_KEY] else []
  }

  function Written(e: Extensions, ids: seq<u16>): seq<byte>
    requires forall id :: id in ids ==> id in e && |e[id]| < 0x1_0000
  {
    if ids == [] then [] else U16(ids[0]) + U16(|e[ids[0]]|) + e[ids[0]] + Written(e, ids[1..])
  }

  function MarshalExtensions(e: Extensions): (r: Result<seq<byte>>)
    ensures r.Ok? ==> |r.value| < 0x1_0000
  {
    OrderCovers(e);
    if exists id :: id in e && |e[id]| >= 0x1_0000 then Err(Decode)
    else if |Written(e, Order(e))| >= 0x1_0000 then Err(Decode)
    else Ok(Written(e, Order(e)))
  }

  /** The first extension of a list, and what follows it. */
  function First(data: seq<byte>): (r: Option<(u16, seq<byte>, seq<byte>)>)
    ensures r.Some? ==> |r.value.2| < |data|
  {
    var (id, r1) := Reader(data, false).ReadU16();
    var (body, r2) := r1.Vector16();
    if r2.failed then None else Some((id, body, r2.data))
  }

  function ParseExtensions(data: seq<byte>, client: bool, seen: Extensions): Result<Extensions>
    decreases |data|
  {
    if data == [] then Ok(seen)
    else
      var first := First(data);
      if first.None? then Err(Decode)
      else
        var (id, body, rest) := first.value;
        if id in seen || (client && id == PRE_SHARED_KEY && rest != []) then Err(Decode)
        else ParseExtensions(rest, client, seen[id := body])
  }

  predicate Unique(ids: seq<u16>) { forall i, j :: 0 <= i < j < |ids| ==> ids[i] != ids[j] }

  /** Ascending, but for pre_shared_key, which comes last. */
  predicate Ordered(ids: seq<u16>) {
    && (forall i :: 0 <= i < |ids| - 1 ==> ids[i] != PRE_SHARED_KEY)
    && forall i, j :: 0 <= i < j < |ids| ==> ids[j] == PRE_SHARED_KEY || ids[i] < ids[j]
  }

  lemma {:induction false} SortedCovers(ids: set<u16>)
    ensures (forall k :: k in Sorted(ids) <==> k in ids)
    ensures forall i, j :: 0 <= i < j < |Sorted(ids)| ==> Sorted(ids)[i] < Sorted(ids)[j]
    decreases |ids|
  {
    if ids != {} {
      var m := Sorted(ids)[0];
      SortedCovers(ids - {m});
      var rest := Sorted(ids - {m});
      assert Sorted(ids) == [m] + rest;
      forall j | 0 <= j < |rest| ensures m < rest[j] { assert rest[j] in rest; }
    }
  }

  /** Every extension is written once, ascending, with pre_shared_key last. */
  lemma OrderCovers(e: Extensions)
    ensures (forall k :: k in Order(e) <==> k in e) && Ordered(Order(e)) && Unique(Order(e))
  {
    SortedCovers(e.Keys - {PRE_SHARED_KEY});
    var rest := Sorted(e.Keys - {PRE_SHARED_KEY});
    forall j | 0 <= j < |rest| ensures rest[j] != PRE_SHARED_KEY { assert rest[j] in rest; }
  }

  lemma OrderedTail(ids: seq<u16>)
    requires Unique(ids) && Ordered(ids) && ids != []
    ensures Unique(ids[1..]) && Ordered(ids[1..]) && ids[0] !in ids[1..]
    ensures ids[0] == PRE_SHARED_KEY ==> ids[1..] == []
  {
    var rest := ids[1..];
    forall j | 0 <= j < |rest| ensures rest[j] != ids[0] { assert rest[j] == ids[j + 1]; }
  }

  function Restricted(e: Extensions, ids: seq<u16>): Extensions
    requires forall id :: id in ids ==> id in e
  {
    map id | id in ids :: e[id]
  }

  lemma {:induction false} ParsesWritten(e: Extensions, ids: seq<u16>, client: bool, seen: Extensions)
    requires forall id :: id in ids ==> id in e && |e[id]| < 0x1_0000 && id !in seen
    requires Unique(ids) && Ordered(ids)
    ensures ParseExtensions(Written(e, ids), client, seen) == Ok(seen + Restricted(e, ids))
    decreases |ids|
  {
    if ids == [] {
      assert seen + Restricted(e, ids) == seen;
    } else {
      hide First, U16, Unique, Ordered, Restricted;
      var id, body, rest := ids[0], e[ids[0]], Written(e, ids[1..]);
      FirstWritten(id, body, rest);
      assert Written(e, ids) == U16(id) + U16(|body|) + body + rest;
      OrderedTail(ids);
      ParsesWritten(e, ids[1..], client, seen[id := body]);
      RestrictedStep(e, ids, seen);
    }
  }

  lemma RestrictedStep(e: Extensions, ids: seq<u16>, seen: Extensions)
    requires (forall id :: id in ids ==> id in e) && ids != [] && ids[0] !in ids[1..]
    ensures seen[ids[0] := e[ids[0]]] + Restricted(e, ids[1..]) == seen + Restricted(e, ids)
  {
    assert ids == [ids[0]] + ids[1..];
  }

  lemma FirstWritten(id: u16, body: seq<byte>, rest: seq<byte>)
    requires |body| < 0x1_0000
    ensures First(U16(id) + U16(|body|) + body + rest) == Some((id, body, rest))
  {
    hide U16, Reader.Vector16, Reader.ReadU16;
    assert U16(id) + U16(|body|) + body + rest == U16(id) + (U16(|body|) + body + rest);
    ReadsU16(id, U16(|body|) + body + rest);
    ReadsVector16(body, rest);
  }

  lemma ExtensionsRoundTrip(e: Extensions, client: bool)
    requires MarshalExtensions(e).Ok?
    ensures ParseExtensions(MarshalExtensions(e).value, client, map[]) == Ok(e)
  {
    OrderCovers(e);
    hide Written, ParseExtensions, Order, Unique, Ordered;
    ParsesWritten(e, Order(e), client, map[]);
    assert map[] + Restricted(e, Order(e)) == e;
  }

  /** The ids of a list of extensions as they stand on the wire, as far as it can be read. */
  function Ids(data: seq<byte>): seq<u16>
    decreases |data|
  {
    var first := First(data);
    if data == [] || first.None? then [] else [first.value.0] + Ids(first.value.2)
  }

  /** Whatever is accepted names each extension once, and in a ClientHello nothing follows pre_shared_key. */
  lemma {:induction false} AcceptedOnce(data: seq<byte>, client: bool, seen: Extensions)
    requires ParseExtensions(data, client, seen).Ok?
    ensures Unique(Ids(data)) && (forall id :: id in Ids(data) ==> id !in seen)
    ensures ParseExtensions(data, client, seen).value.Keys == seen.Keys + (set id | id in Ids(data))
    ensures client ==> forall i :: 0 <= i < |Ids(data)| - 1 ==> Ids(data)[i] != PRE_SHARED_KEY
    decreases |data|
  {
    hide First;
    if data != [] {
      var (id, body, rest) := First(data).value;
      AcceptedOnce(rest, client, seen[id := body]);
      var later := Ids(rest);
      assert Ids(data) == [id] + later;
      forall j | 0 <= j < |later| ensures later[j] != id { assert later[j] in later; }
    }
  }

  /** Reads a list of extensions one by one. */
  method ReadExtensions(data: seq<byte>, client: bool) returns (r: Result<Extensions>)
    ensures r == ParseExtensions(data, client, map[])
  {
    var rest: seq<byte>, seen: Extensions := data, map[];
    while rest != []
      invariant ParseExtensions(data, client, map[]) == ParseExtensions(rest, client, seen)
      decreases |rest|
    {
      var first := First(rest);
      if first.None? { return Err(Decode); }
      var (id, body, tail) := first.value;
      if id in seen { return Err(Decode); }
      seen, rest := seen[id := body], tail;
      if client && id == PRE_SHARED_KEY && rest != [] { return Err(Decode); }
    }
    return Ok(seen);
  }

  // ----- hellos -----

  datatype ClientHello = ClientHello(random: seq<byte>, sessionId: seq<byte>, suites: seq<u16>, extensions: Extensions)

  datatype ServerHello = ServerHello(random: seq<byte>, sessionId: seq<byte>, suite: u16, extensions: Extensions)

  function Words(xs: seq<u16>): (b: seq<byte>)
    ensures |b| == 2 * |xs|
  {
    if xs == [] then [] else U16(xs[0]) + Words(xs[1..])
  }

  function ReadWords(b: seq<byte>): seq<u16>
    requires |b| % 2 == 0
  {
    if b == [] then [] else [Value16(b[..2])] + ReadWords(b[2..])
  }

  lemma {:induction false} WordsRoundTrip(xs: seq<u16>)
    ensures ReadWords(Words(xs)) == xs
  {
    if xs != [] {
      WordsRoundTrip(xs[1..]);
      assert Words(xs)[..2] == U16(xs[0]) && Words(xs)[2..] == Words(xs[1..]);
    }
  }

  function Head(random: seq<byte>, sessionId: seq<byte>): seq<byte>
    requires |sessionId| < 256
  {
    U16(LEGACY_VERSION) + random + [|sessionId|] + sessionId
  }

  function Tail(suites: seq<byte>, ext: seq<byte>): seq<byte>
    requires |suites| < 0x1_0000 && |ext| < 0x1_0000
  {
    [0] + U16(|suites|) + suites + [1, 0] + U16(|ext|) + ext
  }

  function MarshalClient(h: ClientHello): Result<seq<byte>>
    requires |h.random| == RANDOM
  {
    if |h.sessionId| > 32 || |h.suites| == 0 || |h.suites| > 32767 then Err(Decode)
    else
      var ext := MarshalExtensions(h.extensions);
      if ext.Err? then ext
      else if |ext.value| < 8 then Err(Decode)
      else Ok(Head(h.random, h.sessionId) + Tail(Words(h.suites), ext.value))
  }

  /** The fields both hellos begin with. */
  function ReadHead(data: seq<byte>): (u16, seq<byte>, seq<byte>, Reader) {
    var (version, r1) := Reader(data, false).ReadU16();
    var (random, r2) := r1.Take(RANDOM);
    var (sessionId, r3) := r2.Vector8();
    (version, random, sessionId, r3)
  }

  /** The legacy cookie, suites, compression and extensions. */
  function ReadTail(r3: Reader): (seq<byte>, seq<byte>, seq<byte>, seq<byte>, Reader) {
    var (cookie, r4) := r3.Vector8();
    var (suites, r5) := r4.Vector16();
    var (compression, r6) := r5.Vector8();
    var (ext, r7) := r6.Vector16();
    (cookie, suites, compression, ext, r7)
  }

  function ParseClient(data: seq<byte>): (r: Result<ClientHello>)
    ensures r.Ok? ==> |r.value.random| == RANDOM
  {
    var (version, random, sessionId, r) := ReadHead(data);
    var (cookie, suites, compression, ext, end) := ReadTail(r);
    if !end.Done() || |sessionId| > 32 || |suites| < 2 || |suites| % 2 != 0 || |ext| < 8 then Err(Decode)
    else if version != LEGACY_VERSION then Err(ProtocolVersion)
    else if cookie != [] || compression != [0] then Err(IllegalParameter)
    else
      var extensions := ParseExtensions(ext, true, map[]);
      if extensions.Err? then Err(extensions.error) else Ok(ClientHello(random, sessionId, ReadWords(suites), extensions.value))
  }

  lemma ReadsHead(random: seq<byte>, sessionId: seq<byte>, rest: seq<byte>)
    requires |random| == RANDOM && |sessionId| < 256
    ensures ReadHead(Head(random, sessionId) + rest) == (LEGACY_VERSION, random, sessionId, Reader(rest, false))
  {
    hide U16, Reader.ReadU16, Reader.Take, Reader.Vector8;
    var t2 := [|sessionId|] + sessionId + rest;
    assert Head(random, sessionId) + rest == U16(LEGACY_VERSION) + (random + t2);
    ReadsU16(LEGACY_VERSION, random + t2);
    Taken(random, t2);
    ReadsVector8(sessionId, rest);
  }

  lemma ReadsTail(suites: seq<byte>, ext: seq<byte>)
    requires |suites| < 0x1_0000 && |ext| < 0x1_0000
    ensures ReadTail(Reader(Tail(suites, ext), false)) == ([], suites, [0], ext, Reader([], false))
  {
    hide U16, Reader.Vector16, Reader.Vector8;
    var t6 := U16(|ext|) + ext;
    var t5 := [1, 0] + t6;
    var t4 := U16(|suites|) + suites + t5;
    assert Tail(suites, ext) == [0] + [] + t4;
    ReadsVector8([], t4);
    ReadsVector16(suites, t5);
    assert [1] + [0] + t6 == t5;
    ReadsVector8([0], t6);
    assert t6 + [] == t6;
    ReadsVector16(ext, []);
  }

  /** Every ClientHello that can be written reads back as itself. */
  lemma ClientRoundTrip(h: ClientHello)
    requires |h.random| == RANDOM && MarshalClient(h).Ok?
    ensures ParseClient(MarshalClient(h).value) == Ok(h)
  {
    hide MarshalExtensions, ParseExtensions, Words, ReadWords, ReadHead, ReadTail, Head, Tail;
    ExtensionsRoundTrip(h.extensions, true);
    WordsRoundTrip(h.suites);
    var ext := MarshalExtensions(h.extensions).value;
    ReadsHead(h.random, h.sessionId, Tail(Words(h.suites), ext));
    ReadsTail(Words(h.suites), ext);
  }

  function MarshalServer(h: ServerHello): Result<seq<byte>>
    requires |h.random| == RANDOM
  {
    if |h.sessionId| > 32 then Err(Decode)
    else
      var ext := MarshalExtensions(h.extensions);
      if ext.Err? then ext
      else Ok(Head(h.random, h.sessionId) + (U16(h.suite) + [0] + U16(|ext.value|) + ext.value))
  }

  function ParseServer(data: seq<byte>): Result<ServerHello> {
    var (version, random, sessionId, r3) := ReadHead(data);
    var (suite, r4) := r3.ReadU16();
    var (compression, r5) := r4.ReadU8();
    var (ext, r6) := r5.Vector16();
    if !r6.Done() || |sessionId| > 32 then Err(Decode)
    else if version != LEGACY_VERSION then Err(ProtocolVersion)
    else if compression != 0 then Err(IllegalParameter)
    else
      var extensions := ParseExtensions(ext, false, map[]);
      if extensions.Err? then Err(extensions.error) else Ok(ServerHello(random, sessionId, suite, extensions.value))
  }

  lemma ServerRoundTrip(h: ServerHello)
    requires |h.random| == RANDOM && MarshalServer(h).Ok?
    ensures ParseServer(MarshalServer(h).value) == Ok(h)
  {
    hide MarshalExtensions, ParseExtensions, U16, Head, ReadHead, Reader.ReadU16, Reader.ReadU8, Reader.Vector16;
    ExtensionsRoundTrip(h.extensions, false);
    var ext := MarshalExtensions(h.extensions).value;
    var t5 := U16(|ext|) + ext;
    var t4 := [0] + t5;
    var t3 := U16(h.suite) + t4;
    assert U16(h.suite) + [0] + U16(|ext|) + ext == t3;
    ReadsHead(h.random, h.sessionId, t3);
    ReadsU16(h.suite, t4);
    ReadsU8(0, t5);
    assert t5 + [] == t5;
    ReadsVector16(ext, []);
  }
}
