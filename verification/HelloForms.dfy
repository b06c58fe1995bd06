/** Exactly which byte strings are hellos. */
module HelloForms {
  import opened Wire
  import opened Hello

  datatype Entry = Entry(id: u16, body: seq<byte>)

  /** Extensions as a hello may list them: short enough, none twice, and in a ClientHello nothing after pre_shared_key. */
  predicate Admissible(entries: seq<Entry>, client: bool) {
    && (forall i :: 0 <= i < |entries| ==> |entries[i].body| < 0x1_0000)
    && (forall i, j :: 0 <= i < j < |entries| ==> entries[i].id != entries[j].id)
    && (client ==> forall i :: 0 <= i < |entries| - 1 ==> entries[i].id != PRE_SHARED_KEY)
  }

  function Listed(entries: seq<Entry>): seq<byte>
    requires forall i :: 0 <= i < |entries| ==> |entries[i].body| < 0x1_0000
  {
    if entries == [] then [] else U16(entries[0].id) + U16(|entries[0].body|) + entries[0].body + Listed(entries[1..])
  }

  predicate New(entries: seq<Entry>, seen: Extensions) {
    forall i :: 0 <= i < |entries| ==> entries[i].id !in seen
  }

  function Gathered(entries: seq<Entry>, seen: Extensions): Extensions {
    if entries == [] then seen else Gathered(entries[1..], seen[entries[0].id := entries[0].body])
  }

  lemma AdmissibleTail(entries: seq<Entry>, client: bool, seen: Extensions)
    requires entries != []
    ensures Admissible(entries, client) && New(entries, seen) ==>
      && Admissible(entries[1..], client) && New(entries[1..], seen[entries[0].id := entries[0].body]) && entries[0].id !in seen
      && (client && entries[0].id == PRE_SHARED_KEY ==> entries[1..] == [])
    ensures
      && Admissible(entries[1..], client) && New(entries[1..], seen[entries[0].id := entries[0].body]) && entries[0].id !in seen
      && |entries[0].body| < 0x1_0000 && (client && entries[0].id == PRE_SHARED_KEY ==> entries[1..] == []) ==>
      Admissible(entries, client) && New(entries, seen)
  {
    var rest := entries[1..];
    assert entries == [entries[0]] + rest;
    if Admissible(entries, client) && New(entries, seen) {
      forall i | 0 <= i < |rest| ensures rest[i].id !in seen[entries[0].id := entries[0].body] { assert rest[i] == entries[i + 1]; }
    }
  }

  lemma {:induction false} ListParses(entries: seq<Entry>, client: bool, seen: Extensions)
    requires Admissible(entries, client) && New(entries, seen)
    ensures ParseExtensions(Listed(entries), client, seen) == Ok(Gathered(entries, seen))
    decreases |entries|
  {
    if entries != [] {
      var e, rest := entries[0], entries[1..];
      AdmissibleTail(entries, client, seen);
      FirstWritten(e.id, e.body, Listed(rest));
      ListParses(rest, client, seen[e.id := e.body]);
      assert rest == [] ==> Listed(rest) == [];
      hide First, U16, Admissible, New;
    }
  }

  lemma {:induction false} ParsedIsListed(data: seq<byte>, client: bool, seen: Extensions) returns (entries: seq<Entry>)
    requires ParseExtensions(data, client, seen).Ok?
    ensures Admissible(entries, client) && New(entries, seen) && data == Listed(entries)
    decreases |data|
  {
    if data == [] { return []; }
    var (id, body, tail) := First(data).value;
    WasFirst(data);
    var rest := ParsedIsListed(tail, client, seen[id := body]);
    entries := [Entry(id, body)] + rest;
    assert entries[1..] == rest;
    AdmissibleTail(entries, client, seen);
    hide First, U16, Admissible, New;
  }

  lemma WasFirst(data: seq<byte>)
    requires First(data).Some?
    ensures var (id, body, rest) := First(data).value; |body| < 0x1_0000 && data == U16(id) + U16(|body|) + body + rest
  {
    WasU16(Reader(data, false));
    WasVector16(Reader(data, false).ReadU16().1);
    hide U16;
    var (id, body, rest) := First(data).value;
    assert U16(id) + U16(|body|) + body + rest == U16(id) + (U16(|body|) + body + rest);
  }

  ghost predicate Lists(data: seq<byte>, entries: seq<Entry>, client: bool, e: Extensions) {
    Admissible(entries, client) && data == Listed(entries) && e == Gathered(entries, map[])
  }

  /** A byte string is accepted as extensions exactly when it lists them so, and then it means what it lists. */
  lemma ExtensionsExactly(data: seq<byte>, client: bool, e: Extensions)
    ensures ParseExtensions(data, client, map[]) == Ok(e) <==> exists entries :: Lists(data, entries, client, e)
  {
    if ParseExtensions(data, client, map[]) == Ok(e) {
      var entries := ParsedIsListed(data, client, map[]);
      ListParses(entries, client, map[]);
      assert Lists(data, entries, client, e);
    }
    if entries :| Lists(data, entries, client, e) { ListParses(entries, client, map[]); }
  }

  // ----- hellos -----

  lemma WasHead(data: seq<byte>)
    ensures var (version, random, sessionId, r) := ReadHead(data);
      !r.failed && version == 0xfefd ==> |random| == 32 && |sessionId| < 256 && data == Head(random, sessionId) + r.data
  {
    var r1 := Reader(data, false).ReadU16().1;
    var r2 := r1.Take(RANDOM).1;
    WasU16(Reader(data, false));
    WasVector8(r2);
    hide U16;
    var (version, random, sessionId, r) := ReadHead(data);
    if !r.failed {
      assert r1.data == random + r2.data;
      assert U16(version) + random + [|sessionId|] + sessionId + r.data == U16(version) + (random + ([|sessionId|] + sessionId + r.data));
    }
  }

  lemma WasTail(r: Reader)
    ensures var (cookie, suites, compression, ext, end) := ReadTail(r);
      end.Done() && cookie == [] && compression == [0] ==>
        !r.failed && |suites| < 0x1_0000 && |ext| < 0x1_0000 && r.data == Tail(suites, ext)
  {
    var r4 := r.Vector8().1;
    var r5 := r4.Vector16().1;
    var r6 := r5.Vector8().1;
    WasVector8(r);
    WasVector16(r4);
    WasVector8(r5);
    WasVector16(r6);
    hide U16, Reader.Vector16, Reader.Vector8;
    var (cookie, suites, compression, ext, end) := ReadTail(r);
    if end.Done() && cookie == [] && compression == [0] {
      assert [0] + [] + (U16(|suites|) + suites + ([1] + [0] + (U16(|ext|) + ext + []))) == Tail(suites, ext);
    }
  }

  lemma {:induction false} WasWords(b: seq<byte>)
    requires |b| % 2 == 0
    ensures |ReadWords(b)| == |b| / 2 && Words(ReadWords(b)) == b
  {
    if b != [] {
      WasWords(b[2..]);
      assert U16(Value16(b[..2])) == b[..2] && b == b[..2] + b[2..];
    }
  }

  /** The layout in bytes: version 0xfefd, random and session ID; no legacy cookie, the suites, one null compression method, extensions. */
  lemma Layout(random: seq<byte>, sessionId: seq<byte>, suites: seq<byte>, ext: seq<byte>)
    requires |random| == 32 && |sessionId| < 256 && |suites| < 0x1_0000 && |ext| < 0x1_0000
    ensures Head(random, sessionId) == [0xfe, 0xfd] + random + [|sessionId|] + sessionId
    ensures Tail(suites, ext) == [0, |suites| / 256, |suites| % 256] + suites + [1, 0, |ext| / 256, |ext| % 256] + ext
  {
  }

  ghost predicate ClientForm(data: seq<byte>, h: ClientHello, ext: seq<byte>) {
    && |h.random| == 32 && |h.sessionId| <= 32 && 1 <= |h.suites| <= 32767 && 8 <= |ext| < 0x1_0000
    && data == Head(h.random, h.sessionId) + Tail(Words(h.suites), ext)
    && exists entries :: Lists(ext, entries, true, h.extensions)
  }

  lemma ClientFormParses(data: seq<byte>, h: ClientHello, ext: seq<byte>)
    requires ClientForm(data, h, ext)
    ensures ParseClient(data) == Ok(h)
  {
    hide ParseExtensions, Words, ReadWords, ReadHead, ReadTail, Head, Tail, U16, Lists;
    ExtensionsExactly(ext, true, h.extensions);
    WordsRoundTrip(h.suites);
    ReadsHead(h.random, h.sessionId, Tail(Words(h.suites), ext));
    ReadsTail(Words(h.suites), ext);
  }

  lemma ParsedClientForm(data: seq<byte>) returns (ext: seq<byte>)
    requires ParseClient(data).Ok?
    ensures ClientForm(data, ParseClient(data).value, ext)
  {
    hide ParseExtensions, Words, ReadWords, ReadHead, ReadTail, Head, Tail, U16, Lists;
    var h := ParseClient(data).value;
    var r := ReadHead(data).3;
    WasHead(data);
    WasTail(r);
    WasWords(ReadTail(r).1);
    ext := ReadTail(r).3;
    ExtensionsExactly(ext, true, h.extensions);
  }

  /** The parser accepts a byte string exactly when it is laid out as a ClientHello, and reads it as the hello it lays out. */
  lemma ClientExactly(data: seq<byte>, h: ClientHello)
    ensures ParseClient(data) == Ok(h) <==> exists ext :: ClientForm(data, h, ext)
  {
    hide ParseClient, ClientForm;
    if ParseClient(data) == Ok(h) { var ext := ParsedClientForm(data); }
    if ext :| ClientForm(data, h, ext) { ClientFormParses(data, h, ext); }
  }

  function ServerTail(suite: u16, ext: seq<byte>): seq<byte>
    requires |ext| < 0x1_0000
  {
    U16(suite) + [0] + U16(|ext|) + ext
  }

  ghost predicate ServerForm(data: seq<byte>, h: ServerHello, ext: seq<byte>) {
    && |h.random| == 32 && |h.sessionId| <= 32 && |ext| < 0x1_0000
    && data == Head(h.random, h.sessionId) + ServerTail(h.suite, ext)
    && exists entries :: Lists(ext, entries, false, h.extensions)
  }

  /** What follows the session ID in a ServerHello. */
  function ReadServerTail(r: Reader): (u16, byte, seq<byte>, Reader) {
    var (suite, r4) := r.ReadU16();
    var (compression, r5) := r4.ReadU8();
    var (ext, r6) := r5.Vector16();
    (suite, compression, ext, r6)
  }

  lemma ReadsServerTail(suite: u16, ext: seq<byte>)
    requires |ext| < 0x1_0000
    ensures ReadServerTail(Reader(ServerTail(suite, ext), false)) == (suite, 0, ext, Reader([], false))
  {
    hide U16, Reader.ReadU16, Reader.ReadU8, Reader.Vector16;
    var t5 := U16(|ext|) + ext;
    var t4 := [0] + t5;
    assert ServerTail(suite, ext) == U16(suite) + t4;
    ReadsU16(suite, t4);
    ReadsU8(0, t5);
    assert t5 + [] == t5;
    ReadsVector16(ext, []);
  }

  lemma WasServerTail(r: Reader)
    ensures var (suite, compression, ext, end) := ReadServerTail(r);
      end.Done() && compression == 0 ==> !r.failed && |ext| < 0x1_0000 && r.data == ServerTail(suite, ext)
  {
    var r4 := r.ReadU16().1;
    var r5 := r4.ReadU8().1;
    WasU16(r);
    WasVector16(r5);
    assert !r5.failed ==> !r4.failed && r4.data == [r4.ReadU8().0] + r5.data;
    hide U16, Reader.ReadU16, Reader.ReadU8, Reader.Vector16;
    var (suite, compression, ext, end) := ReadServerTail(r);
    if end.Done() && compression == 0 {
      assert U16(suite) + ([0] + (U16(|ext|) + ext + [])) == ServerTail(suite, ext);
    }
  }

  lemma ServerFormParses(data: seq<byte>, h: ServerHello, ext: seq<byte>)
    requires ServerForm(data, h, ext)
    ensures ParseServer(data) == Ok(h)
  {
    hide ParseExtensions, ReadHead, Head, ServerTail, Lists, Reader.ReadU16, Reader.ReadU8, Reader.Vector16;
    ExtensionsExactly(ext, false, h.extensions);
    ReadsHead(h.random, h.sessionId, ServerTail(h.suite, ext));
    ReadsServerTail(h.suite, ext);
  }

  lemma ParsedServerForm(data: seq<byte>) returns (ext: seq<byte>)
    requires ParseServer(data).Ok?
    ensures ServerForm(data, ParseServer(data).value, ext)
  {
    hide ParseExtensions, ReadHead, Head, ServerTail, Lists, Reader.ReadU16, Reader.ReadU8, Reader.Vector16;
    var h := ParseServer(data).value;
    var r := ReadHead(data).3;
    WasHead(data);
    WasServerTail(r);
    ext := ReadServerTail(r).2;
    ExtensionsExactly(ext, false, h.extensions);
  }

  /** The same of a ServerHello. */
  lemma ServerExactly(data: seq<byte>, h: ServerHello)
    ensures ParseServer(data) == Ok(h) <==> exists ext :: ServerForm(data, h, ext)
  {
    hide ParseServer, ServerForm;
    if ParseServer(data) == Ok(h) { var ext := ParsedServerForm(data); }
    if ext :| ServerForm(data, h, ext) { ServerFormParses(data, h, ext); }
  }

  // ----- every hello that can be read can be written -----

  function Weight(e: Extensions, ids: seq<u16>): nat
    requires forall id :: id in ids ==> id in e
  {
    if ids == [] then 0 else 4 + |e[ids[0]]| + Weight(e, ids[1..])
  }

  lemma {:induction false} WeightSplits(e: Extensions, a: seq<u16>, b: seq<u16>)
    requires forall id :: id in a + b ==> id in e
    ensures (forall id :: id in a ==> id in a + b) && (forall id :: id in b ==> id in a + b)
    ensures Weight(e, a + b) == Weight(e, a) + Weight(e, b)
  {
    if a == [] { assert a + b == b; } else {
      assert (a + b)[1..] == a[1..] + b;
      WeightSplits(e, a[1..], b);
    }
  }

  function Dropped(ids: seq<u16>, k: nat): (rest: seq<u16>)
    requires k < |ids|
    ensures |rest| == |ids| - 1
  {
    ids[..k] + ids[k + 1..]
  }

  lemma DroppedKeeps(ids: seq<u16>, k: nat)
    requires k < |ids| && Unique(ids)
    ensures Unique(Dropped(ids, k)) && forall id :: id in Dropped(ids, k) <==> id in ids && id != ids[k]
  {
    var rest := Dropped(ids, k);
    forall i | 0 <= i < |rest| ensures rest[i] != ids[k] { assert rest[i] == ids[if i < k then i else i + 1]; }
    forall id | id in ids && id != ids[k] ensures id in rest {
      var i :| 0 <= i < |ids| && ids[i] == id;
      assert rest[if i < k then i else i - 1] == id;
    }
  }

  lemma DroppedWeight(e: Extensions, ids: seq<u16>, k: nat)
    requires k < |ids| && forall id :: id in ids ==> id in e
    ensures (forall id :: id in Dropped(ids, k) ==> id in ids) && Weight(e, ids) == 4 + |e[ids[k]]| + Weight(e, Dropped(ids, k))
  {
    var a, b := ids[..k], ids[k + 1..];
    assert ids == a + ([ids[k]] + b) && ([ids[k]] + b)[1..] == b;
    WeightSplits(e, a, [ids[k]] + b);
    WeightSplits(e, a, b);
  }

  /** Fewer extensions are no longer. */
  lemma {:induction false} FewerWeighLess(e: Extensions, a: seq<u16>, b: seq<u16>)
    requires Unique(a) && Unique(b) && (forall id :: id in a ==> id in b) && forall id :: id in b ==> id in e
    ensures Weight(e, a) <= Weight(e, b)
    decreases |a|
  {
    hide Unique, Dropped;
    if a != [] {
      assert a[0] in b;
      var k :| 0 <= k < |b| && b[k] == a[0];
      DroppedKeeps(a, 0);
      DroppedKeeps(b, k);
      DroppedWeight(e, a, 0);
      DroppedWeight(e, b, k);
      FewerWeighLess(e, Dropped(a, 0), Dropped(b, k));
    }
  }

  /** However the same extensions are ordered, they are as long. */
  lemma SameWeight(e: Extensions, a: seq<u16>, b: seq<u16>)
    requires Unique(a) && Unique(b) && (forall id :: id in a <==> id in b) && forall id :: id in a ==> id in e
    ensures Weight(e, a) == Weight(e, b)
  {
    FewerWeighLess(e, a, b);
    FewerWeighLess(e, b, a);
  }

  lemma {:induction false} WrittenWeight(e: Extensions, ids: seq<u16>)
    requires forall id :: id in ids ==> id in e && |e[id]| < 0x1_0000
    ensures |Written(e, ids)| == Weight(e, ids)
  {
    if ids != [] { WrittenWeight(e, ids[1..]); }
  }

  /** Extensions can be written exactly when each fits its field and together they fit theirs. */
  lemma MarshalWeight(e: Extensions)
    ensures forall id :: id in Order(e) ==> id in e
    ensures MarshalExtensions(e).Ok? <==> (forall id :: id in e ==> |e[id]| < 0x1_0000) && Weight(e, Order(e)) < 0x1_0000
    ensures MarshalExtensions(e).Ok? ==> |MarshalExtensions(e).value| == Weight(e, Order(e))
  {
    OrderCovers(e);
    hide Order, Weight, Ordered, Unique, Written;
    if forall id :: id in e ==> |e[id]| < 0x1_0000 { WrittenWeight(e, Order(e)); }
  }

  function Names(entries: seq<Entry>): seq<u16> { seq(|entries|, i requires 0 <= i < |entries| => entries[i].id) }

  lemma {:induction false} GatheredMeans(entries: seq<Entry>, seen: Extensions)
    requires Admissible(entries, false) && New(entries, seen)
    ensures var e := Gathered(entries, seen);
      && (forall id :: id in e <==> id in seen || id in Names(entries))
      && (forall id :: id in seen ==> e[id] == seen[id])
      && (forall i :: 0 <= i < |entries| ==> entries[i].id in e && e[entries[i].id] == entries[i].body)
    decreases |entries|
  {
    if entries != [] {
      AdmissibleTail(entries, false, seen);
      GatheredMeans(entries[1..], seen[entries[0].id := entries[0].body]);
      assert Names(entries) == [entries[0].id] + Names(entries[1..]);
      assert entries == [entries[0]] + entries[1..];
      hide Admissible;
    }
  }

  lemma {:induction false} ListedWeight(entries: seq<Entry>, e: Extensions)
    requires forall i :: 0 <= i < |entries| ==> |entries[i].body| < 0x1_0000 && entries[i].id in e && e[entries[i].id] == entries[i].body
    ensures (forall id :: id in Names(entries) ==> id in e) && |Listed(entries)| == Weight(e, Names(entries))
  {
    if entries != [] {
      ListedWeight(entries[1..], e);
      assert Names(entries)[1..] == Names(entries[1..]);
    }
  }

  lemma NamesCover(entries: seq<Entry>, e: Extensions)
    requires Admissible(entries, false) && e == Gathered(entries, map[])
    ensures Unique(Names(entries)) && (forall id :: id in e <==> id in Names(entries)) && forall id :: id in e ==> |e[id]| < 0x1_0000
    ensures |Listed(entries)| == Weight(e, Names(entries))
  {
    GatheredMeans(entries, map[]);
    ListedWeight(entries, e);
    hide Listed, Weight, Gathered;
    forall id | id in e ensures |e[id]| < 0x1_0000 {
      var i :| 0 <= i < |entries| && Names(entries)[i] == id;
      assert e[entries[i].id] == entries[i].body;
    }
  }

  lemma ListedIsWritable(data: seq<byte>, entries: seq<Entry>, client: bool, e: Extensions)
    requires Lists(data, entries, client, e) && |data| < 0x1_0000
    ensures MarshalExtensions(e).Ok? && |MarshalExtensions(e).value| == |data|
  {
    assert Admissible(entries, false);
    NamesCover(entries, e);
    OrderCovers(e);
    hide Order, Listed, Weight, Ordered, Names, Gathered, Written, Unique;
    SameWeight(e, Names(entries), Order(e));
    MarshalWeight(e);
  }

  /** A ClientHello can be written exactly when some byte string is read as it. */
  lemma ClientWritable(h: ClientHello)
    requires |h.random| == RANDOM
    ensures MarshalClient(h).Ok? <==> exists data :: ParseClient(data) == Ok(h)
  {
    if MarshalClient(h).Ok? { ClientRoundTrip(h); }
    if data :| ParseClient(data) == Ok(h) {
      var ext := ParsedClientForm(data);
      hide ParseClient, MarshalExtensions, Head, Tail, Lists;
      var entries :| Lists(ext, entries, true, h.extensions);
      ListedIsWritable(ext, entries, true, h.extensions);
    }
  }

  lemma ServerWritable(h: ServerHello)
    requires |h.random| == RANDOM
    ensures MarshalServer(h).Ok? <==> exists data :: ParseServer(data) == Ok(h)
  {
    if MarshalServer(h).Ok? { ServerRoundTrip(h); }
    if data :| ParseServer(data) == Ok(h) {
      var ext := ParsedServerForm(data);
      hide ParseServer, MarshalExtensions, Head, ServerTail, Lists;
      var entries :| Lists(ext, entries, false, h.extensions);
      ListedIsWritable(ext, entries, false, h.extensions);
    }
  }
}
