/** Stateless retry: all the server remembers of a first ClientHello is in the cookie it sends back. */
module Retry {
  import opened Wire
  import opened Hello
  import CookieKeys
  import Identities

  const SHA := 32
  const SUPPORTED_GROUPS: u16 := 10
  const PADDING: u16 := 21
  const EARLY_DATA: u16 := 42
  const SUPPORTED_VERSIONS: u16 := 43
  const COOKIE: u16 := 44
  const KEY_SHARE: u16 := 51
  const CLIENT_HELLO: byte := 1
  const SERVER_HELLO: byte := 2
  const MESSAGE_HASH: byte := 254
  const MAX_BODY := 0x10_0000
  const MAX_CLIENT_HELLO := 2 * 65535 + 256

  const RETRY_RANDOM: seq<byte> :=
    [0xcf, 0x21, 0xad, 0x74, 0xe5, 0x9a, 0x61, 0x11, 0xbe, 0x1d, 0x8c, 0x02, 0x1e, 0x65, 0xb8, 0x91,
     0xc2, 0xa2, 0x11, 0x16, 0x7a, 0xbb, 0x8c, 0x5e, 0x07, 0x9e, 0x09, 0xe2, 0xc8, 0xa8, 0x33, 0x9c]

  /** What the exchange draws on: hashes, a cookie MAC, the known suites, and the reading of a hello's other extensions. */
  datatype Around = Around(
    sha: seq<byte> -> seq<byte>,
    mac: (CookieKeys.Key, seq<byte>, seq<byte>) -> seq<byte>,
    hash: (u16, seq<byte>) -> seq<byte>,
    size: u16 -> nat,
    known: u16 -> bool,
    groups: seq<byte> -> seq<u16>,
    shares: seq<byte> -> set<u16>,
    accepts: ClientHello -> bool)

  datatype Offer = Offer(groups: seq<u16>, shares: set<u16>, cookie: seq<byte>)

  datatype Config = Config(suites: seq<u16>, curves: seq<u16>)

  ghost predicate Lawful(c: Around) {
    && (forall x :: |c.sha(x)| == SHA)
    && (forall k, p, x :: |c.mac(k, p, x)| == SHA)
    && (forall s, x :: |c.hash(s, x)| == c.size(s) <= 64)
  }

  // ----- the cookie -----

  datatype Fields = Fields(
    seconds: u64, suite: u16, group: u16, requested: bool, hash: seq<byte>, fingerprint: seq<byte>, identities: seq<byte>)

  predicate Shaped(f: Fields) {
    |f.hash| < 256 && |f.fingerprint| == SHA && |f.identities| < 0x1_0000 && |f.identities| % SHA == 0
  }

  function Front(f: Fields): seq<byte> {
    [1] + U64(f.seconds) + U16(f.suite) + U16(f.group) + [if f.requested then 1 else 0]
  }

  function Back(f: Fields): seq<byte>
    requires Shaped(f)
  {
    [|f.hash|] + f.hash + f.fingerprint + U16(|f.identities|) + f.identities
  }

  function CookieData(f: Fields): seq<byte>
    requires Shaped(f)
  {
    Front(f) + Back(f)
  }

  function ReadFront(r: Reader): (byte, seq<byte>, u16, u16, byte, Reader) {
    var (version, r1) := r.ReadU8();
    var (seconds, r2) := r1.Take(8);
    var (suite, r3) := r2.ReadU16();
    var (group, r4) := r3.ReadU16();
    var (flag, r5) := r4.ReadU8();
    (version, seconds, suite, group, flag, r5)
  }

  function ReadBack(r: Reader): (seq<byte>, seq<byte>, seq<byte>, Reader) {
    var (hash, r1) := r.Vector8();
    var (fingerprint, r2) := r1.Take(SHA);
    var (identities, r3) := r2.Vector16();
    (hash, fingerprint, identities, r3)
  }

  function ReadCookie(data: seq<byte>): (f: Option<Fields>)
    ensures f.Some? ==> |f.value.identities| % SHA == 0
  {
    var (version, seconds, suite, group, flag, r) := ReadFront(Reader(data, false));
    var (hash, fingerprint, identities, end) := ReadBack(r);
    if |seconds| != 8 || !end.Done() || version != 1 || flag > 1 || |identities| % SHA != 0 then None
    else Some(Fields(Value64(seconds), suite, group, flag == 1, hash, fingerprint, identities))
  }

  lemma ReadsFront(f: Fields, rest: seq<byte>)
    ensures ReadFront(Reader(Front(f) + rest, false)) ==
      (1, U64(f.seconds), f.suite, f.group, if f.requested then 1 else 0, Reader(rest, false))
  {
    hide U16, U64, Reader.ReadU8, Reader.ReadU16, Reader.Take;
    var flag := if f.requested then 1 else 0;
    var t4 := [flag] + rest;
    var t3 := U16(f.group) + t4;
    var t2 := U16(f.suite) + t3;
    var t1 := U64(f.seconds) + t2;
    assert Front(f) + rest == [1] + t1;
    ReadsU8(1, t1);
    Taken(U64(f.seconds), t2);
    ReadsU16(f.suite, t3);
    ReadsU16(f.group, t4);
    ReadsU8(flag, rest);
  }

  lemma ReadsBack(f: Fields)
    requires Shaped(f)
    ensures ReadBack(Reader(Back(f), false)) == (f.hash, f.fingerprint, f.identities, Reader([], false))
  {
    hide U16, Reader.Vector8, Reader.Vector16, Reader.Take;
    var t2 := U16(|f.identities|) + f.identities + [];
    var t1 := f.fingerprint + t2;
    assert Back(f) == [|f.hash|] + f.hash + t1;
    ReadsVector8(f.hash, t1);
    Taken(f.fingerprint, t2);
    ReadsVector16(f.identities, []);
  }

  lemma CookieRoundTrip(f: Fields)
    requires Shaped(f)
    ensures ReadCookie(CookieData(f)) == Some(f)
  {
    hide Front, Back, ReadFront, ReadBack, U64, Value64;
    ReadsFront(f, Back(f));
    ReadsBack(f);
    RoundTrip64(f.seconds);
  }

  // ----- HelloRetryRequest -----

  function CookieExtension(cookie: seq<byte>): seq<byte> {
    if |cookie| < 0x1_0000 then U16(|cookie|) + cookie else []
  }

  function RetryHello(suite: u16, group: u16, requested: bool, cookie: seq<byte>): ServerHello {
    ServerHello(RETRY_RANDOM, [], suite,
      map[SUPPORTED_VERSIONS := [0xfe, 0xfc], COOKIE := CookieExtension(cookie)] + if requested then map[KEY_SHARE := U16(group)] else map[])
  }

  function RetryBody(suite: u16, group: u16, requested: bool, cookie: seq<byte>): Result<seq<byte>> {
    MarshalServer(RetryHello(suite, group, requested, cookie))
  }

  function ParseCookie(data: seq<byte>): Result<seq<byte>> {
    var (cookie, r) := Reader(data, false).Vector16();
    if !r.Done() || cookie == [] then Err(Decode) else Ok(cookie)
  }

  /** The client finds in a retry exactly the cookie put there, provided it fits an extension. */
  lemma CookieTravels(suite: u16, group: u16, requested: bool, cookie: seq<byte>)
    requires RetryBody(suite, group, requested, cookie).Ok? && cookie != []
    ensures var r := ParseServer(RetryBody(suite, group, requested, cookie).value);
      && r == Ok(RetryHello(suite, group, requested, cookie))
      && (ParseCookie(r.value.extensions[COOKIE]) == Ok(cookie) <==> |cookie| < 0x1_0000)
  {
    ServerRoundTrip(RetryHello(suite, group, requested, cookie));
    hide MarshalServer, ParseServer, U16;
    if |cookie| < 0x1_0000 {
      assert U16(|cookie|) + cookie + [] == U16(|cookie|) + cookie;
      ReadsVector16(cookie, []);
    }
  }

  // ----- issuing -----

  /** The part of a hello's offer the retry turns on; accepts stands for the checks of its other extensions. */
  function ParseOffer(c: Around, h: ClientHello): Result<Offer> {
    var e := h.extensions;
    if SUPPORTED_GROUPS !in e || KEY_SHARE !in e || !c.accepts(h) then Err(Decode)
    else if COOKIE in e && ParseCookie(e[COOKIE]).Err? then Err(Decode)
    else if PRE_SHARED_KEY in e && !Identities.ValidOffer(e[PRE_SHARED_KEY]) then Err(Decode)
    else if EARLY_DATA in e && (e[EARLY_DATA] != [] || PRE_SHARED_KEY !in e) then Err(IllegalParameter)
    else Ok(Offer(c.groups(e[SUPPORTED_GROUPS]), c.shares(e[KEY_SHARE]), if COOKIE in e then ParseCookie(e[COOKIE]).value else []))
  }

  function Transcript(typ: byte, body: seq<byte>): Result<seq<byte>> {
    if |body| > MAX_BODY then Err(HandshakeLimit) else Ok([typ] + U24(|body|) + body)
  }

  predicate Fixed(id: u16, requested: bool) {
    id != COOKIE && id != PADDING && id != PRE_SHARED_KEY && id != EARLY_DATA && (!requested || id != KEY_SHARE)
  }

  /** The extensions that may not change between the two hellos. */
  function Unchanged(e: Extensions, requested: bool): Extensions {
    map id | id in e && Fixed(id, requested) :: e[id]
  }

  function Fingerprint(c: Around, h: ClientHello, requested: bool): Result<seq<byte>>
    requires |h.random| == RANDOM
  {
    var wire := MarshalClient(h.(extensions := Unchanged(h.extensions, requested)));
    if wire.Err? then wire else Ok(c.sha(wire.value))
  }

  function Hashes(c: Around, identities: seq<seq<byte>>): seq<byte> {
    if identities == [] then [] else c.sha(identities[0]) + Hashes(c, identities[1..])
  }

  function IdentityHashes(c: Around, h: ClientHello): seq<byte> {
    if PRE_SHARED_KEY in h.extensions then Hashes(c, Identities.Listed(Identities.IdentityList(h.extensions[PRE_SHARED_KEY]))) else []
  }

  /** Preference i is on offer, and none before it is. */
  ghost predicate Foremost(preferences: seq<u16>, offered: seq<u16>, i: nat) {
    i < |preferences| && preferences[i] in offered && forall j :: 0 <= j < i ==> preferences[j] !in offered
  }

  /** The first preference that is on offer, or 0. */
  function Choose(preferences: seq<u16>, offered: seq<u16>): (x: u16)
    ensures x != 0 ==> x in preferences && x in offered
    ensures (exists i :: 0 <= i < |preferences| && preferences[i] == x && Foremost(preferences, offered, i))
      || (x == 0 && forall i :: 0 <= i < |preferences| ==> preferences[i] !in offered)
  {
    if preferences == [] then 0 else if preferences[0] in offered then preferences[0] else Choose(preferences[1..], offered)
  }

  /** What a cookie remembers of a first ClientHello. */
  function Remember(c: Around, config: Config, body: seq<byte>, h: ClientHello, o: Offer, now: int): Result<Fields>
    requires |h.random| == RANDOM
  {
    var seconds := CookieKeys.Seconds(now);
    var suite, group := Choose(config.suites, h.suites), Choose(config.curves, o.groups);
    if seconds < 0 || seconds >= 0x1_0000_0000_0000_0000 then Err(IllegalParameter)
    else if suite == 0 || group == 0 || !c.known(suite) then Err(HandshakeFailure)
    else
      var first := Transcript(CLIENT_HELLO, body);
      var fingerprint := Fingerprint(c, h, group !in o.shares);
      if first.Err? then Err(first.error)
      else if fingerprint.Err? then Err(fingerprint.error)
      else if |IdentityHashes(c, h)| >= 0x1_0000 then Err(Decode)
      else Ok(Fields(seconds, suite, group, group !in o.shares, c.hash(suite, first.value), fingerprint.value, IdentityHashes(c, h)))
  }

  lemma {:induction false} HashesShape(c: Around, identities: seq<seq<byte>>)
    requires Lawful(c)
    ensures |Hashes(c, identities)| == SHA * |identities|
  {
    if identities != [] { HashesShape(c, identities[1..]); }
  }

  lemma RememberShape(c: Around, config: Config, body: seq<byte>, h: ClientHello, o: Offer, now: int)
    requires Lawful(c) && |h.random| == RANDOM && Remember(c, config, body, h, o, now).Ok?
    ensures Shaped(Remember(c, config, body, h, o, now).value)
  {
    IdentityShape(c, h);
    hide IdentityHashes, MarshalClient;
  }

  lemma IdentityShape(c: Around, h: ClientHello)
    requires Lawful(c)
    ensures |IdentityHashes(c, h)| % SHA == 0
  {
    if PRE_SHARED_KEY in h.extensions {
      HashesShape(c, Identities.Listed(Identities.IdentityList(h.extensions[PRE_SHARED_KEY])));
    }
  }

  function Sealed(c: Around, key: CookieKeys.Key, peer: seq<byte>, f: Fields): seq<byte>
    requires Shaped(f)
  {
    CookieData(f) + c.mac(key, peer, CookieData(f))
  }

  /** The body of the HelloRetryRequest that answers a first ClientHello. */
  function Issue(c: Around, s: CookieKeys.Secrets, config: Config, peer: seq<byte>, body: seq<byte>, h: ClientHello, o: Offer, now: int): Result<seq<byte>>
    requires Lawful(c) && |h.random| == RANDOM
  {
    var f := Remember(c, config, body, h, o, now);
    if f.Err? then Err(f.error)
    else RememberShape(c, config, body, h, o, now); RetryBody(f.value.suite, f.value.group, f.value.requested, Sealed(c, s.current, peer, f.value))
  }

  // ----- verifying -----

  datatype Verified = Verified(suite: u16, group: u16, firstHash: seq<byte>, retry: seq<byte>)

  predicate ValidMac(c: Around, s: CookieKeys.Secrets, peer: seq<byte>, data: seq<byte>, tag: seq<byte>) {
    tag == c.mac(s.current, peer, data) || tag == c.mac(s.previous, peer, data)
  }

  function OpenCookie(c: Around, s: CookieKeys.Secrets, peer: seq<byte>, cookie: seq<byte>): (f: Option<Fields>)
    ensures f.Some? ==> |f.value.identities| % SHA == 0
  {
    if |cookie| < SHA then None
    else
      var data, tag := cookie[..|cookie| - SHA], cookie[|cookie| - SHA..];
      if ValidMac(c, s, peer, data, tag) then ReadCookie(data) else None
  }

  /** The second hello keeps to what the cookie says of the first. */
  predicate Matches(c: Around, config: Config, f: Fields, h: ClientHello, o: Offer, seconds: int)
    requires Lawful(c) && |h.random| == RANDOM && |f.identities| % SHA == 0
  {
    IdentityShape(c, h);
    && CookieKeys.Young(f.seconds, seconds)
    && c.known(f.suite) && |f.hash| == c.size(f.suite) && f.suite in config.suites && f.suite in h.suites
    && EARLY_DATA !in h.extensions
    && Fingerprint(c, h, f.requested) == Ok(f.fingerprint)
    && Identities.Greedy(Identities.Chunks(f.identities), Identities.Chunks(IdentityHashes(c, h)))
    && f.group in o.groups && f.group in o.shares && (f.requested ==> |o.shares| == 1)
  }

  function Verify(c: Around, s: CookieKeys.Secrets, config: Config, peer: seq<byte>, sequence: nat, body: seq<byte>, now: int): Result<Verified>
    requires Lawful(c)
  {
    if sequence != 1 || |body| > MAX_CLIENT_HELLO then Err(UnexpectedMessage)
    else
      var hello := ParseClient(body);
      if hello.Err? then Err(hello.error)
      else
        var o := ParseOffer(c, hello.value);
        if o.Err? then Err(o.error)
        else if CookieKeys.Seconds(now) < 0 then Err(IllegalParameter)
        else
          var f := OpenCookie(c, s, peer, o.value.cookie);
          if f.None? || !Matches(c, config, f.value, hello.value, o.value, CookieKeys.Seconds(now)) then Err(IllegalParameter)
          else
            var retry := RetryBody(f.value.suite, f.value.group, f.value.requested, o.value.cookie);
            if retry.Err? then Err(retry.error)
            else
              var transcript := Transcript(SERVER_HELLO, retry.value);
              if transcript.Err? then Err(transcript.error)
              else Ok(Verified(f.value.suite, f.value.group, f.value.hash, transcript.value))
  }

  // ----- the client -----

  /** The second ClientHello: the first with the cookie, and with the share asked for. */
  function ClientRetry(h: ClientHello, retried: bool, shares: set<u16>, groups: seq<u16>, hrr: ServerHello, share: seq<byte>): Result<ClientHello> {
    var e, r := h.extensions, hrr.extensions;
    if retried then Err(UnexpectedMessage)
    else if exists id :: id in r && id !in e && id != COOKIE then Err(UnsupportedExtension)
    else if exists id :: id in r && id != SUPPORTED_VERSIONS && id != COOKIE && id != KEY_SHARE then Err(IllegalParameter)
    else if COOKIE in r && ParseCookie(r[COOKIE]).Err? then Err(Decode)
    else
      var withCookie := if COOKIE in r then e[COOKIE := r[COOKIE]] else e;
      if KEY_SHARE !in r then
        if COOKIE !in r then Err(IllegalParameter) else Ok(h.(extensions := withCookie))
      else if |r[KEY_SHARE]| != 2 then Err(Decode)
      else if Value16(r[KEY_SHARE]) in shares || Value16(r[KEY_SHARE]) !in groups then Err(IllegalParameter)
      else Ok(h.(extensions := withCookie[KEY_SHARE := share]))
  }

  /** The transcript up to the second ClientHello, from the hash of the first. */
  function RetryTranscript(c: Around, suite: u16, firstHash: seq<byte>, retry: seq<byte>, second: seq<byte>): Result<seq<byte>> {
    if !c.known(suite) then Err(HandshakeFailure)
    else if |firstHash| != c.size(suite) || |firstHash| >= 0x100_0000 then Err(KeyMaterial)
    else Ok([MESSAGE_HASH] + U24(|firstHash|) + firstHash + retry + second)
  }

  /** The client has both hellos and the retry it received. */
  function ClientTranscript(c: Around, suite: u16, first: seq<byte>, retry: seq<byte>, second: seq<byte>): Result<seq<byte>> {
    if !c.known(suite) then Err(HandshakeFailure) else RetryTranscript(c, suite, c.hash(suite, first), retry, second)
  }

  // ----- what a transcript says -----

  /** Reads one handshake message off a transcript: its type and its body. */
  function ReadMessage(r: Reader): (byte, seq<byte>, Reader) {
    var (typ, r1) := r.ReadU8();
    var (body, r2) := r1.Vector24();
    (typ, body, r2)
  }

  lemma ReadsMessage(typ: byte, body: seq<byte>, rest: seq<byte>)
    requires |body| < 0x100_0000
    ensures ReadMessage(Reader([typ] + U24(|body|) + body + rest, false)) == (typ, body, Reader(rest, false))
  {
    hide U24, Reader.Vector24, Reader.ReadU8;
    var tail := U24(|body|) + body + rest;
    assert [typ] + U24(|body|) + body + rest == [typ] + tail;
    ReadsU8(typ, tail);
    ReadsVector24(body, rest);
  }

  /** Three messages and nothing else: the hash of the first hello, the retry, and the second hello. */
  ghost predicate Spells(t: seq<byte>, firstHash: seq<byte>, retry: seq<byte>, second: seq<byte>) {
    var (a, x, r1) := ReadMessage(Reader(t, false));
    var (b, y, r2) := ReadMessage(r1);
    var (c, z, r3) := ReadMessage(r2);
    r3.Done() && (a, b, c) == (254, 2, 1) && (x, y, z) == (firstHash, retry, second)
  }

  /** The transcript of a retry reads back as these three messages. */
  lemma TranscriptSpells(c: Around, suite: u16, firstHash: seq<byte>, retry: seq<byte>, second: seq<byte>)
    requires Transcript(SERVER_HELLO, retry).Ok? && Transcript(CLIENT_HELLO, second).Ok?
    requires RetryTranscript(c, suite, firstHash, Transcript(SERVER_HELLO, retry).value, Transcript(CLIENT_HELLO, second).value).Ok?
    ensures Spells(RetryTranscript(c, suite, firstHash, Transcript(SERVER_HELLO, retry).value, Transcript(CLIENT_HELLO, second).value).value,
                   firstHash, retry, second)
  {
    hide ReadMessage, U24;
    var m2, m3 := Transcript(SERVER_HELLO, retry).value, Transcript(CLIENT_HELLO, second).value;
    var t := RetryTranscript(c, suite, firstHash, m2, m3).value;
    assert t == [MESSAGE_HASH] + U24(|firstHash|) + firstHash + (m2 + m3);
    ReadsMessage(MESSAGE_HASH, firstHash, m2 + m3);
    assert m2 + m3 == [SERVER_HELLO] + U24(|retry|) + retry + m3;
    ReadsMessage(SERVER_HELLO, retry, m3);
    assert m3 == [CLIENT_HELLO] + U24(|second|) + second + [];
    ReadsMessage(CLIENT_HELLO, second, []);
  }

  /** Equal transcripts mean equal first hashes, equal retries and equal second hellos. */
  lemma TranscriptsTellApart(t: seq<byte>, hash: seq<byte>, retry: seq<byte>, second: seq<byte>, hash': seq<byte>, retry': seq<byte>, second': seq<byte>)
    requires Spells(t, hash, retry, second) && Spells(t, hash', retry', second')
    ensures hash == hash' && retry == retry' && second == second'
  {
    hide ReadMessage;
  }

  // ----- agreement -----

  lemma CookieLength(c: Around, key: CookieKeys.Key, peer: seq<byte>, f: Fields)
    requires Lawful(c) && Shaped(f)
    ensures |Sealed(c, key, peer, f)| == 1 + 8 + 2 + 2 + 1 + 1 + |f.hash| + SHA + 2 + |f.identities| + SHA
  {
  }

  /** A cookie opens under the same or the previous key to exactly what was sealed in it. */
  lemma OpensSealed(c: Around, s: CookieKeys.Secrets, key: CookieKeys.Key, peer: seq<byte>, f: Fields)
    requires Lawful(c) && Shaped(f) && CookieKeys.Holds(s, key)
    ensures OpenCookie(c, s, peer, Sealed(c, key, peer, f)) == Some(f)
  {
    CookieRoundTrip(f);
    hide CookieData, ReadCookie;
    var data := CookieData(f);
    var cookie := Sealed(c, key, peer, f);
    assert cookie[..|cookie| - SHA] == data && cookie[|cookie| - SHA..] == c.mac(key, peer, data);
  }

  lemma {:induction false} GreedySelf(a: seq<seq<byte>>)
    ensures Identities.Greedy(a, a)
  {
    if a != [] { GreedySelf(a[1..]); }
  }

  /** A valid offer's identities leave room for the cookie in its extension. */
  lemma IdentitiesFit(c: Around, h: ClientHello)
    requires Lawful(c) && ParseOffer(c, h).Ok? && forall id :: id in h.extensions ==> |h.extensions[id]| < 0x1_0000
    ensures |IdentityHashes(c, h)| <= 1638 * SHA
  {
    if PRE_SHARED_KEY in h.extensions {
      var data := h.extensions[PRE_SHARED_KEY];
      Identities.FewIdentities(data);
      HashesShape(c, Identities.Listed(Identities.IdentityList(data)));
    }
  }

  lemma ClientLength(h: ClientHello)
    requires |h.random| == RANDOM && MarshalClient(h).Ok?
    ensures |MarshalClient(h).value| <= MAX_CLIENT_HELLO
    ensures forall id :: id in h.extensions ==> |h.extensions[id]| < 0x1_0000
  {
    hide U16, Words, Written, Order;
  }

  lemma ServerLength(h: ServerHello)
    requires |h.random| == RANDOM && MarshalServer(h).Ok?
    ensures |MarshalServer(h).value| <= MAX_BODY
  {
    hide U16, Written, Order;
  }

  /** What a client changes between its two hellos: the cookie, and the key share if asked to. */
  lemma SecondHello(h: ClientHello, shares: set<u16>, groups: seq<u16>, suite: u16, group: u16, requested: bool, cookie: seq<byte>, share: seq<byte>)
    requires ClientRetry(h, false, shares, groups, RetryHello(suite, group, requested, cookie), share).Ok?
    ensures var second := ClientRetry(h, false, shares, groups, RetryHello(suite, group, requested, cookie), share).value;
      && second == h.(extensions := second.extensions)
      && Unchanged(second.extensions, requested) == Unchanged(h.extensions, requested)
      && COOKIE in second.extensions && second.extensions[COOKIE] == CookieExtension(cookie)
      && (forall id :: id != COOKIE && (id != KEY_SHARE || !requested) ==>
            (id in second.extensions <==> id in h.extensions) && (id in h.extensions ==> second.extensions[id] == h.extensions[id]))
      && (requested ==> KEY_SHARE in second.extensions && second.extensions[KEY_SHARE] == share)
  {
    hide CookieExtension, ParseCookie, U16, Value16;
  }

  /** The second hello of such a client matches what the cookie remembers of the first. */
  lemma RetriedMatches(c: Around, config: Config, body: seq<byte>, first: ClientHello, o1: Offer, issued: int, second: ClientHello, o2: Offer, now: int)
    requires Lawful(c) && |first.random| == RANDOM && Remember(c, config, body, first, o1, issued).Ok?
    requires second == first.(extensions := second.extensions)
    requires var f := Remember(c, config, body, first, o1, issued).value;
      && Unchanged(second.extensions, f.requested) == Unchanged(first.extensions, f.requested)
      && f.group in o2.groups && f.group in o2.shares && (f.requested ==> |o2.shares| == 1)
    requires IdentityHashes(c, second) == IdentityHashes(c, first) && EARLY_DATA !in second.extensions
    requires CookieKeys.Young(CookieKeys.Seconds(issued), CookieKeys.Seconds(now))
    ensures var f := Remember(c, config, body, first, o1, issued).value;
      |f.identities| % SHA == 0 && Matches(c, config, f, second, o2, CookieKeys.Seconds(now))
  {
    IdentityShape(c, first);
    IdentityShape(c, second);
    GreedySelf(Identities.Chunks(IdentityHashes(c, first)));
    hide IdentityHashes, MarshalClient, Identities.Chunks, Identities.Greedy;
  }

  lemma SameIdentities(c: Around, a: ClientHello, b: ClientHello)
    requires PRE_SHARED_KEY in a.extensions <==> PRE_SHARED_KEY in b.extensions
    requires PRE_SHARED_KEY in a.extensions ==> a.extensions[PRE_SHARED_KEY] == b.extensions[PRE_SHARED_KEY]
    ensures IdentityHashes(c, a) == IdentityHashes(c, b)
  {
  }

  /** One whole retry: a first hello answered, the answer acted on by the client, and the second hello it sends. */
  datatype Exchange = Exchange(
    config: Config, peer: seq<byte>, secrets: CookieKeys.Secrets, first: ClientHello, issued: int,
    body: seq<byte>, retry: ServerHello, share: seq<byte>, second: ClientHello)

  ghost predicate Happens(c: Around, x: Exchange) {
    && Lawful(c) && |x.first.random| == RANDOM && |x.second.random| == RANDOM
    && MarshalClient(x.first).Ok? && ParseOffer(c, x.first).Ok?
    && Issue(c, x.secrets, x.config, x.peer, MarshalClient(x.first).value, x.first, ParseOffer(c, x.first).value, x.issued) == Ok(x.body)
    && ParseServer(x.body) == Ok(x.retry)
    && ClientRetry(x.first, false, ParseOffer(c, x.first).value.shares, ParseOffer(c, x.first).value.groups, x.retry, x.share) == Ok(x.second)
    && (KEY_SHARE in x.retry.extensions && |x.retry.extensions[KEY_SHARE]| == 2 ==> c.shares(x.share) == {Value16(x.retry.extensions[KEY_SHARE])})
    && MarshalClient(x.second).Ok? && ParseOffer(c, x.second).Ok?
  }

  ghost function Remembered(c: Around, x: Exchange): Fields
    requires Happens(c, x)
  {
    Remember(c, x.config, MarshalClient(x.first).value, x.first, ParseOffer(c, x.first).value, x.issued).value
  }

  lemma RetryCarriesCookie(c: Around, x: Exchange)
    requires Happens(c, x)
    ensures var f := Remembered(c, x);
      && Shaped(f) && x.retry == RetryHello(f.suite, f.group, f.requested, Sealed(c, x.secrets.current, x.peer, f))
      && ParseCookie(CookieExtension(Sealed(c, x.secrets.current, x.peer, f))) == Ok(Sealed(c, x.secrets.current, x.peer, f))
      && RetryBody(f.suite, f.group, f.requested, Sealed(c, x.secrets.current, x.peer, f)) == Ok(x.body)
      && |x.body| <= MAX_BODY
  {
    hide Happens, ParseServer, MarshalServer, MarshalClient, ParseOffer, ClientRetry, IdentityHashes, Sealed, ParseCookie, Remember, Issue;
    Parts(c, x);
    var f := Remembered(c, x);
    RememberFacts(c, x.config, MarshalClient(x.first).value, x.first, ParseOffer(c, x.first).value, x.issued);
    ClientLength(x.first);
    IdentitiesFit(c, x.first);
    var cookie := Sealed(c, x.secrets.current, x.peer, f);
    CookieLength(c, x.secrets.current, x.peer, f);
    CookieTravels(f.suite, f.group, f.requested, cookie);
    ServerLength(RetryHello(f.suite, f.group, f.requested, cookie));
  }

  lemma RememberFacts(c: Around, config: Config, body: seq<byte>, h: ClientHello, o: Offer, now: int)
    requires Lawful(c) && |h.random| == RANDOM && Remember(c, config, body, h, o, now).Ok?
    ensures var f := Remember(c, config, body, h, o, now).value;
      && Shaped(f) && |f.hash| == c.size(f.suite) <= 64 && f.identities == IdentityHashes(c, h) && f.seconds == CookieKeys.Seconds(now)
      && c.known(f.suite) && f.group in o.groups && (f.requested <==> f.group !in o.shares)
      && Transcript(CLIENT_HELLO, body).Ok? && f.hash == c.hash(f.suite, Transcript(CLIENT_HELLO, body).value)
  {
    RememberShape(c, config, body, h, o, now);
    hide IdentityHashes, Fingerprint, Transcript;
  }

  /** The pieces of an exchange, one by one. */
  lemma Parts(c: Around, x: Exchange)
    requires Happens(c, x)
    ensures Lawful(c) && |x.first.random| == RANDOM && |x.second.random| == RANDOM
    ensures MarshalClient(x.first).Ok? && ParseOffer(c, x.first).Ok?
    ensures Remember(c, x.config, MarshalClient(x.first).value, x.first, ParseOffer(c, x.first).value, x.issued).Ok?
    ensures Shaped(Remembered(c, x))
    ensures RetryBody(Remembered(c, x).suite, Remembered(c, x).group, Remembered(c, x).requested,
                      Sealed(c, x.secrets.current, x.peer, Remembered(c, x))) == Ok(x.body)
    ensures ParseServer(x.body) == Ok(x.retry)
    ensures ClientRetry(x.first, false, ParseOffer(c, x.first).value.shares, ParseOffer(c, x.first).value.groups, x.retry, x.share) == Ok(x.second)
    ensures KEY_SHARE in x.retry.extensions && |x.retry.extensions[KEY_SHARE]| == 2 ==> c.shares(x.share) == {Value16(x.retry.extensions[KEY_SHARE])}
    ensures MarshalClient(x.second).Ok? && ParseOffer(c, x.second).Ok?
  {
    hide ParseServer, MarshalClient, ParseOffer, ClientRetry, Remember, RetryBody, Sealed;
    RememberShape(c, x.config, MarshalClient(x.first).value, x.first, ParseOffer(c, x.first).value, x.issued);
  }

  /** The server reads in the second hello its own cookie, and a share for the group it chose. */
  lemma SecondOffer(c: Around, x: Exchange)
    requires Happens(c, x)
    ensures var f := Remembered(c, x); var o := ParseOffer(c, x.second).value;
      && Shaped(f) && o.cookie == Sealed(c, x.secrets.current, x.peer, f)
      && f.group in o.groups && f.group in o.shares && (f.requested ==> |o.shares| == 1)
      && x.second == x.first.(extensions := x.second.extensions)
      && Unchanged(x.second.extensions, f.requested) == Unchanged(x.first.extensions, f.requested)
      && IdentityHashes(c, x.second) == IdentityHashes(c, x.first) && (EARLY_DATA in x.second.extensions <==> EARLY_DATA in x.first.extensions)
  {
    hide Happens, Remembered, MarshalClient, ClientRetry, IdentityHashes, Sealed, CookieExtension, Unchanged, Value16, U16, ParseCookie;
    Parts(c, x);
    RetryCarriesCookie(c, x);
    var f := Remembered(c, x);
    RememberedFacts(c, x);
    var cookie := Sealed(c, x.secrets.current, x.peer, f);
    var o := ParseOffer(c, x.first).value;
    SecondHello(x.first, o.shares, o.groups, f.suite, f.group, f.requested, cookie, x.share);
    SameIdentities(c, x.first, x.second);
    RoundTrip16(f.group);
  }

  lemma RememberedFacts(c: Around, x: Exchange)
    requires Happens(c, x)
    ensures var f := Remembered(c, x); var o := ParseOffer(c, x.first).value; var first := Transcript(CLIENT_HELLO, MarshalClient(x.first).value);
      && Shaped(f) && |f.hash| == c.size(f.suite) <= 64 && c.known(f.suite) && f.group in o.groups && (f.requested <==> f.group !in o.shares)
      && first.Ok? && f.hash == c.hash(f.suite, first.value) && f.seconds == CookieKeys.Seconds(x.issued)
  {
    hide Happens, MarshalClient, ParseOffer, Remember, Transcript;
    Parts(c, x);
    RememberFacts(c, x.config, MarshalClient(x.first).value, x.first, ParseOffer(c, x.first).value, x.issued);
  }

  /** The server, having kept nothing, accepts the second hello of a cookie less than a lifetime old, whatever keys rotated meanwhile,
      exactly when no early data was offered; it rebuilds the very retry it sent, and its transcript is the client's. */
  lemma StatelessRetry(c: Around, x: Exchange, ticks: seq<CookieKeys.Tick>, now: int)
    requires Happens(c, x)
    requires CookieKeys.Monotone(x.issued, ticks, now) && CookieKeys.Young(CookieKeys.Seconds(x.issued), CookieKeys.Seconds(now))
    ensures var second := MarshalClient(x.second).value;
      var r := Verify(c, CookieKeys.Run(x.secrets, ticks), x.config, x.peer, 1, second, now);
      (r.Ok? <==> EARLY_DATA !in x.first.extensions) &&
      (r.Ok? ==>
      && r.value.suite == x.retry.suite && Transcript(SERVER_HELLO, x.body) == Ok(r.value.retry)
      && Transcript(CLIENT_HELLO, MarshalClient(x.first).value).Ok? && Transcript(CLIENT_HELLO, second).Ok?
      && RetryTranscript(c, r.value.suite, r.value.firstHash, r.value.retry, Transcript(CLIENT_HELLO, second).value).Ok?
      && Spells(RetryTranscript(c, r.value.suite, r.value.firstHash, r.value.retry, Transcript(CLIENT_HELLO, second).value).value,
                c.hash(x.retry.suite, Transcript(CLIENT_HELLO, MarshalClient(x.first).value).value), x.body, second)
      && RetryTranscript(c, r.value.suite, r.value.firstHash, r.value.retry, Transcript(CLIENT_HELLO, second).value) ==
         ClientTranscript(c, x.retry.suite, Transcript(CLIENT_HELLO, MarshalClient(x.first).value).value,
                          Transcript(SERVER_HELLO, x.body).value, Transcript(CLIENT_HELLO, second).value))
  {
    hide Happens, ParseServer, MarshalServer, MarshalClient, ParseClient, ParseOffer, ClientRetry, IdentityHashes, Sealed,
         ParseCookie, Unchanged, Matches, OpenCookie, CookieKeys.Run, CookieKeys.Monotone, Issue, RetryBody, U24, Remember;
    Parts(c, x);
    var f := Remembered(c, x);
    var o2 := ParseOffer(c, x.second).value;
    RetryCarriesCookie(c, x);
    SecondOffer(c, x);
    RememberedFacts(c, x);
    ClientLength(x.second);
    ClientRoundTrip(x.second);
    CookieKeys.NotBefore(x.issued, ticks, now);
    CookieKeys.AgeCheck(x.issued, now);
    CookieKeys.KeyOutlivesCookie(x.secrets, x.issued, ticks, now);
    OpensSealed(c, CookieKeys.Run(x.secrets, ticks), x.secrets.current, x.peer, f);
    if EARLY_DATA in x.first.extensions {
      NoEarlyData(c, x.config, f, x.second, o2, CookieKeys.Seconds(now));
    } else {
      RetriedMatches(c, x.config, MarshalClient(x.first).value, x.first, ParseOffer(c, x.first).value, x.issued, x.second, o2, now);
      TranscriptSpells(c, f.suite, f.hash, x.body, MarshalClient(x.second).value);
    }
  }

  /** The transcript a client has after its second hello. */
  ghost function ClientSide(c: Around, x: Exchange): Result<seq<byte>>
    requires |x.first.random| == RANDOM && |x.second.random| == RANDOM
  {
    var first, second := MarshalClient(x.first), MarshalClient(x.second);
    if first.Err? || second.Err? then Err(Decode)
    else
      var m1, m2, m3 := Transcript(CLIENT_HELLO, first.value), Transcript(SERVER_HELLO, x.body), Transcript(CLIENT_HELLO, second.value);
      if m1.Err? || m2.Err? || m3.Err? then Err(HandshakeLimit) else ClientTranscript(c, x.retry.suite, m1.value, m2.value, m3.value)
  }

  lemma ClientSideSpells(c: Around, x: Exchange)
    requires Happens(c, x)
    ensures ClientSide(c, x).Ok? && MarshalClient(x.first).Ok? && MarshalClient(x.second).Ok? && Transcript(CLIENT_HELLO, MarshalClient(x.first).value).Ok?
    ensures Spells(ClientSide(c, x).value, c.hash(x.retry.suite, Transcript(CLIENT_HELLO, MarshalClient(x.first).value).value), x.body,
                   MarshalClient(x.second).value)
  {
    hide Happens, ParseServer, MarshalClient, ParseOffer, ClientRetry, Sealed, ParseCookie, Issue, RetryBody, U24, Remember, Spells;
    Parts(c, x);
    RetryCarriesCookie(c, x);
    RememberedFacts(c, x);
    ClientLength(x.second);
    TranscriptSpells(c, x.retry.suite, Remembered(c, x).hash, x.body, MarshalClient(x.second).value);
  }

  /** Two exchanges with the same transcript have the same hash of the first hello, the same retry and the same second hello. */
  lemma SameTranscriptSameExchange(c: Around, x: Exchange, y: Exchange)
    requires Happens(c, x) && Happens(c, y) && ClientSide(c, x) == ClientSide(c, y)
    ensures x.body == y.body && x.retry == y.retry && x.second == y.second
    ensures MarshalClient(x.first).Ok? && MarshalClient(y.first).Ok?
    ensures Transcript(CLIENT_HELLO, MarshalClient(x.first).value).Ok? && Transcript(CLIENT_HELLO, MarshalClient(y.first).value).Ok?
    ensures c.hash(x.retry.suite, Transcript(CLIENT_HELLO, MarshalClient(x.first).value).value) ==
            c.hash(y.retry.suite, Transcript(CLIENT_HELLO, MarshalClient(y.first).value).value)
  {
    hide Happens, Spells, Transcript, ClientSide, ParseServer, MarshalClient, ParseOffer, ClientRetry, Remember, Sealed, RetryBody;
    Parts(c, x);
    Parts(c, y);
    ClientSideSpells(c, x);
    ClientSideSpells(c, y);
    var t := ClientSide(c, x).value;
    var f, g := MarshalClient(x.first).value, MarshalClient(y.first).value;
    TranscriptsTellApart(t, c.hash(x.retry.suite, Transcript(CLIENT_HELLO, f).value), x.body, MarshalClient(x.second).value,
                         c.hash(y.retry.suite, Transcript(CLIENT_HELLO, g).value), y.body, MarshalClient(y.second).value);
    MarshalInjective(x.second, y.second);
  }

  // ----- an exchange goes through -----

  /** The second hello of a client that follows this retry. */
  function Followed(h: ClientHello, f: Fields, cookie: seq<byte>, share: seq<byte>): ClientHello {
    var e := h.extensions[COOKIE := CookieExtension(cookie)];
    h.(extensions := if f.requested then e[KEY_SHARE := share] else e)
  }

  /** The retry a server issues names its foremost common suite and group, asks for a share exactly when none was sent for that group,
      and is one that the client follows. */
  lemma RetryIsFollowed(c: Around, s: CookieKeys.Secrets, config: Config, peer: seq<byte>, h: ClientHello, o: Offer, now: int, share: seq<byte>)
    requires Lawful(c) && |h.random| == RANDOM && MarshalClient(h).Ok? && ParseOffer(c, h) == Ok(o) && SUPPORTED_VERSIONS in h.extensions
    requires Issue(c, s, config, peer, MarshalClient(h).value, h, o, now).Ok?
    ensures var body := Issue(c, s, config, peer, MarshalClient(h).value, h, o, now).value;
      var f := Remember(c, config, MarshalClient(h).value, h, o, now).value;
      && Chosen(config, h, o, f) && Shaped(f)
      && var cookie := Sealed(c, s.current, peer, f);
         && ParseServer(body) == Ok(RetryHello(f.suite, f.group, f.requested, cookie))
         && ClientRetry(h, false, o.shares, o.groups, ParseServer(body).value, share) == Ok(Followed(h, f, cookie, share))
  {
    hide MarshalServer, ParseServer, MarshalClient, ParseOffer, IdentityHashes, Sealed, ParseCookie, CookieExtension, ClientRetry, Remember, RetryHello, Chosen;
    var b := MarshalClient(h).value;
    RememberFacts(c, config, b, h, o, now);
    RememberChooses(c, config, b, h, o, now);
    var f := Remember(c, config, b, h, o, now).value;
    ClientLength(h);
    IdentitiesFit(c, h);
    CookieLength(c, s.current, peer, f);
    var cookie := Sealed(c, s.current, peer, f);
    CookieTravels(f.suite, f.group, f.requested, cookie);
    HasShare(c, h);
    RetryHelloHas(f.suite, f.group, f.requested, cookie);
    Follows(h, o, f, cookie, share);
  }

  /** Suite and group are the foremost common ones, and a share is asked for exactly when none was sent for the group. */
  ghost predicate Chosen(config: Config, h: ClientHello, o: Offer, f: Fields) {
    && (exists i: nat :: Foremost(config.suites, h.suites, i) && config.suites[i] == f.suite)
    && (exists i: nat :: Foremost(config.curves, o.groups, i) && config.curves[i] == f.group)
    && (f.requested <==> f.group !in o.shares)
  }

  lemma RememberChooses(c: Around, config: Config, body: seq<byte>, h: ClientHello, o: Offer, now: int)
    requires |h.random| == RANDOM && Remember(c, config, body, h, o, now).Ok?
    ensures Chosen(config, h, o, Remember(c, config, body, h, o, now).value)
  {
    hide IdentityHashes, Fingerprint, Transcript, Choose;
    ChosenForemost(config.suites, h.suites);
    ChosenForemost(config.curves, o.groups);
  }

  lemma ChosenForemost(preferences: seq<u16>, offered: seq<u16>)
    requires Choose(preferences, offered) != 0
    ensures exists i: nat :: Foremost(preferences, offered, i) && preferences[i] == Choose(preferences, offered)
  {
  }

  lemma HasShare(c: Around, h: ClientHello)
    requires ParseOffer(c, h).Ok?
    ensures KEY_SHARE in h.extensions
  {
  }

  lemma RetryHelloHas(suite: u16, group: u16, requested: bool, cookie: seq<byte>)
    ensures COOKIE in RetryHello(suite, group, requested, cookie).extensions
    ensures RetryHello(suite, group, requested, cookie).extensions[COOKIE] == CookieExtension(cookie)
  {
  }

  lemma Follows(h: ClientHello, o: Offer, f: Fields, cookie: seq<byte>, share: seq<byte>)
    requires SUPPORTED_VERSIONS in h.extensions && KEY_SHARE in h.extensions && f.group in o.groups && (f.requested <==> f.group !in o.shares)
    requires ParseCookie(CookieExtension(cookie)).Ok?
    ensures ClientRetry(h, false, o.shares, o.groups, RetryHello(f.suite, f.group, f.requested, cookie), share) == Ok(Followed(h, f, cookie, share))
  {
    hide ParseCookie, CookieExtension, Value16, U16;
    RoundTrip16(f.group);
    var r := RetryHello(f.suite, f.group, f.requested, cookie).extensions;
    assert r[COOKIE] == CookieExtension(cookie);
  }

  lemma NoEarlyData(c: Around, config: Config, f: Fields, h: ClientHello, o: Offer, seconds: int)
    requires Lawful(c) && |h.random| == RANDOM && |f.identities| % SHA == 0 && EARLY_DATA in h.extensions
    ensures !Matches(c, config, f, h, o, seconds)
  {
    hide Fingerprint, IdentityHashes, Identities.Chunks, Identities.Greedy;
  }

  // ----- only retries are accepted -----

  /** No hash input of the one list collides with one of the other. */
  ghost predicate NoCollision(c: Around, a: seq<seq<byte>>, b: seq<seq<byte>>) {
    forall x, y :: x in a && y in b && c.sha(x) == c.sha(y) ==> x == y
  }

  /** What a hello has hashed into its cookie: its unchanging part, and its identities. */
  function Hashed(h: ClientHello, requested: bool): seq<seq<byte>>
    requires |h.random| == RANDOM
  {
    var wire := MarshalClient(h.(extensions := Unchanged(h.extensions, requested)));
    (if wire.Ok? then [wire.value] else []) + Offered(h)
  }

  lemma MarshalInjective(a: ClientHello, b: ClientHello)
    requires |a.random| == RANDOM && |b.random| == RANDOM && MarshalClient(a).Ok? && MarshalClient(a) == MarshalClient(b)
    ensures a == b
  {
    hide MarshalClient, ParseClient;
    ClientRoundTrip(a);
    ClientRoundTrip(b);
  }

  /** Equal fingerprints mean equal hellos, up to the extensions that may change. */
  lemma SameFingerprint(c: Around, a: ClientHello, b: ClientHello, requested: bool)
    requires |a.random| == RANDOM && |b.random| == RANDOM && NoCollision(c, Hashed(a, requested), Hashed(b, requested))
    requires Fingerprint(c, a, requested).Ok? && Fingerprint(c, a, requested) == Fingerprint(c, b, requested)
    ensures a.(extensions := b.extensions) == b && Unchanged(a.extensions, requested) == Unchanged(b.extensions, requested)
  {
    hide MarshalClient, Unchanged, Offered;
    assert MarshalClient(a.(extensions := Unchanged(a.extensions, requested))).value in Hashed(a, requested);
    assert MarshalClient(b.(extensions := Unchanged(b.extensions, requested))).value in Hashed(b, requested);
    MarshalInjective(a.(extensions := Unchanged(a.extensions, requested)), b.(extensions := Unchanged(b.extensions, requested)));
  }

  /** The pre-shared-key identities of a hello. */
  function Offered(h: ClientHello): seq<seq<byte>> {
    if PRE_SHARED_KEY in h.extensions then Identities.Listed(Identities.IdentityList(h.extensions[PRE_SHARED_KEY])) else []
  }

  lemma {:induction false} ChunkOfHashes(c: Around, identities: seq<seq<byte>>, i: nat)
    requires Lawful(c) && i < |identities|
    ensures |Hashes(c, identities)| % SHA == 0
    ensures |Identities.Chunks(Hashes(c, identities))| == |identities| && Identities.Chunks(Hashes(c, identities))[i] == c.sha(identities[i])
  {
    HashesShape(c, identities);
    HashesShape(c, identities[1..]);
    var rest := Hashes(c, identities[1..]);
    assert Hashes(c, identities)[..SHA] == c.sha(identities[0]) && Hashes(c, identities)[SHA..] == rest;
    if i > 0 {
      ChunkOfHashes(c, identities[1..], i - 1);
    } else if |identities| > 1 {
      ChunkOfHashes(c, identities[1..], 0);
    }
  }

  /** Leaving out hashes is leaving out identities. */
  lemma SubsequenceOfHashes(c: Around, a: seq<seq<byte>>, b: seq<seq<byte>>)
    requires Lawful(c) && NoCollision(c, a, b) && |Hashes(c, a)| % SHA == 0 && |Hashes(c, b)| % SHA == 0
    requires Identities.Subsequence(Identities.Chunks(Hashes(c, a)), Identities.Chunks(Hashes(c, b)))
    ensures Identities.Subsequence(a, b)
  {
    var at :| Identities.Embeds(Identities.Chunks(Hashes(c, a)), Identities.Chunks(Hashes(c, b)), at);
    ChunkCount(c, a);
    ChunkCount(c, b);
    forall i | 0 <= i < |b| ensures at[i] < |a| && a[at[i]] == b[i] {
      ChunkOfHashes(c, a, at[i]);
      ChunkOfHashes(c, b, i);
      assert a[at[i]] in a && b[i] in b;
    }
    assert Identities.Embeds(a, b, at);
  }

  lemma ChunkCount(c: Around, a: seq<seq<byte>>)
    requires Lawful(c)
    ensures |Hashes(c, a)| % SHA == 0 && |Identities.Chunks(Hashes(c, a))| == |a|
  {
    if a == [] { assert Hashes(c, a) == []; } else { ChunkOfHashes(c, a, 0); }
  }

  /** Where their hashes do not collide, a hello is accepted under a cookie only as a retry of the hello it was issued for:
      same but for the cookie, padding, a requested key share, and identities left out; in time, and without early data. */
  lemma VerifiedIsRetry(c: Around, s: CookieKeys.Secrets, key: CookieKeys.Key, config: Config, peer: seq<byte>, sequence: nat, body: seq<byte>, now: int,
                        firstBody: seq<byte>, first: ClientHello, o1: Offer, issued: int)
    requires Lawful(c) && |first.random| == RANDOM && Remember(c, config, firstBody, first, o1, issued).Ok?
    requires Verify(c, s, config, peer, sequence, body, now).Ok? && CookieKeys.Holds(s, key)
    requires var f := Remember(c, config, firstBody, first, o1, issued).value;
      Shaped(f) && ParseClient(body).Ok? && ParseOffer(c, ParseClient(body).value).Ok? &&
      ParseOffer(c, ParseClient(body).value).value.cookie == Sealed(c, key, peer, f) &&
      NoCollision(c, Hashed(first, f.requested), Hashed(ParseClient(body).value, f.requested))
    ensures var h := ParseClient(body).value; var o := ParseOffer(c, h).value;
      var v := Verify(c, s, config, peer, sequence, body, now).value;
      var f := Remember(c, config, firstBody, first, o1, issued).value;
      && sequence == 1 && first.(extensions := h.extensions) == h
      && Unchanged(first.extensions, f.requested) == Unchanged(h.extensions, f.requested)
      && Identities.Subsequence(Offered(first), Offered(h))
      && EARLY_DATA !in h.extensions && f.group in o.groups && f.group in o.shares && (f.requested ==> |o.shares| == 1)
      && CookieKeys.Young(CookieKeys.Seconds(issued), CookieKeys.Seconds(now))
      && v.suite == f.suite && v.group == f.group && v.firstHash == f.hash
  {
    hide ParseClient, ParseOffer, Sealed, RetryBody, Remember, Fingerprint, Unchanged, OpenCookie, Hashes, Hashed, NoCollision;
    var h := ParseClient(body).value;
    var f := Remember(c, config, firstBody, first, o1, issued).value;
    OpensSealed(c, s, key, peer, f);
    RememberedPrint(c, config, firstBody, first, o1, issued);
    SameFingerprint(c, first, h, f.requested);
    IdentityShape(c, first);
    IdentityShape(c, h);
    OfferedHashes(c, first);
    OfferedHashes(c, h);
    assert NoCollision(c, Offered(first), Offered(h)) by { FewerCollisions(c, first, h, f.requested); }
    Identities.GreedyDecides(Identities.Chunks(IdentityHashes(c, first)), Identities.Chunks(IdentityHashes(c, h)));
    SubsequenceOfHashes(c, Offered(first), Offered(h));
  }

  lemma FewerCollisions(c: Around, a: ClientHello, b: ClientHello, requested: bool)
    requires |a.random| == RANDOM && |b.random| == RANDOM && NoCollision(c, Hashed(a, requested), Hashed(b, requested))
    ensures NoCollision(c, Offered(a), Offered(b))
  {
    hide MarshalClient, Offered;
    forall x, y | x in Offered(a) && y in Offered(b) && c.sha(x) == c.sha(y) ensures x == y {
      assert x in Hashed(a, requested) && y in Hashed(b, requested);
    }
  }

  lemma OfferedHashes(c: Around, h: ClientHello)
    ensures IdentityHashes(c, h) == Hashes(c, Offered(h))
  {
  }

  lemma RememberedPrint(c: Around, config: Config, body: seq<byte>, h: ClientHello, o: Offer, now: int)
    requires |h.random| == RANDOM && Remember(c, config, body, h, o, now).Ok?
    ensures var f := Remember(c, config, body, h, o, now).value;
      Fingerprint(c, h, f.requested) == Ok(f.fingerprint) && f.identities == IdentityHashes(c, h) && f.seconds == CookieKeys.Seconds(now)
  {
    hide Fingerprint, IdentityHashes, Transcript;
  }

  // ----- and every retry is -----

  /** A hello that keeps to the one the cookie was issued for, but for the cookie, padding, early data, a requested key share,
      and identities left out; in time, without early data, and with a share for the group. */
  ghost predicate RetryOf(first: ClientHello, f: Fields, issued: int, h: ClientHello, o: Offer, now: int) {
    && first.(extensions := h.extensions) == h
    && Unchanged(first.extensions, f.requested) == Unchanged(h.extensions, f.requested)
    && Identities.Subsequence(Offered(first), Offered(h))
    && EARLY_DATA !in h.extensions && f.group in o.groups && f.group in o.shares && (f.requested ==> |o.shares| == 1)
    && CookieKeys.Young(CookieKeys.Seconds(issued), CookieKeys.Seconds(now))
  }

  /** Leaving out identities is leaving out hashes. */
  lemma HashesOfSubsequence(c: Around, a: seq<seq<byte>>, b: seq<seq<byte>>)
    requires Lawful(c) && Identities.Subsequence(a, b)
    ensures |Hashes(c, a)| % SHA == 0 && |Hashes(c, b)| % SHA == 0
    ensures Identities.Subsequence(Identities.Chunks(Hashes(c, a)), Identities.Chunks(Hashes(c, b)))
  {
    var at :| Identities.Embeds(a, b, at);
    ChunkCount(c, a);
    ChunkCount(c, b);
    forall i | 0 <= i < |b| ensures at[i] < |a| && Identities.Chunks(Hashes(c, a))[at[i]] == Identities.Chunks(Hashes(c, b))[i] {
      ChunkOfHashes(c, a, at[i]);
      ChunkOfHashes(c, b, i);
    }
    assert Identities.Embeds(Identities.Chunks(Hashes(c, a)), Identities.Chunks(Hashes(c, b)), at);
  }

  lemma RetryMatches(c: Around, config: Config, body: seq<byte>, first: ClientHello, o1: Offer, issued: int, h: ClientHello, o: Offer, now: int)
    requires Lawful(c) && |first.random| == RANDOM && Remember(c, config, body, first, o1, issued).Ok?
    requires RetryOf(first, Remember(c, config, body, first, o1, issued).value, issued, h, o, now)
    ensures var f := Remember(c, config, body, first, o1, issued).value;
      |f.identities| % SHA == 0 && Matches(c, config, f, h, o, CookieKeys.Seconds(now))
  {
    var f := Remember(c, config, body, first, o1, issued).value;
    IdentityShape(c, first);
    IdentityShape(c, h);
    OfferedHashes(c, first);
    OfferedHashes(c, h);
    HashesOfSubsequence(c, Offered(first), Offered(h));
    Identities.GreedyDecides(Identities.Chunks(IdentityHashes(c, first)), Identities.Chunks(IdentityHashes(c, h)));
    hide IdentityHashes, MarshalClient, Identities.Chunks, Identities.Greedy, Hashes, Offered, Identities.Subsequence;
  }

  /** Where hashes do not collide, a hello that brings back a cookie is accepted exactly when it is a retry of the hello that
      the cookie was issued for. */
  lemma AcceptedExactly(c: Around, issuer: CookieKeys.Secrets, s: CookieKeys.Secrets, config: Config, peer: seq<byte>,
                        firstBody: seq<byte>, first: ClientHello, o1: Offer, issued: int, sequence: nat, body: seq<byte>, now: int)
    requires Lawful(c) && |first.random| == RANDOM && Issue(c, issuer, config, peer, firstBody, first, o1, issued).Ok?
    requires CookieKeys.Holds(s, issuer.current) && ParseClient(body).Ok? && ParseOffer(c, ParseClient(body).value).Ok?
    requires var f := Remember(c, config, firstBody, first, o1, issued);
      f.Ok? && Shaped(f.value) &&
      ParseOffer(c, ParseClient(body).value).value.cookie == Sealed(c, issuer.current, peer, f.value) &&
      NoCollision(c, Hashed(first, f.value.requested), Hashed(ParseClient(body).value, f.value.requested))
    ensures var f := Remember(c, config, firstBody, first, o1, issued).value; var h := ParseClient(body).value;
      Verify(c, s, config, peer, sequence, body, now).Ok? <==>
      sequence == 1 && |body| <= MAX_CLIENT_HELLO && RetryOf(first, f, issued, h, ParseOffer(c, h).value, now)
  {
    hide ParseClient, ParseOffer, Sealed, Remember, Matches, OpenCookie, Hashed, NoCollision, MarshalServer, U24, RetryOf;
    var h := ParseClient(body).value;
    var f := Remember(c, config, firstBody, first, o1, issued).value;
    if Verify(c, s, config, peer, sequence, body, now).Ok? {
      VerifiedIsRetry(c, s, issuer.current, config, peer, sequence, body, now, firstBody, first, o1, issued);
      IsRetry(first, f, issued, h, ParseOffer(c, h).value, now);
    } else if sequence == 1 && |body| <= MAX_CLIENT_HELLO && RetryOf(first, f, issued, h, ParseOffer(c, h).value, now) {
      OpensSealed(c, s, issuer.current, peer, f);
      RetryMatches(c, config, firstBody, first, o1, issued, h, ParseOffer(c, h).value, now);
      RememberFacts(c, config, firstBody, first, o1, issued);
      InTime(first, f, issued, h, ParseOffer(c, h).value, now);
      ServerLength(RetryHello(f.suite, f.group, f.requested, Sealed(c, issuer.current, peer, f)));
      assert false;
    }
  }

  lemma IsRetry(first: ClientHello, f: Fields, issued: int, h: ClientHello, o: Offer, now: int)
    requires first.(extensions := h.extensions) == h && Unchanged(first.extensions, f.requested) == Unchanged(h.extensions, f.requested)
    requires Identities.Subsequence(Offered(first), Offered(h))
    requires EARLY_DATA !in h.extensions && f.group in o.groups && f.group in o.shares && (f.requested ==> |o.shares| == 1)
    requires CookieKeys.Young(CookieKeys.Seconds(issued), CookieKeys.Seconds(now))
    ensures RetryOf(first, f, issued, h, o, now)
  {
  }

  lemma InTime(first: ClientHello, f: Fields, issued: int, h: ClientHello, o: Offer, now: int)
    requires RetryOf(first, f, issued, h, o, now)
    ensures CookieKeys.Seconds(issued) <= CookieKeys.Seconds(now)
  {
  }
}
