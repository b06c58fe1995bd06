/** One retry from end to end: the premises of a whole exchange can all be met. */
module RetryRun {
  import opened Wire
  import opened Hello
  import opened Retry
  import CookieKeys
  import Identities

  const SUITE: u16 := 0x1301
  const GROUP: u16 := 29

  function Zeros(): seq<byte> { seq(32, _ => 0) }

  function Plain(): Around {
    Around(_ => Zeros(), (_, _, _) => Zeros(), (_, _) => Zeros(), _ => 32, _ => true, _ => [GROUP], _ => {GROUP}, _ => true)
  }

  function Settings(): Config { Config([SUITE], [GROUP]) }

  function Keys(): CookieKeys.Secrets { CookieKeys.Secrets([1], [1], Some(0)) }

  function Opening(): ClientHello {
    ClientHello(Zeros(), [], [SUITE], map[SUPPORTED_GROUPS := [], SUPPORTED_VERSIONS := [], KEY_SHARE := []])
  }

  // ----- small extensions can always be written -----

  lemma {:induction false} WrittenLength(e: Extensions, ids: seq<u16>)
    requires forall id :: id in ids ==> id in e && |e[id]| <= 1000
    ensures 4 * |ids| <= |Written(e, ids)| <= 1004 * |ids|
  {
    if ids != [] { WrittenLength(e, ids[1..]); }
  }

  lemma {:induction false} SortedLength(ids: set<u16>)
    ensures |Sorted(ids)| == |ids|
    decreases |ids|
  {
    if ids != {} {
      var m := Sorted(ids)[0];
      SortedLength(ids - {m});
      assert ids == (ids - {m}) + {m};
    }
  }

  lemma OrderLength(e: Extensions)
    ensures |Order(e)| == |e.Keys|
  {
    SortedLength(e.Keys - {PRE_SHARED_KEY});
    if PRE_SHARED_KEY in e { assert e.Keys == (e.Keys - {PRE_SHARED_KEY}) + {PRE_SHARED_KEY}; } else { assert e.Keys - {PRE_SHARED_KEY} == e.Keys; }
  }

  lemma Writable(e: Extensions)
    requires |e.Keys| <= 8 && forall id :: id in e ==> |e[id]| <= 1000
    ensures MarshalExtensions(e).Ok? && 4 * |e.Keys| <= |MarshalExtensions(e).value|
  {
    OrderLength(e);
    OrderCovers(e);
    hide Order, Written, Unique, Ordered;
    WrittenLength(e, Order(e));
  }

  lemma HelloWritable(h: ClientHello)
    requires |h.random| == RANDOM && h.sessionId == [] && |h.suites| == 1
    requires 2 <= |h.extensions.Keys| <= 8 && forall id :: id in h.extensions ==> |h.extensions[id]| <= 1000
    ensures MarshalClient(h).Ok?
  {
    Writable(h.extensions);
    hide MarshalExtensions;
  }

  // ----- the exchange -----

  lemma Offers(h: ClientHello)
    requires SUPPORTED_GROUPS in h.extensions && KEY_SHARE in h.extensions && PRE_SHARED_KEY !in h.extensions && EARLY_DATA !in h.extensions
    requires COOKIE in h.extensions ==> ParseCookie(h.extensions[COOKIE]).Ok?
    ensures ParseOffer(Plain(), h).Ok?
    ensures ParseOffer(Plain(), h).value.groups == [GROUP] && ParseOffer(Plain(), h).value.shares == {GROUP}
  {
    hide ParseCookie;
  }

  lemma IsLawful()
    ensures Lawful(Plain())
  {
  }

  lemma ThreeKeys()
    ensures |Opening().extensions.Keys| == 3 && Unchanged(Opening().extensions, false) == Opening().extensions
  {
    assert Opening().extensions.Keys == {SUPPORTED_GROUPS, SUPPORTED_VERSIONS, KEY_SHARE};
  }

  lemma Remembers()
    ensures Lawful(Plain()) && MarshalClient(Opening()).Ok? && ParseOffer(Plain(), Opening()).Ok?
    ensures Remember(Plain(), Settings(), MarshalClient(Opening()).value, Opening(), ParseOffer(Plain(), Opening()).value, 0).Ok?
    ensures var f := Remember(Plain(), Settings(), MarshalClient(Opening()).value, Opening(), ParseOffer(Plain(), Opening()).value, 0).value;
      !f.requested && f.identities == [] && |f.hash| == 32 && f.suite == SUITE && f.group == GROUP
  {
    hide MarshalClient, Unchanged;
    IsLawful();
    ThreeKeys();
    HelloWritable(Opening());
    Offers(Opening());
    ClientLength(Opening());
  }

  lemma RetryWritable(suite: u16, cookie: seq<byte>)
    requires 0 < |cookie| <= 998
    ensures RetryBody(suite, GROUP, false, cookie).Ok? && ParseCookie(CookieExtension(cookie)) == Ok(cookie)
  {
    var h := RetryHello(suite, GROUP, false, cookie);
    assert h.extensions.Keys == {SUPPORTED_VERSIONS, COOKIE};
    assert U16(|cookie|) + cookie + [] == U16(|cookie|) + cookie;
    ReadsVector16(cookie, []);
    Writable(h.extensions);
    hide MarshalExtensions, U16;
  }

  /** An exchange in which the client only has to bring the cookie back. */
  lemma RetryHappens() returns (x: Exchange)
    ensures Happens(Plain(), x) && EARLY_DATA !in x.first.extensions
  {
    hide MarshalClient, MarshalServer, ParseServer, ParseOffer, Remember, Sealed, CookieExtension, ParseCookie;
    var c, h := Plain(), Opening();
    Remembers();
    var body, o := MarshalClient(h).value, ParseOffer(c, h).value;
    RememberShape(c, Settings(), body, h, o, 0);
    var f := Remember(c, Settings(), body, h, o, 0).value;
    var cookie := Sealed(c, Keys().current, [], f);
    CookieLength(c, Keys().current, [], f);
    RetryWritable(SUITE, cookie);
    var hrr := RetryHello(SUITE, GROUP, false, cookie);
    ServerRoundTrip(hrr);
    Brings(cookie);
    x := Exchange(Settings(), [], Keys(), h, 0, RetryBody(SUITE, GROUP, false, cookie).value, hrr, [], Again(cookie));
  }

  function Again(cookie: seq<byte>): ClientHello {
    Opening().(extensions := Opening().extensions[COOKIE := CookieExtension(cookie)])
  }

  lemma FourKeys(cookie: seq<byte>)
    requires |cookie| <= 998
    ensures |Again(cookie).extensions.Keys| == 4 && forall id :: id in Again(cookie).extensions ==> |Again(cookie).extensions[id]| <= 1000
  {
    assert Again(cookie).extensions.Keys == {SUPPORTED_GROUPS, SUPPORTED_VERSIONS, KEY_SHARE, COOKIE};
    assert |CookieExtension(cookie)| <= 1000;
  }

  lemma Answers(cookie: seq<byte>)
    requires ParseCookie(CookieExtension(cookie)).Ok?
    ensures KEY_SHARE !in RetryHello(SUITE, GROUP, false, cookie).extensions
    ensures ClientRetry(Opening(), false, {GROUP}, [GROUP], RetryHello(SUITE, GROUP, false, cookie), []) == Ok(Again(cookie))
  {
    hide ParseCookie, CookieExtension;
    var r := RetryHello(SUITE, GROUP, false, cookie).extensions;
    assert r == map[SUPPORTED_VERSIONS := [0xfe, 0xfc], COOKIE := CookieExtension(cookie)];
  }

  lemma Brings(cookie: seq<byte>)
    requires 0 < |cookie| <= 998 && ParseCookie(CookieExtension(cookie)) == Ok(cookie)
    ensures ClientRetry(Opening(), false, {GROUP}, [GROUP], RetryHello(SUITE, GROUP, false, cookie), []) == Ok(Again(cookie))
    ensures MarshalClient(Again(cookie)).Ok? && ParseOffer(Plain(), Again(cookie)).Ok? && KEY_SHARE !in RetryHello(SUITE, GROUP, false, cookie).extensions
    ensures ParseOffer(Plain(), Opening()).Ok? && ParseOffer(Plain(), Opening()).value.shares == {GROUP}
    ensures ParseOffer(Plain(), Opening()).value.groups == [GROUP]
  {
    hide ParseCookie, CookieExtension, MarshalClient, ClientRetry, ParseOffer, RetryHello;
    Answers(cookie);
    FourKeys(cookie);
    HelloWritable(Again(cookie));
    Offers(Again(cookie));
    Offers(Opening());
  }
}
