/** Which first ClientHellos a server answers with a retry. */
module RetryIssue {
  import opened Wire
  import opened Hello
  import opened HelloForms
  import opened Retry
  import CookieKeys
  import Identities

  lemma {:induction false} SameBodies(d: Extensions, e: Extensions, ids: seq<u16>)
    requires forall id :: id in ids ==> id in d && id in e && d[id] == e[id]
    ensures Weight(d, ids) == Weight(e, ids)
  {
    if ids != [] { SameBodies(d, e, ids[1..]); }
  }

  /** Some of a hello's extensions, two of them at least, can be written by themselves. */
  lemma PartIsWritable(e: Extensions, d: Extensions, x: u16, y: u16)
    requires MarshalExtensions(e).Ok? && (forall id :: id in d ==> id in e && d[id] == e[id]) && x in d && y in d && x != y
    ensures MarshalExtensions(d).Ok? && |MarshalExtensions(d).value| >= 8
  {
    MarshalWeight(e);
    MarshalWeight(d);
    OrderCovers(e);
    OrderCovers(d);
    hide MarshalExtensions, Order, Ordered;
    SameBodies(d, e, Order(d));
    FewerWeighLess(e, Order(d), Order(e));
    FewerWeighLess(d, [x, y], Order(d));
    assert [x, y][1..] == [y] && [y][1..] == [];
  }

  lemma FingerprintWritable(c: Around, h: ClientHello, requested: bool)
    requires |h.random| == RANDOM && MarshalClient(h).Ok? && SUPPORTED_VERSIONS in h.extensions && SUPPORTED_GROUPS in h.extensions
    ensures Fingerprint(c, h, requested).Ok?
  {
    PartIsWritable(h.extensions, Unchanged(h.extensions, requested), SUPPORTED_VERSIONS, SUPPORTED_GROUPS);
    hide MarshalExtensions;
  }

  function RetryIds(requested: bool): seq<u16> {
    if requested then [SUPPORTED_VERSIONS, COOKIE, KEY_SHARE] else [SUPPORTED_VERSIONS, COOKIE]
  }

  lemma RetryWeight(suite: u16, group: u16, requested: bool, cookie: seq<byte>)
    requires |cookie| < 65000
    ensures var e, ids := RetryHello(suite, group, requested, cookie).extensions, RetryIds(requested);
      && Unique(ids) && (forall id :: id in ids <==> id in e) && (forall id :: id in e ==> |e[id]| <= |cookie| + 2)
      && Weight(e, ids) <= |cookie| + 18
  {
    var e, ids := RetryHello(suite, group, requested, cookie).extensions, RetryIds(requested);
    assert |CookieExtension(cookie)| == 2 + |cookie|;
    hide U16, CookieExtension;
    assert e[SUPPORTED_VERSIONS] == [0xfe, 0xfc] && e[COOKIE] == CookieExtension(cookie) && (requested ==> |e[KEY_SHARE]| == 2);
    hide RetryHello;
    assert ids[1..] == (if requested then [COOKIE, KEY_SHARE] else [COOKIE]);
    assert [COOKIE, KEY_SHARE][1..] == [KEY_SHARE] && [COOKIE][1..] == [] && [KEY_SHARE][1..] == [];
    assert requested ==> Weight(e, [KEY_SHARE]) == 6;
    assert Weight(e, ids[1..]) <= |cookie| + 12;
  }

  lemma RetryWritable(suite: u16, group: u16, requested: bool, cookie: seq<byte>)
    requires |cookie| < 65000
    ensures RetryBody(suite, group, requested, cookie).Ok?
  {
    var h := RetryHello(suite, group, requested, cookie);
    var e := h.extensions;
    assert |h.sessionId| == 0;
    RetryWeight(suite, group, requested, cookie);
    MarshalWeight(e);
    OrderCovers(e);
    hide MarshalExtensions, Order, Ordered, RetryHello, RetryIds, Weight, Unique;
    SameWeight(e, RetryIds(requested), Order(e));
  }

  /** The foremost common entry is one the server can use. */
  ghost predicate Shares(preferences: seq<u16>, offered: seq<u16>, known: u16 -> bool) {
    exists i: nat :: Foremost(preferences, offered, i) && preferences[i] != 0 && known(preferences[i])
  }

  lemma ChooseShares(preferences: seq<u16>, offered: seq<u16>, known: u16 -> bool)
    ensures Shares(preferences, offered, known) <==> Choose(preferences, offered) != 0 && known(Choose(preferences, offered))
  {
    var x := Choose(preferences, offered);
    if Shares(preferences, offered, known) {
      var i: nat :| Foremost(preferences, offered, i) && preferences[i] != 0 && known(preferences[i]);
      if j: nat :| j < |preferences| && preferences[j] == x && Foremost(preferences, offered, j) { assert i == j; }
    }
  }

  /** A hello that can be read is answered exactly when its sender and the server have a suite and a group in common that the server prefers
      to all other common ones and knows, and the clock is one a cookie can hold; whatever else it offers. */
  lemma IssuedExactly(c: Around, s: CookieKeys.Secrets, config: Config, peer: seq<byte>, h: ClientHello, o: Offer, now: int)
    requires Lawful(c) && |h.random| == RANDOM && MarshalClient(h).Ok? && ParseOffer(c, h) == Ok(o) && SUPPORTED_VERSIONS in h.extensions
    ensures Issue(c, s, config, peer, MarshalClient(h).value, h, o, now).Ok? <==>
      && 0 <= now < 1000 * 0x1_0000_0000_0000_0000
      && Shares(config.suites, h.suites, c.known) && Shares(config.curves, o.groups, x => true)
  {
    ChooseShares(config.suites, h.suites, c.known);
    ChooseShares(config.curves, o.groups, x => true);
    HasGroups(c, h);
    ClientLength(h);
    IdentitiesFit(c, h);
    var body := MarshalClient(h).value;
    hide MarshalClient, ParseOffer, IdentityHashes, Fingerprint, Choose, Shares, RetryBody, Sealed;
    var group := Choose(config.curves, o.groups);
    FingerprintWritable(c, h, group !in o.shares);
    var f := Remember(c, config, body, h, o, now);
    if f.Ok? {
      RememberShape(c, config, body, h, o, now);
      CookieLength(c, s.current, peer, f.value);
      RetryWritable(f.value.suite, f.value.group, f.value.requested, Sealed(c, s.current, peer, f.value));
    }
  }

  lemma HasGroups(c: Around, h: ClientHello)
    requires ParseOffer(c, h).Ok?
    ensures SUPPORTED_GROUPS in h.extensions
  {
  }
}
