/** Pre-shared-key identities of a ClientHello, as a retry cookie remembers them. */
module Identities {
  import opened Wire

  const SHA := 32

  // ----- subsequences of hashes -----

  /** b can be had from a by leaving entries out. */
  ghost predicate Subsequence<T(!new)>(a: seq<T>, b: seq<T>) {
    exists at: seq<nat> :: Embeds(a, b, at)
  }

  /** The entries of b stand in a at these ascending places. */
  ghost predicate Embeds<T>(a: seq<T>, b: seq<T>, at: seq<nat>) {
    && |at| == |b| && (forall i :: 0 <= i < |b| ==> at[i] < |a| && a[at[i]] == b[i])
    && forall i, j :: 0 <= i < j < |b| ==> at[i] < at[j]
  }

  /** Matches each entry at its first chance. */
  predicate Greedy<T(==)>(a: seq<T>, b: seq<T>)
    decreases |a|
  {
    if b == [] then true else if a == [] then false
    else if a[0] == b[0] then Greedy(a[1..], b[1..]) else Greedy(a[1..], b)
  }

  function Shifted(at: seq<nat>, n: int): (r: seq<nat>)
    requires forall i :: 0 <= i < |at| ==> at[i] + n >= 0
    ensures |r| == |at| && forall i :: 0 <= i < |at| ==> r[i] == at[i] + n
  {
    seq(|at|, i requires 0 <= i < |at| => at[i] + n)
  }

  lemma {:induction false} GreedyFinds<T>(a: seq<T>, b: seq<T>) returns (at: seq<nat>)
    requires Greedy(a, b)
    ensures Embeds(a, b, at)
    decreases |a|
  {
    if b == [] {
      at := [];
    } else if a[0] == b[0] {
      var later := GreedyFinds(a[1..], b[1..]);
      at := [0] + Shifted(later, 1);
    } else {
      var later := GreedyFinds(a[1..], b);
      at := Shifted(later, 1);
    }
  }

  lemma {:induction false} GreedyMisses<T>(a: seq<T>, b: seq<T>, at: seq<nat>)
    requires Embeds(a, b, at)
    ensures Greedy(a, b)
    decreases |a|
  {
    if b != [] {
      assert at[0] < |a|;
      if a[0] == b[0] {
        GreedyMisses(a[1..], b[1..], Shifted(at[1..], -1));
      } else {
        GreedyMisses(a[1..], b, Shifted(at, -1));
      }
    }
  }

  lemma GreedyDecides<T(!new)>(a: seq<T>, b: seq<T>)
    ensures Greedy(a, b) <==> Subsequence(a, b)
  {
    if Greedy(a, b) { var at := GreedyFinds(a, b); }
    if Subsequence(a, b) {
      var at :| Embeds(a, b, at);
      GreedyMisses(a, b, at);
    }
  }

  function Chunks(b: seq<byte>): seq<seq<byte>>
    requires |b| % SHA == 0
    decreases |b|
  {
    if b == [] then [] else [b[..SHA]] + Chunks(b[SHA..])
  }

  /** Decides whether the second list of hashes leaves entries out of the first and changes nothing else. */
  method IdentitySubset(first: seq<byte>, second: seq<byte>) returns (ok: bool)
    requires |first| % SHA == 0 && |second| % SHA == 0
    ensures ok <==> Subsequence(Chunks(first), Chunks(second))
  {
    GreedyDecides(Chunks(first), Chunks(second));
    hide Subsequence;
    var a, b := first, second;
    while b != []
      invariant |a| % SHA == 0 && |b| % SHA == 0
      invariant Greedy(Chunks(first), Chunks(second)) <==> Greedy(Chunks(a), Chunks(b))
      decreases |b|
    {
      var found := false;
      while a != [] && !found
        invariant |a| % SHA == 0
        invariant Greedy(Chunks(first), Chunks(second)) <==> Greedy(Chunks(a), if found then Chunks(b[SHA..]) else Chunks(b))
        decreases |a|
      {
        found := a[..SHA] == b[..SHA];
        assert Chunks(a)[1..] == Chunks(a[SHA..]) && Chunks(b)[1..] == Chunks(b[SHA..]);
        a := a[SHA..];
      }
      if !found { return false; }
      b := b[SHA..];
    }
    ok := true;
  }

  // ----- reading a pre_shared_key extension -----

  function Weight(r: Reader): nat { if r.failed then 0 else |r.data| + 1 }

  /** The identities of a list, each followed by a ticket age. */
  function Listed(r: Reader): seq<seq<byte>>
    decreases Weight(r)
  {
    if r.data == [] || r.failed then []
    else
      var (identity, r1) := r.Vector16();
      [identity] + Listed(r1.Take(4).1)
  }

  /** The list was read to its end without an empty identity. */
  predicate WellListed(r: Reader)
    decreases Weight(r)
  {
    if r.failed then false else if r.data == [] then true
    else
      var (identity, r1) := r.Vector16();
      identity != [] && WellListed(r1.Take(4).1)
  }

  function Binders(r: Reader): Option<nat>
    decreases Weight(r)
  {
    if r.failed then None else if r.data == [] then Some(0)
    else
      var (binder, r1) := r.Vector8();
      var rest := Binders(r1);
      if |binder| < 32 || rest.None? then None else Some(1 + rest.value)
  }

  function IdentityList(data: seq<byte>): Reader { Reader(Reader(data, false).Vector16().0, false) }

  /** A well-formed offer: identities, and as many binders of at least 32 bytes. */
  predicate ValidOffer(data: seq<byte>) {
    var (identities, r1) := Reader(data, false).Vector16();
    var (binders, r2) := r1.Vector16();
    && r2.Done() && identities != [] && WellListed(Reader(identities, false))
    && Binders(Reader(binders, false)) == Some(|Listed(Reader(identities, false))|)
  }

  lemma {:induction false} IdentityBytes(r: Reader)
    requires WellListed(r)
    ensures 7 * |Listed(r)| <= |r.data|
    decreases Weight(r)
  {
    if r.data != [] {
      var (identity, r1) := r.Vector16();
      IdentityBytes(r1.Take(4).1);
    }
  }

  lemma {:induction false} BinderBytes(r: Reader)
    requires Binders(r).Some?
    ensures 33 * Binders(r).value <= |r.data|
    decreases Weight(r)
  {
    if r.data != [] { BinderBytes(r.Vector8().1); }
  }

  /** An extension has room for at most 1638 identities with their binders. */
  lemma FewIdentities(data: seq<byte>)
    requires ValidOffer(data) && |data| < 0x1_0000
    ensures |Listed(IdentityList(data))| <= 1638
  {
    var (identities, r1) := Reader(data, false).Vector16();
    var (binders, r2) := r1.Vector16();
    IdentityBytes(Reader(identities, false));
    BinderBytes(Reader(binders, false));
    hide Listed, Binders, WellListed;
    assert |identities| + |binders| + 4 == |data|;
  }
}
