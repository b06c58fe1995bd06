/** Handshake messages, their fragments on the wire, and reassembly as a function of what arrives. */
module Fragments {
  import opened Wire
  import opened Bitmap
  import opened Budget

  const MAX_BODY := 0x10_0000
  const MAX_PENDING := 16

  datatype Message = Message(typ: byte, sequence: u16, epoch: nat, body: seq<byte>)

  datatype Fragment = Fragment(typ: byte, sequence: u16, total: nat, offset: nat, body: seq<byte>) {
    /** What the parser guarantees of every fragment it returns. */
    predicate Fits() {
      offset + |body| <= total
    }
  }

  // ----- wire form -----

  function Encode(m: Message, offset: int, length: int): (r: Result<seq<byte>>) {
    if |m.body| > MAX_BODY then Err(HandshakeLimit)
    else if offset < 0 || offset > |m.body| || length < 0 || length > |m.body| - offset then Err(Decode)
    else Ok([m.typ] + U24(|m.body|) + U16(m.sequence) + U24(offset) + U24(length) + m.body[offset..offset + length])
  }

  function Parse(data: seq<byte>): (r: Result<(Fragment, seq<byte>)>)
    ensures r.Ok? ==> r.value.0.Fits() && |r.value.1| < |data|
  {
    var (typ, r1) := Reader(data, false).ReadU8();
    var (total, r2) := r1.ReadU24();
    var (sequence, r3) := r2.ReadU16();
    var (offset, r4) := r3.ReadU24();
    var (body, r5) := r4.Vector24();
    if r5.failed || offset > total || |body| > total - offset then Err(Decode)
    else Ok((Fragment(typ, sequence, total, offset, body), r5.data))
  }

  function Slice(m: Message, offset: nat, length: nat): Fragment
    requires offset + length <= |m.body|
  {
    Fragment(m.typ, m.sequence, |m.body|, offset, m.body[offset..offset + length])
  }

  /** Parsing what was encoded gives back that slice and whatever followed it. */
  lemma EncodeParse(m: Message, offset: nat, length: nat, rest: seq<byte>)
    requires |m.body| <= MAX_BODY && offset + length <= |m.body|
    ensures Parse(Encode(m, offset, length).value + rest) == Ok((Slice(m, offset, length), rest))
  {
    var part := m.body[offset..offset + length];
    var t4 := U24(length) + part + rest;
    var t3 := U24(offset) + t4;
    var t2 := U16(m.sequence) + t3;
    var t1 := U24(|m.body|) + t2;
    assert Encode(m, offset, length).value + rest == [m.typ] + t1;
    ReadsU8(m.typ, t1);
    ReadsU24(|m.body|, t2);
    ReadsU16(m.sequence, t3);
    ReadsU24(offset, t4);
    ReadsVector24(part, rest);
  }

  /** The fragments of a record up to the first that does not parse, and whether all of it parsed. */
  function Split(data: seq<byte>): (r: (seq<Fragment>, bool))
    ensures forall f :: f in r.0 ==> f.Fits()
    decreases |data|
  {
    if data == [] then ([], true)
    else
      var parsed := Parse(data);
      if parsed.Err? then ([], false)
      else
        var (fs, whole) := Split(parsed.value.1);
        ([parsed.value.0] + fs, whole)
  }

  // ----- reassembly -----

  /** A message under reassembly: the bytes at the seen positions have arrived. */
  datatype Slot = Slot(message: Message, seen: set<nat>) {
    ghost predicate Valid() {
      |message.body| <= MAX_BODY && seen <= Range(0, |message.body|)
    }

    function Length(): nat { |message.body| }

    predicate Whole() { |seen| == |message.body| }
  }

  datatype Assembly = Assembly(next: nat, pending: map<nat, Slot>, buffered: int)

  datatype Verdict = Accepted | Dropped | Rejected(error: Error)

  function FragmentCost(size: nat): nat {
    size + (size + 7) / 8 + 128
  }

  function Length(p: Slot): nat { |p.message.body| }

  function Cost(p: Slot): nat { FragmentCost(|p.message.body|) }

  /** Total weight of the messages pending at sequence numbers from, from + 1, ..., from + n - 1. */
  function Sum(pending: map<nat, Slot>, from: nat, n: nat, weight: Slot -> nat): nat {
    if n == 0 then 0
    else Sum(pending, from, n - 1, weight)
         + if from + n - 1 in pending then weight(pending[from + n - 1]) else 0
  }

  /** What the memory budget is charged for this reassembler. */
  function Charge(a: Assembly): nat { Sum(a.pending, a.next, MAX_PENDING, Cost) }

  /** Bytes buffered for messages after the next expected one. */
  function Future(a: Assembly): int { a.buffered - if a.next in a.pending then Length(a.pending[a.next]) else 0 }

  ghost predicate Valid(a: Assembly) {
    && a.next <= 0x1_0000
    && (forall k :: k in a.pending ==>
          && a.next <= k < a.next + MAX_PENDING && k < 0x1_0000
          && a.pending[k].Valid() && a.pending[k].message.sequence == k)
    && a.buffered == Sum(a.pending, a.next, MAX_PENDING, Length)
    && Future(a) <= MAX_BODY
  }

  /** Copies body bytes into the message; stops at the first byte that contradicts an earlier one. */
  function Fill(p: Slot, f: Fragment, i: nat): (r: (Slot, bool))
    requires f.Fits() && |p.message.body| == f.total && i <= |f.body|
    ensures |r.0.message.body| == f.total && r.0.message.(body := p.message.body) == p.message
    decreases |f.body| - i
  {
    if i == |f.body| then (p, true)
    else
      var k := f.offset + i;
      if k in p.seen then
        if p.message.body[k] != f.body[i] then (p, false) else Fill(p, f, i + 1)
      else
        Fill(Slot(p.message.(body := p.message.body[k := f.body[i]]), p.seen + {k}), f, i + 1)
  }

  function Fresh(f: Fragment, epoch: nat): Slot {
    Slot(Message(f.typ, f.sequence, epoch, seq(f.total, _ => 0)), {})
  }

  /** Makes room for the fragment's message when none of it has arrived yet. */
  function Open(a: Assembly, f: Fragment, epoch: nat): Assembly {
    if f.sequence in a.pending then a
    else a.(pending := a.pending[f.sequence := Fresh(f, epoch)], buffered := a.buffered + f.total)
  }

  predicate CanOpen(a: Assembly, pool: Pool, f: Fragment) {
    f.sequence in a.pending ||
    ((f.sequence == a.next || Future(a) + f.total <= MAX_BODY) && pool.Grants(FragmentCost(f.total)))
  }

  function Insert(a: Assembly, pool: Pool, f: Fragment, epoch: nat): (r: (Assembly, Pool, Verdict))
    requires f.Fits()
  {
    var k := f.sequence;
    if k < a.next then (a, pool, Accepted)
    else if k - a.next >= MAX_PENDING then (a, pool, Dropped)
    else if f.total > MAX_BODY then (a, pool, Rejected(HandshakeLimit))
    else if !CanOpen(a, pool, f) then (a, pool, Dropped)
    else
      var b := Open(a, f, epoch);
      var paid := if k in a.pending then pool else pool.Reserve(FragmentCost(f.total));
      var p := b.pending[k];
      if p.message.typ != f.typ || p.message.epoch != epoch || |p.message.body| != f.total then
        (b, paid, Rejected(FragmentConflict))
      else
        var (q, same) := Fill(p, f, 0);
        (b.(pending := b.pending[k := q]), paid, if same then Accepted else Rejected(FragmentConflict))
  }

  /** Inserts the fragments in turn; all of them must be accepted for the record to be. */
  function AddAll(a: Assembly, pool: Pool, fs: seq<Fragment>, epoch: nat): (r: (Assembly, Pool, Verdict))
    requires forall f :: f in fs ==> f.Fits()
    decreases |fs|
  {
    if fs == [] then (a, pool, Accepted)
    else
      var (b, q, verdict) := Insert(a, pool, fs[0], epoch);
      if verdict.Rejected? then (b, q, verdict)
      else
        var (c, s, later) := AddAll(b, q, fs[1..], epoch);
        (c, s, if later.Accepted? then verdict else later)
  }

  function Add(a: Assembly, pool: Pool, data: seq<byte>, epoch: nat): (r: (Assembly, Pool, Verdict)) {
    if data == [] then (a, pool, Rejected(Decode))
    else
      var (fs, whole) := Split(data);
      var (b, q, verdict) := AddAll(a, pool, fs, epoch);
      (b, q, if verdict.Rejected? || whole then verdict else Rejected(Decode))
  }

  predicate Ready(a: Assembly) {
    a.next <= 65535 && a.next in a.pending && a.pending[a.next].Whole()
  }

  function Pop(a: Assembly): (Message, Assembly)
    requires Ready(a)
  {
    var m := a.pending[a.next].message;
    (m, Assembly(a.next + 1, a.pending - {a.next}, a.buffered - |m.body|))
  }

  // ----- sums over the window -----

  lemma {:induction false} SumSame(p: map<nat, Slot>, q: map<nat, Slot>, from: nat, n: nat, w: Slot -> nat)
    requires forall k :: from <= k < from + n ==> (k in p <==> k in q) && (k in p ==> w(p[k]) == w(q[k]))
    ensures Sum(p, from, n, w) == Sum(q, from, n, w)
  {
    if n > 0 { SumSame(p, q, from, n - 1, w); }
  }

  lemma {:induction false} SumPut(p: map<nat, Slot>, from: nat, n: nat, w: Slot -> nat, k: nat, v: Slot)
    requires from <= k < from + n && k !in p
    ensures Sum(p[k := v], from, n, w) == Sum(p, from, n, w) + w(v)
  {
    if k == from + n - 1 { SumSame(p[k := v], p, from, n - 1, w); }
    else { SumPut(p, from, n - 1, w, k, v); }
  }

  lemma {:induction false} SumDropFirst(p: map<nat, Slot>, from: nat, n: nat, w: Slot -> nat)
    requires n > 0
    ensures Sum(p, from, n, w) == (if from in p then w(p[from]) else 0) + Sum(p, from + 1, n - 1, w)
  {
    if n > 1 { SumDropFirst(p, from, n - 1, w); }
  }

  /** Dropping the first slot of the window and opening a new, empty, last one. */
  lemma SumShift(p: map<nat, Slot>, from: nat, n: nat, w: Slot -> nat)
    requires n > 0 && from in p && from + n !in p
    ensures Sum(p - {from}, from + 1, n, w) == Sum(p, from, n, w) - w(p[from])
  {
    SumDropFirst(p, from, n, w);
    SumSame(p, p - {from}, from + 1, n - 1, w);
  }

  // ----- what every operation keeps -----

  lemma {:induction false} FillValid(p: Slot, f: Fragment, i: nat)
    requires f.Fits() && p.Valid() && |p.message.body| == f.total && i <= |f.body|
    ensures Fill(p, f, i).0.Valid()
    decreases |f.body| - i
  {
    if i < |f.body| {
      var k := f.offset + i;
      if k in p.seen {
        FillValid(p, f, i + 1);
      } else {
        FillValid(Slot(p.message.(body := p.message.body[k := f.body[i]]), p.seen + {k}), f, i + 1);
      }
    }
  }

  lemma OpenKeeps(a: Assembly, pool: Pool, f: Fragment, epoch: nat)
    requires Valid(a) && f.total <= MAX_BODY && a.next <= f.sequence < a.next + MAX_PENDING && CanOpen(a, pool, f)
    ensures Valid(Open(a, f, epoch))
    ensures Charge(Open(a, f, epoch)) == Charge(a) + if f.sequence in a.pending then 0 else FragmentCost(f.total)
  {
    if f.sequence !in a.pending {
      SumPut(a.pending, a.next, MAX_PENDING, Length, f.sequence, Fresh(f, epoch));
      SumPut(a.pending, a.next, MAX_PENDING, Cost, f.sequence, Fresh(f, epoch));
    }
  }

  lemma ReplaceKeeps(a: Assembly, k: nat, q: Slot)
    requires Valid(a) && k in a.pending && q.Valid()
    requires q.message.sequence == k && |q.message.body| == |a.pending[k].message.body|
    ensures Valid(a.(pending := a.pending[k := q])) && Charge(a.(pending := a.pending[k := q])) == Charge(a)
  {
    SumSame(a.pending, a.pending[k := q], a.next, MAX_PENDING, Length);
    SumSame(a.pending, a.pending[k := q], a.next, MAX_PENDING, Cost);
  }

  /** Limits, exact accounting and exact charging survive every fragment, well behaved or not. */
  lemma InsertKeeps(a: Assembly, pool: Pool, f: Fragment, epoch: nat)
    requires Valid(a) && pool.Valid() && f.Fits()
    ensures var (b, q, _) := Insert(a, pool, f, epoch);
      Valid(b) && b.next == a.next && q.Valid() && q.Limited? == pool.Limited? &&
      (q.Limited? ==> q.used - Charge(b) == pool.used - Charge(a) && q.limit == pool.limit)
  {
    var k := f.sequence;
    if a.next <= k < a.next + MAX_PENDING && f.total <= MAX_BODY && CanOpen(a, pool, f) {
      OpenKeeps(a, pool, f, epoch);
      var b := Open(a, f, epoch);
      var p := b.pending[k];
      if |p.message.body| == f.total {
        FillValid(p, f, 0);
        ReplaceKeeps(b, k, Fill(p, f, 0).0);
      }
    }
  }

  lemma {:induction false} AddAllKeeps(a: Assembly, pool: Pool, fs: seq<Fragment>, epoch: nat)
    requires Valid(a) && pool.Valid() && forall f :: f in fs ==> f.Fits()
    ensures var (b, q, _) := AddAll(a, pool, fs, epoch);
      Valid(b) && b.next == a.next && q.Valid() && q.Limited? == pool.Limited? &&
      (q.Limited? ==> q.used - Charge(b) == pool.used - Charge(a) && q.limit == pool.limit)
    decreases |fs|
  {
    if fs != [] {
      InsertKeeps(a, pool, fs[0], epoch);
      hide Valid, Charge, Insert;
      var (b, q, _) := Insert(a, pool, fs[0], epoch);
      AddAllKeeps(b, q, fs[1..], epoch);
    }
  }

  lemma PopKeeps(a: Assembly)
    requires Valid(a) && Ready(a)
    ensures var (m, b) := Pop(a); Valid(b) && Charge(b) == Charge(a) - FragmentCost(|m.body|)
  {
    SumShift(a.pending, a.next, MAX_PENDING, Length);
    SumShift(a.pending, a.next, MAX_PENDING, Cost);
  }

  lemma {:induction false} SumNothing(from: nat, n: nat)
    ensures Sum(map[], from, n, Length) == 0 && Sum(map[], from, n, Cost) == 0
  {
    if n > 0 { SumNothing(from, n - 1); }
  }
}
