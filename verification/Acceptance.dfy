/** Which fragments the reassembler keeps, said without its own tests, and that with room enough everything sent is delivered. */
module Acceptance {
  import opened Wire
  import opened Bitmap
  import opened Budget
  import opened Fragments
  import opened Reassembly

  /** Bytes of the messages pending beyond the next one. */
  function Beyond(a: Assembly): nat { Sum(a.pending, a.next + 1, 15, Length) }

  /** The budget has room for a message of this size, its bitmap and its bookkeeping. */
  predicate Affords(pool: Pool, size: nat) {
    pool.Limited? ==> pool.used + size + (size + 7) / 8 + 128 <= pool.limit
  }

  /** A message already delivered; or one of the next sixteen that is pending, or is next and affordable, or is affordable and fits the
      mebibyte that messages beyond the next one may take. */
  ghost predicate Welcome(a: Assembly, pool: Pool, k: nat, size: nat) {
    || k < a.next
    || (k < a.next + 16 && (k in a.pending || (Affords(pool, size) && (k == a.next || Beyond(a) + size <= 0x10_0000))))
  }

  lemma FutureIsBeyond(a: Assembly)
    requires Fragments.Valid(a)
    ensures Future(a) == Beyond(a)
  {
    SumDropFirst(a.pending, a.next, MAX_PENDING, Length);
  }

  lemma OpensWhenWelcome(a: Assembly, pool: Pool, f: Fragment)
    requires Fragments.Valid(a) && a.next <= f.sequence < a.next + 16
    ensures CanOpen(a, pool, f) <==> Welcome(a, pool, f.sequence, f.total)
  {
    FutureIsBeyond(a);
    hide Beyond, Future;
  }

  lemma InsertedExactly(a: Assembly, pool: Pool, f: Fragment, epoch: nat)
    requires Fragments.Valid(a) && f.Fits() && f.total <= MAX_BODY && !Insert(a, pool, f, epoch).2.Rejected?
    ensures var (b, q, v) := Insert(a, pool, f, epoch);
      (v.Accepted? <==> Welcome(a, pool, f.sequence, f.total)) && (!v.Accepted? ==> v.Dropped? && b == a && q == pool)
  {
    if a.next <= f.sequence < a.next + 16 { OpensWhenWelcome(a, pool, f); }
    hide Fragments.Valid, Fill, CanOpen, Open;
  }

  // ----- any fragment, honest or not -----

  /** Where the message already has bytes, the fragment from position i on brings the same. */
  ghost predicate Repeats(p: Slot, f: Fragment, i: nat)
    requires f.Fits() && |p.message.body| == f.total
  {
    forall x :: f.offset + i <= x < f.offset + |f.body| && x in p.seen ==> p.message.body[x] == f.body[x - f.offset]
  }

  /** The message with the fragment's bytes, from position i on, laid over it. */
  ghost predicate Overlaid(p: Slot, f: Fragment, i: nat, q: Slot)
    requires f.Fits() && |p.message.body| == f.total
  {
    && q.message.(body := p.message.body) == p.message && |q.message.body| == f.total
    && q.seen == p.seen + Range(f.offset + i, f.offset + |f.body|)
    && forall x :: 0 <= x < f.total ==>
         q.message.body[x] == if f.offset + i <= x < f.offset + |f.body| then f.body[x - f.offset] else p.message.body[x]
  }

  /** The slot with one byte of the fragment written. */
  function OneByte(p: Slot, f: Fragment, i: nat): Slot
    requires f.Fits() && |p.message.body| == f.total && i < |f.body|
  {
    var k := f.offset + i;
    if k in p.seen then p else Slot(p.message.(body := p.message.body[k := f.body[i]]), p.seen + {k})
  }

  lemma RepeatsStep(p: Slot, f: Fragment, i: nat)
    requires f.Fits() && |p.message.body| == f.total && i < |f.body|
    ensures Repeats(p, f, i) <==>
      (f.offset + i in p.seen ==> p.message.body[f.offset + i] == f.body[i]) && Repeats(OneByte(p, f, i), f, i + 1)
  {
  }

  lemma OverlaidStep(p: Slot, f: Fragment, i: nat, r: Slot)
    requires f.Fits() && |p.message.body| == f.total && i < |f.body|
    requires f.offset + i in p.seen ==> p.message.body[f.offset + i] == f.body[i]
    requires Overlaid(OneByte(p, f, i), f, i + 1, r)
    ensures Overlaid(p, f, i, r)
  {
    RangeFirst(f.offset + i, f.offset + |f.body|);
  }

  lemma {:induction false} FillMeans(p: Slot, f: Fragment, i: nat)
    requires f.Fits() && |p.message.body| == f.total && i <= |f.body|
    ensures Fill(p, f, i).1 <==> Repeats(p, f, i)
    ensures Fill(p, f, i).1 ==> Overlaid(p, f, i, Fill(p, f, i).0)
    decreases |f.body| - i
  {
    if i < |f.body| {
      RepeatsStep(p, f, i);
      if f.offset + i in p.seen ==> p.message.body[f.offset + i] == f.body[i] {
        var q := OneByte(p, f, i);
        assert Fill(p, f, i) == Fill(q, f, i + 1);
        hide Repeats, Overlaid;
        FillMeans(q, f, i + 1);
        if Fill(q, f, i + 1).1 { OverlaidStep(p, f, i, Fill(q, f, i + 1).0); }
      }
    }
  }

  /** The fragment is of the message in the slot: same type, epoch and length, and no byte contradicts one that is there. */
  ghost predicate Agrees(p: Slot, f: Fragment, epoch: nat) {
    f.Fits() && p.message.typ == f.typ && p.message.epoch == epoch && |p.message.body| == f.total && Repeats(p, f, 0)
  }

  /** What becomes of any fragment. An old one is done with; one too far ahead or without room is dropped; one of a message too large or at
      odds with what is there ends the session; any other is laid over its message, and all other messages stay as they are. */
  lemma InsertMeans(a: Assembly, pool: Pool, f: Fragment, epoch: nat)
    requires Fragments.Valid(a) && f.Fits()
    ensures var k := f.sequence; var (b, q, v) := Insert(a, pool, f, epoch);
      && v == (if k < a.next then Accepted
               else if k >= a.next + 16 then Dropped
               else if f.total > 0x10_0000 then Rejected(HandshakeLimit)
               else if k in a.pending then (if Agrees(a.pending[k], f, epoch) then Accepted else Rejected(FragmentConflict))
               else if Welcome(a, pool, k, f.total) then Accepted else Dropped)
      && b.next == a.next && (forall j :: j in a.pending && j != k ==> j in b.pending && b.pending[j] == a.pending[j])
      && (v.Accepted? && k >= a.next ==>
            && k in b.pending && b.pending[k].message.typ == f.typ && b.pending[k].message.epoch == epoch && |b.pending[k].message.body| == f.total
            && (k in a.pending ==> Overlaid(a.pending[k], f, 0, b.pending[k]))
            && (k !in a.pending ==> b.pending[k].seen == Range(f.offset, f.offset + |f.body|) && b.pending[k].message.body[f.offset..f.offset + |f.body|] == f.body))
  {
    var k := f.sequence as nat;
    if a.next <= k < a.next + 16 {
      OpensWhenWelcome(a, pool, f);
      var p := if k in a.pending then a.pending[k] else Fragments.Fresh(f, epoch);
      if |p.message.body| == f.total { FillMeans(p, f, 0); }
      hide Fragments.Valid, Fill, CanOpen, Welcome;
      if k !in a.pending { FreshRepeats(f, epoch); }
    }
  }

  lemma FreshRepeats(f: Fragment, epoch: nat)
    requires f.Fits()
    ensures Repeats(Fragments.Fresh(f, epoch), f, 0)
    ensures forall q :: Overlaid(Fragments.Fresh(f, epoch), f, 0, q) ==>
      q.seen == Range(f.offset, f.offset + |f.body|) && q.message.body[f.offset..f.offset + |f.body|] == f.body
  {
    assert {} + Range(f.offset, f.offset + |f.body|) == Range(f.offset, f.offset + |f.body|);
  }

  // ----- honest fragments -----

  /** A slice of a numbered message is accepted exactly when it is welcome, and otherwise dropped without a trace. */
  lemma AcceptedExactly(a: Assembly, pool: Pool, history: seq<Message>, k: nat, start: nat, end: nat)
    requires Numbered(history) && Consistent(a, history) && pool.Valid() && k < |history| && start <= end <= |history[k].body|
    ensures Encode(history[k], start, end - start).Ok?
    ensures var (b, q, v) := Add(a, pool, Encode(history[k], start, end - start).value, history[k].epoch);
      && (v.Accepted? <==> Welcome(a, pool, k, |history[k].body|))
      && (v.Accepted? ==> Covers(b, k, start, end))
      && (!v.Accepted? ==> v.Dropped? && b == a && q == pool)
  {
    hide Encode, Split, Insert, Add, Covers, Welcome;
    var m, f := history[k], Slice(history[k], start, end - start);
    SplitEncoded(m, start, end);
    InsertSlice(a, pool, history, k, start, end - start);
    OneFragment(a, pool, Encode(m, start, end - start).value, f, m.epoch);
    InsertedExactly(a, pool, f, m.epoch);
  }

  lemma OneFragment(a: Assembly, pool: Pool, data: seq<byte>, f: Fragment, epoch: nat)
    requires data != [] && f.Fits() && Split(data) == ([f], true)
    ensures Add(a, pool, data, epoch) == Insert(a, pool, f, epoch)
  {
    hide Split, Insert;
    var (b, q, _) := Insert(a, pool, f, epoch);
    assert [f][1..] == [];
    assert AddAll(b, q, [], epoch) == (b, q, Accepted);
    assert AddAll(a, pool, [f], epoch) == Insert(a, pool, f, epoch);
  }

  // ----- several fragments in one record -----

  lemma SplitFirst(m: Message, start: nat, end: nat, rest: seq<byte>)
    requires start <= end <= |m.body| <= MAX_BODY
    ensures Encode(m, start, end - start).Ok? && Slice(m, start, end - start).Fits()
    ensures Split(Encode(m, start, end - start).value + rest) == ([Slice(m, start, end - start)] + Split(rest).0, Split(rest).1)
  {
    hide Encode, Parse, Slice;
    SplitEncoded(m, start, end);
    EncodeParse(m, start, end - start, rest);
    var data := Encode(m, start, end - start).value + rest;
    assert data != [];
    assert Parse(data) == Ok((Slice(m, start, end - start), rest));
    assert Split(data) == ([Parse(data).value.0] + Split(Parse(data).value.1).0, Split(Parse(data).value.1).1);
  }

  /** A record of several fragments does what its fragments would do one record after the other; it is accepted if each of them is. */
  lemma FragmentsInTurn(a: Assembly, pool: Pool, m: Message, start: nat, end: nat, rest: seq<byte>)
    requires start <= end <= |m.body| <= MAX_BODY && rest != [] && Split(rest).1
    ensures Encode(m, start, end - start).Ok?
    ensures var first := Encode(m, start, end - start).value;
      var (b, q, v) := Add(a, pool, first, m.epoch);
      var (c, s, w) := Add(b, q, rest, m.epoch);
      Add(a, pool, first + rest, m.epoch) == if v.Rejected? then (b, q, v) else (c, s, if w.Accepted? then v else w)
  {
    SplitEncoded(m, start, end);
    SplitFirst(m, start, end, rest);
    var first, f := Encode(m, start, end - start).value, Slice(m, start, end - start);
    OneFragment(a, pool, first, f, m.epoch);
    hide Encode, Split, Slice, Insert;
    assert first + rest != [];
    assert ([f] + Split(rest).0)[1..] == Split(rest).0;
  }

  // ----- room for everything -----

  /** Bytes of the messages numbered from, from + 1, ... that are below n. */
  function Bytes(history: seq<Message>, n: nat, from: nat, count: nat): nat
    requires n <= |history|
  {
    if count == 0 then 0
    else Bytes(history, n, from, count - 1) + if from + count - 1 < n then |history[from + count - 1].body| else 0
  }

  /** All that the first n messages hold. */
  function Total(history: seq<Message>, n: nat): nat
    requires n <= |history|
  {
    Bytes(history, n, 0, n)
  }

  lemma {:induction false} BytesBounded(history: seq<Message>, n: nat, from: nat, count: nat)
    requires n <= |history|
    ensures Bytes(history, n, from, count) + Bytes(history, n, 0, from) == Bytes(history, n, 0, from + count)
  {
    if count > 0 { BytesBounded(history, n, from, count - 1); }
  }

  lemma {:induction false} BytesTotal(history: seq<Message>, n: nat, count: nat)
    requires n <= |history|
    ensures Bytes(history, n, 0, count) <= Total(history, n)
    decreases if count < n then n - count else count - n
  {
    if count < n { BytesTotal(history, n, count + 1); } else if count > n { BytesTotal(history, n, count - 1); }
  }

  /** Only messages below n are pending, as long as they are numbered. */
  ghost predicate Below(a: Assembly, history: seq<Message>, n: nat) {
    n <= |history| && forall k :: k in a.pending ==> k < n && |a.pending[k].message.body| == |history[k].body|
  }

  lemma {:induction false} SumBounded(a: Assembly, history: seq<Message>, n: nat, k: nat, from: nat, count: nat)
    requires Below(a, history, n) && k !in a.pending && k < n
    ensures Sum(a.pending, from, count, Length) + (if from <= k < from + count then |history[k].body| else 0) <= Bytes(history, n, from, count)
  {
    if count > 0 { SumBounded(a, history, n, k, from, count - 1); }
  }

  lemma RoomForAll(a: Assembly, pool: Pool, history: seq<Message>, n: nat, k: nat)
    requires Below(a, history, n) && k < n <= 16 && Total(history, n) <= 0x10_0000 && Affords(pool, |history[k].body|)
    ensures Welcome(a, pool, k, |history[k].body|)
  {
    if a.next < k && k !in a.pending {
      SumBounded(a, history, n, k, a.next + 1, 15);
      BytesBounded(history, n, a.next + 1, 15);
      BytesTotal(history, n, a.next + 16);
    }
  }

  /** One slice of one of the first n messages, with the budget to open that message. */
  ghost predicate SliceOf(e: Event, history: seq<Message>, n: nat) {
    n <= |history| && e.Arrive? && e.pool.Valid() && exists k: nat, start: nat, end: nat :: IsPart(e, history, n, k, start, end)
  }

  ghost predicate IsPart(e: Event, history: seq<Message>, n: nat, k: nat, start: nat, end: nat)
    requires n <= |history| && e.Arrive?
  {
    && k < n && start <= end <= |history[k].body| <= MAX_BODY && e.epoch == history[k].epoch && Affords(e.pool, |history[k].body|)
    && Encode(history[k], start, end - start) == Ok(e.data)
  }

  ghost predicate Fed(events: seq<Event>, history: seq<Message>, n: nat) {
    forall e :: e in events ==> e.Deliver? || SliceOf(e, history, n)
  }

  lemma SliceCarries(e: Event, history: seq<Message>, n: nat)
    requires Numbered(history) && SliceOf(e, history, n)
    ensures Carries(e.data, e.epoch, history) && e.pool.Valid()
  {
    hide Encode, Carries, Slice, Split;
    var k: nat, start: nat, end: nat :| IsPart(e, history, n, k, start, end);
    EncodedCarries(history[k], start, end, history);
  }

  lemma FedHonestly(events: seq<Event>, history: seq<Message>, n: nat)
    requires Numbered(history) && Fed(events, history, n)
    ensures Honest(events, history)
  {
    hide SliceOf, Carries;
    forall e | e in events && e.Arrive? ensures Carries(e.data, e.epoch, history) && e.pool.Valid() { SliceCarries(e, history, n); }
  }

  lemma InsertAdds(a: Assembly, pool: Pool, f: Fragment, epoch: nat)
    requires f.Fits()
    ensures Insert(a, pool, f, epoch).0.pending.Keys <= a.pending.Keys + {f.sequence as nat}
  {
  }

  /** With room, a slice of one of the first n messages is accepted, and only such messages stay pending. */
  lemma SliceIsKept(a: Assembly, e: Event, history: seq<Message>, n: nat)
    requires Numbered(history) && Consistent(a, history) && Below(a, history, n) && n <= 16 && Total(history, n) <= 0x10_0000 && SliceOf(e, history, n)
    ensures var (b, _, v) := Add(a, e.pool, e.data, e.epoch); v.Accepted? && (Consistent(b, history) ==> Below(b, history, n))
  {
    hide Encode, Slice, Split, Add, Insert, Total, Welcome, Affords;
    var k: nat, start: nat, end: nat :| IsPart(e, history, n, k, start, end);
    RoomForAll(a, e.pool, history, n, k);
    AcceptedExactly(a, e.pool, history, k, start, end);
    SplitEncoded(history[k], start, end);
    var f := Slice(history[k], start, end - start);
    OneFragment(a, e.pool, e.data, f, e.epoch);
    InsertAdds(a, e.pool, f, e.epoch);
    assert f.sequence == k by { SliceNumber(history, k, start, end); }
  }

  lemma SliceNumber(history: seq<Message>, k: nat, start: nat, end: nat)
    requires Numbered(history) && k < |history| && start <= end <= |history[k].body|
    ensures Slice(history[k], start, end - start).sequence == k
  {
  }

  lemma {:induction false} AllKept(a: Assembly, events: seq<Event>, history: seq<Message>, n: nat, j: nat)
    requires Numbered(history) && Consistent(a, history) && Below(a, history, n) && n <= 16 && Total(history, n) <= 0x10_0000
    requires Fed(events, history, n) && j < |events| && events[j].Arrive?
    ensures AcceptedAt(a, events, j)
    decreases |events|
  {
    hide SliceOf, Total, Add, Numbered;
    assert events[0] in events && events[j] in events;
    FedHonestly(events, history, n);
    StepGrows(a, events, history);
    if events[0].Arrive? { SliceIsKept(a, events[0], history, n); }
    if j > 0 {
      var b := Before(a, events, 1);
      assert Below(b, history, n) by { StepBelow(a, events, history, n); }
      hide Consistent, Below;
      AllKept(b, events[1..], history, n, j - 1);
      assert events[1..][j - 1] == events[j];
    }
  }

  lemma StepBelow(a: Assembly, events: seq<Event>, history: seq<Message>, n: nat)
    requires Numbered(history) && Consistent(a, history) && Below(a, history, n) && n <= 16 && Total(history, n) <= 0x10_0000
    requires Fed(events, history, n) && events != [] && Consistent(Before(a, events, 1), history)
    ensures Below(Before(a, events, 1), history, n)
  {
    hide SliceOf, Total, Add, Numbered, Consistent;
    assert events[0] in events;
    var b := Before(a, events, 1);
    assert b == Before(b, events[1..], 0);
    if events[0].Arrive? { SliceIsKept(a, events[0], history, n); }
  }

  /** Every byte of the message is in some record of the run. */
  ghost predicate AllSent(events: seq<Event>, k: nat, size: nat) {
    forall i: nat :: i < size || i == 0 ==> ByteSent(events, k, i)
  }

  ghost predicate ByteSent(events: seq<Event>, k: nat, i: nat) {
    exists j: nat :: j < |events| && events[j].Arrive? && Brings(events[j].data, k, i)
  }

  /** Up to sixteen messages of a mebibyte together, cut up in any way and arriving in any order with any repeats, are all delivered. */
  lemma EverythingIsDelivered(events: seq<Event>, history: seq<Message>, n: nat)
    requires Numbered(history) && n <= |history| && n <= 16 && Total(history, n) <= 0x10_0000 && Fed(events, history, n)
    requires forall k :: 0 <= k < n ==> AllSent(events, k, |history[k].body|)
    ensures var (b, out) := Reassembly.Run(Assembly(0, map[], 0), events); var (c, rest) := Drain(b);
      n <= c.next <= |history| && out + rest == history[..c.next]
  {
    var a := Assembly(0, map[], 0);
    assert Consistent(a, history) by { SumNothing(0, MAX_PENDING); }
    assert Below(a, history, n);
    hide Reassembly.Run, Drain, Total, Below, Consistent, Fed, Brings;
    FedHonestly(events, history, n);
    forall k | 0 <= k < n ensures AllAccepted(a, events, history[k]) {
      assert history[k].sequence == k;
      forall i: nat | i < |history[k].body| || i == 0 ensures ByteAccepted(a, events, k, i) {
        assert ByteSent(events, k, i);
        var j: nat :| j < |events| && events[j].Arrive? && Brings(events[j].data, k, i);
        AllKept(a, events, history, n, j);
      }
    }
    AcceptedMessagesComeOut(events, history, n);
  }

  function Whole(m: Message, pool: Pool): Event
    requires |m.body| <= MAX_BODY
  {
    Arrive(Encode(m, 0, |m.body|).value, m.epoch, pool)
  }

  lemma WholeKept(a: Assembly, pool: Pool, history: seq<Message>, k: nat, data: seq<byte>)
    requires Numbered(history) && Consistent(a, history) && pool.Valid() && k < |history| && Welcome(a, pool, k, |history[k].body|)
    requires |history[k].body| <= MAX_BODY && data == Encode(history[k], 0, |history[k].body|).value
    ensures Covers(Add(a, pool, data, history[k].epoch).0, k, 0, |history[k].body|)
  {
    hide *;
    AcceptedExactly(a, pool, history, k, 0, |history[k].body|);
  }

  lemma WholeHarmless(a: Assembly, pool: Pool, history: seq<Message>, k: nat, data: seq<byte>)
    requires Numbered(history) && Consistent(a, history) && pool.Valid() && k < |history|
    requires history[k].sequence == k && |history[k].body| <= MAX_BODY && data == Encode(history[k], 0, |history[k].body|).value
    ensures var b := Add(a, pool, data, history[k].epoch).0; Consistent(b, history) && Grows(a, b) && b.next == a.next
  {
    hide *;
    EncodedCarries(history[k], 0, |history[k].body|, history);
    AddCarried(a, pool, data, history[k].epoch, history);
  }

  lemma WholeArrives(a: Assembly, pool: Pool, history: seq<Message>, k: nat)
    requires Numbered(history) && Consistent(a, history) && pool.Valid() && k < |history| && Welcome(a, pool, k, |history[k].body|)
    ensures |history[k].body| <= MAX_BODY
    ensures var b := Add(a, pool, Whole(history[k], pool).data, history[k].epoch).0;
      Consistent(b, history) && Grows(a, b) && b.next == a.next && Covers(b, k, 0, |history[k].body|)
  {
    NumberedFits(history, k);
    var data := Whole(history[k], pool).data;
    hide Add, Encode, Numbered, Consistent, Grows, Covers, Welcome;
    WholeKept(a, pool, history, k, data);
    WholeHarmless(a, pool, history, k, data);
  }

  lemma NumberedFits(history: seq<Message>, k: nat)
    requires Numbered(history) && k < |history|
    ensures history[k].sequence == k && |history[k].body| <= MAX_BODY
  {
  }

  lemma TwoArrive(a: Assembly, x: Event, y: Event)
    requires x.Arrive? && y.Arrive?
    ensures Reassembly.Run(a, [x, y]) == (Add(Add(a, x.pool, x.data, x.epoch).0, y.pool, y.data, y.epoch).0, [])
  {
    hide Add;
    assert [x, y][1..] == [y] && [y][1..] == [];
    var b := Add(a, x.pool, x.data, x.epoch).0;
    var c := Add(b, y.pool, y.data, y.epoch).0;
    assert Reassembly.Run(c, []) == (c, []);
    assert Reassembly.Run(b, [y]) == (c, []);
  }

  /** At any point of a run, a message that arrives ahead of its turn is kept, and delivered as soon as the one before it comes. */
  lemma AheadOfTurn(a: Assembly, history: seq<Message>, early: Pool, late: Pool)
    requires Numbered(history) && Consistent(a, history) && a.next + 1 < |history| && early.Valid() && late.Valid()
    requires Affords(early, |history[a.next + 1].body|) && Beyond(a) + |history[a.next + 1].body| <= 0x10_0000 && Affords(late, |history[a.next].body|)
    ensures var (b, out) := Reassembly.Run(a, [Whole(history[a.next + 1], early), Whole(history[a.next], late)]);
      var (c, delivered) := Drain(b);
      out == [] && a.next + 2 <= c.next <= |history| && delivered == history[a.next..c.next]
  {
    hide Add, Encode, Whole, Consistent, Grows, Covers, Welcome, Numbered, Reassembly.Run, Drain, Ready, Beyond, Affords, Pool.Valid;
    var k := a.next;
    NumberedFits(history, k);
    NumberedFits(history, k + 1);
    var x, y := Whole(history[k + 1], early), Whole(history[k], late);
    IsArrival(history[k + 1], early);
    IsArrival(history[k], late);
    TwoArrive(a, x, y);
    var b := Add(a, early, x.data, history[k + 1].epoch).0;
    var c := Add(b, late, y.data, history[k].epoch).0;
    WelcomeAhead(a, early, |history[k + 1].body|);
    WholeArrives(a, early, history, k + 1);
    WelcomeNext(b, late, |history[k].body|);
    WholeArrives(b, late, history, k);
    GrowsCovers(b, c, k + 1, 0, |history[k + 1].body|);
    BothComeOut(c, history);
  }

  lemma WelcomeAhead(a: Assembly, pool: Pool, size: nat)
    requires Affords(pool, size) && Beyond(a) + size <= 0x10_0000
    ensures Welcome(a, pool, a.next + 1, size)
  {
  }

  lemma WelcomeNext(a: Assembly, pool: Pool, size: nat)
    requires Affords(pool, size)
    ensures Welcome(a, pool, a.next, size)
  {
  }

  lemma IsArrival(m: Message, pool: Pool)
    requires |m.body| <= MAX_BODY
    ensures Whole(m, pool).Arrive? && Whole(m, pool).epoch == m.epoch && Whole(m, pool).pool == pool
  {
  }

  /** The next two messages are complete. */
  lemma BothComeOut(c: Assembly, history: seq<Message>)
    requires Numbered(history) && Consistent(c, history) && c.next + 1 < |history|
    requires Covers(c, c.next, 0, |history[c.next].body|) && Covers(c, c.next + 1, 0, |history[c.next + 1].body|)
    ensures var (d, delivered) := Drain(c); c.next + 2 <= d.next <= |history| && delivered == history[c.next..d.next]
  {
    hide Consistent, Grows, Covers, Numbered, Drain, Ready;
    var k := c.next;
    DrainExact(c, history);
    var d := Drain(c).0;
    GrowsCovers(c, d, k, 0, |history[k].body|);
    GrowsCovers(c, d, k + 1, 0, |history[k + 1].body|);
    Ahead(c, d, history);
    if d.next < k + 2 { CompleteIsReady(d, history); }
  }

  lemma Ahead(c: Assembly, d: Assembly, history: seq<Message>)
    requires Grows(c, d) && Consistent(d, history)
    ensures c.next <= d.next <= |history|
  {
  }
}
