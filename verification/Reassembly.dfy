/** The receiver of handshake fragments: what any arrival order leaves it with, and the object itself. */
module Reassembly {
  import opened Wire
  import opened Bitmap
  import opened Budget
  import opened Fragments

  // ----- a fixed sequence of messages and what the receiver knows of it -----

  /** history[k] is the message its sender numbered k. */
  ghost predicate Numbered(history: seq<Message>) {
    && |history| <= 0x1_0000
    && forall k :: 0 <= k < |history| ==> history[k].sequence == k && |history[k].body| <= MAX_BODY
  }

  /** Everything received so far of message m is m's own bytes. */
  ghost predicate Matches(p: Slot, m: Message) {
    && p.Valid()
    && p.message.(body := m.body) == m
    && |p.message.body| == |m.body|
    && forall i :: i in p.seen ==> p.message.body[i] == m.body[i]
  }

  ghost predicate Consistent(a: Assembly, history: seq<Message>) {
    && Valid(a)
    && a.next <= |history|
    && forall k :: k in a.pending ==> k < |history| && Matches(a.pending[k], history[k])
  }

  /** Bytes start..end of message k are buffered, or the whole message has been delivered. */
  ghost predicate Covers(a: Assembly, k: nat, start: nat, end: nat) {
    k < a.next || (k in a.pending && Range(start, end) <= a.pending[k].seen)
  }

  /** b knows everything a knew. */
  ghost predicate Grows(a: Assembly, b: Assembly) {
    && a.next <= b.next
    && forall k :: k in a.pending ==> k < b.next || (k in b.pending && a.pending[k].seen <= b.pending[k].seen)
  }

  lemma GrowsCovers(a: Assembly, b: Assembly, k: nat, start: nat, end: nat)
    requires Grows(a, b) && Covers(a, k, start, end)
    ensures Covers(b, k, start, end)
  {
  }

  lemma GrowsTwice(a: Assembly, b: Assembly, c: Assembly)
    requires Grows(a, b) && Grows(b, c)
    ensures Grows(a, c)
  {
  }

  /** The fragment is a slice of a message of the history, sent in that message's epoch. */
  ghost predicate IsSlice(f: Fragment, epoch: nat, history: seq<Message>) {
    && f.sequence < |history| && epoch == history[f.sequence].epoch
    && f.offset + |f.body| <= |history[f.sequence].body|
    && f == Slice(history[f.sequence], f.offset, |f.body|)
  }

  ghost predicate Carries(data: seq<byte>, epoch: nat, history: seq<Message>) {
    data != [] && Split(data).1 && forall f :: f in Split(data).0 ==> IsSlice(f, epoch, history)
  }

  ghost predicate CoversAll(a: Assembly, fs: seq<Fragment>) {
    forall f :: f in fs ==> Covers(a, f.sequence, f.offset, f.offset + |f.body|)
  }

  // ----- arrivals -----

  /** Filling a matching slot with a slice of its message: no contradiction, and exactly those bytes are added. */
  lemma {:induction false} FillSlice(p: Slot, m: Message, offset: nat, length: nat, i: nat)
    requires Matches(p, m) && offset + length <= |m.body| && i <= length
    ensures var (q, same) := Fill(p, Slice(m, offset, length), i);
      same && Matches(q, m) && q.seen == p.seen + Range(offset + i, offset + length)
    decreases length - i
  {
    var f := Slice(m, offset, length);
    if i < length {
      var k := offset + i;
      StoredMatches(p, m, k);
      assert f.body[i] == m.body[k];
      var q := if k in p.seen then p else Slot(p.message.(body := p.message.body[k := f.body[i]]), p.seen + {k});
      assert Fill(p, f, i) == Fill(q, f, i + 1);
      assert q.seen == p.seen + {k};
      hide Matches, Range, Fill, Slice;
      FillSlice(q, m, offset, length, i + 1);
      RangeFirst(k, offset + length);
    }
  }

  lemma StoredMatches(p: Slot, m: Message, k: nat)
    requires Matches(p, m) && k < |m.body|
    ensures |p.message.body| == |m.body| && (k in p.seen ==> p.message.body[k] == m.body[k])
    ensures Matches(Slot(p.message.(body := p.message.body[k := m.body[k]]), p.seen + {k}), m)
  {
  }

  lemma RangeFirst(start: nat, end: nat)
    requires start < end
    ensures Range(start, end) == {start} + Range(start + 1, end)
  {
  }

  lemma InsertSlice(a: Assembly, pool: Pool, history: seq<Message>, k: nat, offset: nat, length: nat)
    requires Numbered(history) && Consistent(a, history) && pool.Valid()
    requires k < |history| && offset + length <= |history[k].body|
    ensures var (b, q, v) := Insert(a, pool, Slice(history[k], offset, length), history[k].epoch);
      && !v.Rejected? && q.Valid() && Consistent(b, history) && Grows(a, b) && b.next == a.next
      && (v.Accepted? ==> Covers(b, k, offset, offset + length))
  {
    var m := history[k];
    var f := Slice(m, offset, length);
    InsertKeeps(a, pool, f, m.epoch);
    if a.next <= k < a.next + MAX_PENDING && CanOpen(a, pool, f) {
      FillSlice(Open(a, f, m.epoch).pending[k], m, offset, length, 0);
    }
  }

  lemma {:induction false} AddSlices(a: Assembly, pool: Pool, fs: seq<Fragment>, epoch: nat, history: seq<Message>)
    requires Numbered(history) && Consistent(a, history) && pool.Valid()
    requires forall f :: f in fs ==> f.Fits() && IsSlice(f, epoch, history)
    ensures var (b, q, v) := AddAll(a, pool, fs, epoch);
      && !v.Rejected? && q.Valid() && Consistent(b, history) && Grows(a, b) && b.next == a.next
      && (v.Accepted? ==> CoversAll(b, fs))
    decreases |fs|
  {
    if fs != [] {
      var f := fs[0];
      assert f in fs;
      InsertSlice(a, pool, history, f.sequence, f.offset, |f.body|);
      var (b, q, v) := Insert(a, pool, f, epoch);
      AddSlices(b, q, fs[1..], epoch, history);
      var (c, _, later) := AddAll(b, q, fs[1..], epoch);
      GrowsTwice(a, b, c);
      if v.Accepted? && later.Accepted? { CoversMore(b, c, fs); }
    }
  }

  lemma CoversMore(b: Assembly, c: Assembly, fs: seq<Fragment>)
    requires fs != [] && Grows(b, c) && CoversAll(c, fs[1..])
    requires Covers(b, fs[0].sequence, fs[0].offset, fs[0].offset + |fs[0].body|)
    ensures CoversAll(c, fs)
  {
    GrowsCovers(b, c, fs[0].sequence, fs[0].offset, fs[0].offset + |fs[0].body|);
    assert fs == [fs[0]] + fs[1..];
  }

  /** An honest record is never rejected, spoils nothing, and is accepted only when every fragment of it is kept. */
  lemma AddCarried(a: Assembly, pool: Pool, data: seq<byte>, epoch: nat, history: seq<Message>)
    requires Numbered(history) && Consistent(a, history) && pool.Valid() && Carries(data, epoch, history)
    ensures var (b, q, v) := Add(a, pool, data, epoch);
      && !v.Rejected? && q.Valid() && Consistent(b, history) && Grows(a, b) && b.next == a.next
      && (v.Accepted? ==> CoversAll(b, Split(data).0))
  {
    AddSlices(a, pool, Split(data).0, epoch, history);
  }

  /** An encoded fragment reads back as that one fragment. */
  lemma SplitEncoded(m: Message, start: nat, end: nat)
    requires start <= end <= |m.body| <= MAX_BODY
    ensures Encode(m, start, end - start).Ok? && Slice(m, start, end - start).Fits()
    ensures var data := Encode(m, start, end - start).value; data != [] && Split(data) == ([Slice(m, start, end - start)], true)
  {
    assert Encode(m, start, end - start).Ok?;
    hide Encode, Parse, Slice;
    EncodeParse(m, start, end - start, []);
    var data := Encode(m, start, end - start).value;
    assert data + [] == data;
    var f := Slice(m, start, end - start);
    assert Parse(data) == Ok((f, []));
    assert Split([]) == ([], true);
    assert data != [];
    assert [f] + [] == [f];
  }

  /** A flight's record carries one slice of one message. */
  lemma EncodedCarries(m: Message, start: nat, end: nat, history: seq<Message>)
    requires m.sequence < |history| && history[m.sequence] == m
    requires start <= end <= |m.body| <= MAX_BODY
    ensures Carries(Encode(m, start, end - start).value, m.epoch, history)
    ensures Split(Encode(m, start, end - start).value).0 == [Slice(m, start, end - start)]
  {
    SplitEncoded(m, start, end);
    hide Encode, Split;
  }

  // ----- delivery -----

  lemma PopExact(a: Assembly, history: seq<Message>)
    requires Consistent(a, history) && Ready(a)
    ensures Pop(a).0 == history[a.next] && Consistent(Pop(a).1, history) && Grows(a, Pop(a).1)
  {
    PopKeeps(a);
    FullOrSmaller(a.pending[a.next].seen, |history[a.next].body|);
    assert a.pending[a.next].message.body == history[a.next].body;
  }

  /** The next message can be delivered exactly when some fragment of it came and no byte is missing. */
  lemma ReadyWhenComplete(a: Assembly, history: seq<Message>)
    requires Consistent(a, history) && Numbered(history)
    ensures Ready(a) <==> a.next in a.pending && Covers(a, a.next, 0, |history[a.next].body|)
  {
    if a.next in a.pending {
      FullOrSmaller(a.pending[a.next].seen, |history[a.next].body|);
    }
  }

  lemma PopSmaller(a: Assembly)
    requires Ready(a)
    ensures |Pop(a).1.pending| < |a.pending|
  {
    assert a.pending.Keys == Pop(a).1.pending.Keys + {a.next};
  }

  /** Delivers every message that is complete and next. */
  function Drain(a: Assembly): (r: (Assembly, seq<Message>))
    ensures !Ready(r.0)
    decreases |a.pending|
  {
    if !Ready(a) then (a, []) else
    var (m, b) := Pop(a);
    PopSmaller(a);
    var (c, rest) := Drain(b);
    (c, [m] + rest)
  }

  lemma {:induction false} DrainExact(a: Assembly, history: seq<Message>)
    requires Consistent(a, history)
    ensures var (b, out) := Drain(a);
      Consistent(b, history) && Grows(a, b) && out == history[a.next..b.next]
    decreases |a.pending|
  {
    if Ready(a) {
      PopExact(a, history);
      PopSmaller(a);
      var b := Pop(a).1;
      DrainExact(b, history);
      var (c, rest) := Drain(b);
      assert Drain(a) == (c, [history[a.next]] + rest);
      DrainStep(a, b, c, history);
    }
  }

  lemma DrainStep(a: Assembly, b: Assembly, c: Assembly, history: seq<Message>)
    requires a.next + 1 == b.next <= c.next <= |history| && Grows(a, b) && Grows(b, c)
    ensures Grows(a, c) && [history[a.next]] + history[b.next..c.next] == history[a.next..c.next]
  {
    GrowsTwice(a, b, c);
  }

  // ----- whole runs -----

  datatype Event = Arrive(data: seq<byte>, epoch: nat, pool: Pool) | Deliver

  function Run(a: Assembly, events: seq<Event>): (Assembly, seq<Message>)
    decreases |events|
  {
    if events == [] then (a, [])
    else match events[0]
      case Arrive(data, epoch, pool) => Run(Add(a, pool, data, epoch).0, events[1..])
      case Deliver =>
        if Ready(a) then
          var (m, b) := Pop(a);
          var (c, rest) := Run(b, events[1..]);
          (c, [m] + rest)
        else Run(a, events[1..])
  }

  ghost predicate Honest(events: seq<Event>, history: seq<Message>) {
    forall e :: e in events && e.Arrive? ==> Carries(e.data, e.epoch, history) && e.pool.Valid()
  }

  /** In any arrival order, with overlaps, duplicates and refused memory, the messages come out unchanged, once each and in order. */
  lemma {:induction false} DeliversHistoryInOrder(a: Assembly, events: seq<Event>, history: seq<Message>)
    requires Numbered(history) && Consistent(a, history) && Honest(events, history)
    ensures var (b, out) := Run(a, events);
      Consistent(b, history) && a.next <= b.next && out == history[a.next..b.next]
    decreases |events|
  {
    if events != [] {
      var rest := events[1..];
      match events[0]
      case Arrive(data, epoch, pool) =>
        assert events[0] in events;
        AddCarried(a, pool, data, epoch, history);
        DeliversHistoryInOrder(Add(a, pool, data, epoch).0, rest, history);
      case Deliver =>
        if Ready(a) {
          PopExact(a, history);
          DeliversHistoryInOrder(Pop(a).1, rest, history);
        } else {
          DeliversHistoryInOrder(a, rest, history);
        }
    }
  }

  // ----- and nothing is held back -----

  /** The assembly that a run's event j meets. */
  function Before(a: Assembly, events: seq<Event>, j: nat): Assembly
    requires j <= |events|
    decreases j
  {
    if j == 0 then a else
    var b := match events[0]
             case Arrive(data, epoch, pool) => Add(a, pool, data, epoch).0
             case Deliver => if Ready(a) then Pop(a).1 else a;
    Before(b, events[1..], j - 1)
  }

  ghost predicate AcceptedAt(a: Assembly, events: seq<Event>, j: nat) {
    && j < |events| && events[j].Arrive?
    && Add(Before(a, events, j), events[j].pool, events[j].data, events[j].epoch).2.Accepted?
  }

  /** One event: nothing known is lost. */
  lemma StepGrows(a: Assembly, events: seq<Event>, history: seq<Message>)
    requires Numbered(history) && Consistent(a, history) && Honest(events, history) && events != []
    ensures var b := Before(a, events, 1);
      && Consistent(b, history) && (a == b || Grows(a, b)) && Run(a, events).0 == Run(b, events[1..]).0
      && Honest(events[1..], history) && (events[0].Arrive? && AcceptedAt(a, events, 0) ==> CoversAll(b, Split(events[0].data).0))
    ensures forall j :: 0 < j < |events| ==> Before(a, events, j) == Before(Before(a, events, 1), events[1..], j - 1)
  {
    assert events[0] in events;
    var b := Before(a, events, 1);
    assert b == Before(b, events[1..], 0);
    match events[0] {
      case Arrive(data, epoch, pool) =>
        AddCarried(a, pool, data, epoch, history);
      case Deliver => if Ready(a) { PopExact(a, history); }
    }
    hide Consistent, Grows, Add, Split, Carries;
  }

  lemma {:induction false} RunGrows(a: Assembly, events: seq<Event>, history: seq<Message>)
    requires Numbered(history) && Consistent(a, history) && Honest(events, history)
    ensures Grows(a, Run(a, events).0) && Consistent(Run(a, events).0, history)
    decreases |events|
  {
    if events != [] {
      StepGrows(a, events, history);
      hide Consistent, Grows, Run, Before, Honest, Numbered;
      var b := Before(a, events, 1);
      RunGrows(b, events[1..], history);
      GrowsThrough(a, b, Run(a, events).0);
    }
  }

  lemma GrowsThrough(a: Assembly, b: Assembly, c: Assembly)
    requires (a == b || Grows(a, b)) && Grows(b, c)
    ensures Grows(a, c)
  {
  }

  /** What was accepted stays, buffered or delivered. */
  lemma {:induction false} AcceptedStays(a: Assembly, events: seq<Event>, history: seq<Message>, j: nat)
    requires Numbered(history) && Consistent(a, history) && Honest(events, history) && AcceptedAt(a, events, j)
    ensures CoversAll(Run(a, events).0, Split(events[j].data).0)
    decreases |events|
  {
    StepGrows(a, events, history);
    hide Consistent, Add, Run, Before, Honest, Numbered, Split, Grows, Covers;
    var b := Before(a, events, 1);
    if j == 0 {
      RunGrows(b, events[1..], history);
      var c := Run(a, events).0;
      forall f | f in Split(events[0].data).0 ensures Covers(c, f.sequence, f.offset, f.offset + |f.body|) {
        GrowsCovers(b, c, f.sequence, f.offset, f.offset + |f.body|);
      }
    } else {
      assert AcceptedAt(b, events[1..], j - 1);
      AcceptedStays(b, events[1..], history, j - 1);
    }
  }

  /** The record carries byte i of message k; of an empty message, position 0. */
  ghost predicate Brings(data: seq<byte>, k: nat, i: nat) {
    exists f :: f in Split(data).0 && f.sequence == k && (f.offset <= i < f.offset + |f.body| || (i == 0 && f.total == 0))
  }

  ghost predicate ByteAccepted(a: Assembly, events: seq<Event>, k: nat, i: nat) {
    exists j: nat :: AcceptedAt(a, events, j) && Brings(events[j].data, k, i)
  }

  /** Every byte of the message was in some record that was accepted. */
  ghost predicate AllAccepted(a: Assembly, events: seq<Event>, m: Message) {
    forall i: nat :: i < |m.body| || i == 0 ==> ByteAccepted(a, events, m.sequence, i)
  }

  ghost predicate ByteHeld(b: Assembly, k: nat, i: nat, size: nat) {
    k < b.next || (k in b.pending && (i < size ==> i in b.pending[k].seen))
  }

  lemma FragmentHeld(b: Assembly, f: Fragment, i: nat)
    requires Covers(b, f.sequence, f.offset, f.offset + |f.body|) && (f.offset <= i < f.offset + |f.body| || (i == 0 && f.total == 0))
    ensures ByteHeld(b, f.sequence, i, f.total)
  {
  }

  lemma ByteCovered(a: Assembly, events: seq<Event>, history: seq<Message>, k: nat, i: nat)
    requires Numbered(history) && Consistent(a, history) && Honest(events, history) && k < |history| && ByteAccepted(a, events, k, i)
    ensures ByteHeld(Run(a, events).0, k, i, |history[k].body|)
  {
    hide Numbered, Consistent, Run, Carries, Honest, Add, Before, Split, Covers, ByteHeld;
    var j: nat :| AcceptedAt(a, events, j) && Brings(events[j].data, k, i);
    AcceptedStays(a, events, history, j);
    var f :| f in Split(events[j].data).0 && f.sequence == k && (f.offset <= i < f.offset + |f.body| || (i == 0 && f.total == 0));
    SlicesFit(events, history, j, f);
    FragmentHeld(Run(a, events).0, f, i);
  }

  lemma SlicesFit(events: seq<Event>, history: seq<Message>, j: nat, f: Fragment)
    requires Honest(events, history) && j < |events| && events[j].Arrive? && f in Split(events[j].data).0
    ensures f.sequence < |history| && f.total == |history[f.sequence].body|
  {
    assert events[j] in events;
    hide Split;
    assert IsSlice(f, events[j].epoch, history);
  }

  lemma WholeCovered(a: Assembly, events: seq<Event>, history: seq<Message>, k: nat)
    requires Numbered(history) && Consistent(a, history) && Honest(events, history) && k < |history| && AllAccepted(a, events, history[k])
    ensures Covers(Run(a, events).0, k, 0, |history[k].body|)
  {
    hide Consistent, Run, Honest, ByteAccepted;
    var b, size := Run(a, events).0, |history[k].body|;
    forall i: nat | i < size || i == 0 ensures ByteHeld(b, k, i, size) {
      assert ByteAccepted(a, events, history[k].sequence, i);
      ByteCovered(a, events, history, k, i);
    }
    assert ByteHeld(b, k, 0, size);
    if k >= b.next {
      forall i | i in Range(0, size) ensures i in b.pending[k].seen { assert ByteHeld(b, k, i, size); }
    }
  }

  lemma CompleteIsReady(c: Assembly, history: seq<Message>)
    requires Numbered(history) && Consistent(c, history) && c.next < |history| && Covers(c, c.next, 0, |history[c.next].body|)
    ensures Ready(c)
  {
    ReadyWhenComplete(c, history);
  }

  lemma Joined(history: seq<Message>, x: nat, y: nat)
    requires x <= y <= |history|
    ensures history[0..x] + history[x..y] == history[..y]
  {
  }

  /** Once every byte of the first n messages has been accepted, in whatever order, all n are delivered. */
  lemma AcceptedMessagesComeOut(events: seq<Event>, history: seq<Message>, n: nat)
    requires Numbered(history) && Honest(events, history) && n <= |history|
    requires forall k :: 0 <= k < n ==> AllAccepted(Assembly(0, map[], 0), events, history[k])
    ensures var (b, out) := Run(Assembly(0, map[], 0), events); var (c, rest) := Drain(b);
      n <= c.next <= |history| && out + rest == history[..c.next]
  {
    var a := Assembly(0, map[], 0);
    assert Consistent(a, history) by { SumNothing(0, MAX_PENDING); }
    DeliversHistoryInOrder(a, events, history);
    var (b, out) := Run(a, events);
    DrainExact(b, history);
    var (c, rest) := Drain(b);
    assert 0 <= b.next <= c.next <= |history|;
    hide Run, Drain, Honest, AllAccepted, Numbered, Consistent, Ready, Grows, Covers;
    Joined(history, b.next, c.next);
    if c.next < n {
      WholeCovered(a, events, history, c.next);
      GrowsCovers(b, c, c.next, 0, |history[c.next].body|);
      CompleteIsReady(c, history);
    }
  }

  // ----- limits -----

  lemma {:induction false} WindowSize(s: set<nat>, from: nat, n: nat)
    requires forall k :: k in s ==> from <= k < from + n
    ensures |s| <= n
  {
    if n > 0 {
      var t := s - {from + n - 1};
      WindowSize(t, from, n - 1);
      if from + n - 1 in s { assert s == t + {from + n - 1}; } else { assert s == t; }
    } else {
      assert s == {};
    }
  }

  lemma Limits(a: Assembly)
    requires Valid(a)
    ensures |a.pending| <= MAX_PENDING
    ensures 0 <= a.buffered <= 2 * MAX_BODY
  {
    WindowSize(a.pending.Keys, a.next, MAX_PENDING);
  }

  // ----- the object: bitmaps and counters instead of sets -----

  datatype Partial = Partial(message: Message, seen: seq<bv8>, remaining: int) {
    predicate Shaped() {
      |seen| == (|message.body| + 7) / 8
    }

    /** The set form this bitmap stands for. */
    ghost function View(): Slot
      requires Shaped()
    {
      Slot(message, Bits(seen, |message.body|))
    }

    ghost predicate Represents(s: Slot) {
      Shaped() && View() == s && remaining == |message.body| - |s.seen|
    }
  }

  /** Copies the fragment's bytes one by one, stopping at the first contradiction. */
  method CopyBytes(start: Partial, f: Fragment, ghost slot: Slot) returns (p: Partial, same: bool)
    requires f.Fits() && start.Represents(slot) && |start.message.body| == f.total
    ensures p.Represents(Fill(slot, f, 0).0) && same == Fill(slot, f, 0).1
  {
    hide Has, Bits, Mark;
    p := start;
    var i := 0;
    ghost var s := slot;
    while i < |f.body|
      invariant 0 <= i <= |f.body|
      invariant p.Represents(s) && |p.message.body| == f.total
      invariant Fill(slot, f, 0) == Fill(s, f, i)
    {
      var position := f.offset + i;
      HasBits(p.seen, position, f.total);
      if !Has(p.seen, position) {
        p, s := Store(p, position, f.body[i], s);
      } else if p.message.body[position] != f.body[i] {
        return p, false;
      }
      i := i + 1;
    }
    same := true;
  }

  method Store(p: Partial, position: nat, b: byte, ghost slot: Slot) returns (q: Partial, ghost s: Slot)
    requires p.Represents(slot) && position < |p.message.body| && position !in slot.seen
    ensures s == Slot(slot.message.(body := slot.message.body[position := b]), slot.seen + {position})
    ensures q.Represents(s)
  {
    hide Has, Bits, Mark;
    MarkBits(p.seen, position, |p.message.body|);
    q := Partial(p.message.(body := p.message.body[position := b]), Mark(p.seen, position), p.remaining - 1);
    s := q.View();
  }

  /** What is left of Add once a prefix of the record has gone in without being rejected. */
  ghost function Remaining(a: Assembly, pool: Pool, rest: seq<byte>, epoch: nat, accepted: bool): (Assembly, Pool, Verdict) {
    var (b, q, v) := AddAll(a, pool, Split(rest).0, epoch);
    (b, q, if v.Rejected? then v else if !Split(rest).1 then Rejected(Decode) else if accepted then v else Dropped)
  }

  lemma RemainingStep(a: Assembly, pool: Pool, rest: seq<byte>, epoch: nat, accepted: bool)
    requires rest != [] && Parse(rest).Ok?
    ensures var (b, q, v) := Fragments.Insert(a, pool, Parse(rest).value.0, epoch);
      Remaining(a, pool, rest, epoch, accepted) ==
      if v.Rejected? then (b, q, v) else Remaining(b, q, Parse(rest).value.1, epoch, accepted && v.Accepted?)
  {
    var (f, tail) := Parse(rest).value;
    var fs := Split(tail).0;
    assert Split(rest) == ([f] + fs, Split(tail).1);
    assert ([f] + fs)[1..] == fs;
  }

  lemma Cleared(a: Assembly)
    requires Valid(a)
    ensures Valid(Assembly(a.next, map[], 0))
  {
    SumNothing(a.next, MAX_PENDING);
  }

  class Reassembler {
    var next: nat
    var pending: map<nat, Partial>
    var buffered: int
    const budget: MemoryBudget?
    ghost var slots: map<nat, Slot>

    constructor (next: nat, budget: MemoryBudget?)
      requires next <= 0x1_0000
      ensures Valid() && State() == Assembly(next, map[], 0)
      ensures this.budget == budget
    {
      this.next, this.budget, pending, buffered, slots := next, budget, map[], 0, map[];
      new;
      SumNothing(next, MAX_PENDING);
    }

    ghost predicate Tied()
      reads this
    {
      pending.Keys == slots.Keys && forall k :: k in pending ==> pending[k].Represents(slots[k])
    }

    ghost function State(): Assembly
      reads this
    {
      Assembly(next, slots, buffered)
    }

    function Memory(): Pool
      reads budget
    {
      if budget == null then Unlimited else budget.State()
    }

    ghost function Frame(): set<object> {
      {this} + if budget == null then {} else {budget}
    }

    ghost predicate Valid()
      reads this
    {
      Tied() && Fragments.Valid(State())
    }

    method Pay(size: nat) returns (granted: bool)
      requires Memory().Valid()
      modifies if budget == null then {} else {budget}
      ensures granted == old(Memory().Grants(size))
      ensures Memory() == if granted then old(Memory().Reserve(size)) else old(Memory())
      ensures Memory().Valid()
    {
      if budget == null { return true; }
      granted := budget.Reserve(size);
    }

    method Refund(size: nat)
      modifies if budget == null then {} else {budget}
      ensures Memory() == old(Memory().Release(size))
    {
      if budget != null { budget.Release(size); }
    }

    /** Finds or makes the slot of the fragment's message, paying for a new one. */
    method OpenSlot(f: Fragment, epoch: nat) returns (present: bool)
      requires Valid() && Memory().Valid() && f.total <= MAX_BODY && next <= f.sequence < next + MAX_PENDING
      modifies Frame()
      ensures Tied() && present == old(CanOpen(State(), Memory(), f))
      ensures State() == if present then old(Open(State(), f, epoch)) else old(State())
      ensures Memory() == if present && f.sequence !in old(pending)
                          then old(Memory().Reserve(FragmentCost(f.total))) else old(Memory())
    {
      hide Bits;
      if f.sequence in pending { return true; }
      var futureBytes := buffered;
      if next in pending { futureBytes := futureBytes - |pending[next].message.body|; }
      if f.sequence != next && futureBytes + f.total > MAX_BODY { return false; }
      var granted := Pay(FragmentCost(f.total));
      if !granted { return false; }
      EmptyBits(f.total, f.total);
      pending := pending[f.sequence :=
        Partial(Message(f.typ, f.sequence, epoch, seq(f.total, _ => 0)), Empty(f.total), f.total)];
      slots := slots[f.sequence := Fresh(f, epoch)];
      buffered := buffered + f.total;
      return true;
    }

    method Insert(f: Fragment, epoch: nat) returns (verdict: Verdict)
      requires Valid() && Memory().Valid() && f.Fits()
      modifies Frame()
      ensures (State(), Memory(), verdict) == old(Fragments.Insert(State(), Memory(), f, epoch))
      ensures Valid() && Memory().Valid()
    {
      hide Bits, Fill, CanOpen, Fragments.Valid, Partial.Represents;
      InsertKeeps(State(), Memory(), f, epoch);
      if f.sequence < next { return Accepted; }
      if f.sequence - next >= MAX_PENDING { return Dropped; }
      if f.total > MAX_BODY { return Rejected(HandshakeLimit); }
      var present := OpenSlot(f, epoch);
      if !present { return Dropped; }
      verdict := Merge(f, epoch);
    }

    /** Adds the fragment's bytes to its message unless the two contradict each other. */
    method Merge(f: Fragment, epoch: nat) returns (verdict: Verdict)
      requires Tied() && f.Fits() && f.sequence in pending
      modifies `pending, `slots
      ensures Tied() && (verdict.Accepted? || verdict == Rejected(FragmentConflict))
      ensures var p := old(slots)[f.sequence];
        if p.message.typ != f.typ || p.message.epoch != epoch || |p.message.body| != f.total
        then slots == old(slots) && verdict.Rejected?
        else slots == old(slots)[f.sequence := Fill(p, f, 0).0] && (verdict.Accepted? <==> Fill(p, f, 0).1)
    {
      hide Bits, Fill;
      var p := pending[f.sequence];
      if p.message.typ != f.typ || p.message.epoch != epoch || |p.message.body| != f.total {
        return Rejected(FragmentConflict);
      }
      var same;
      p, same := CopyBytes(p, f, slots[f.sequence]);
      pending := pending[f.sequence := p];
      slots := slots[f.sequence := Fill(slots[f.sequence], f, 0).0];
      return if same then Accepted else Rejected(FragmentConflict);
    }

    method Add(data: seq<byte>, epoch: nat) returns (verdict: Verdict)
      requires Valid() && Memory().Valid()
      modifies Frame()
      ensures Valid() && Memory().Valid()
      ensures (State(), Memory(), verdict) == old(Fragments.Add(State(), Memory(), data, epoch))
    {
      if data == [] { return Rejected(Decode); }
      var accepted := true;
      var rest := data;
      ghost var whole := Fragments.Add(State(), Memory(), data, epoch);
      while rest != []
        invariant Valid() && Memory().Valid()
        invariant whole == Remaining(State(), Memory(), rest, epoch, accepted)
        decreases |rest|
      {
        var parsed := Parse(rest);
        if parsed.Err? { return Rejected(parsed.error); }
        RemainingStep(State(), Memory(), rest, epoch, accepted);
        rest := parsed.value.1;
        var v := Insert(parsed.value.0, epoch);
        if v.Rejected? { return v; }
        accepted := accepted && v.Accepted?;
      }
      return if accepted then Accepted else Dropped;
    }

    method Pop() returns (message: Option<Message>)
      requires Valid()
      modifies Frame()
      ensures Valid()
      ensures old(Ready(State())) ==>
        && (message, State()) == (Some(old(Fragments.Pop(State())).0), old(Fragments.Pop(State())).1)
        && Memory() == old(Memory().Release(Cost(State().pending[next])))
      ensures !old(Ready(State())) ==> message == None && State() == old(State()) && Memory() == old(Memory())
      ensures budget != null ==> Memory().Used() - Charge(State()) == old(Memory().Used() - Charge(State()))
    {
      hide Bits;
      if next > 65535 || next !in pending || pending[next].remaining != 0 { return None; }
      PopKeeps(State());
      var p := pending[next];
      pending, slots := pending - {next}, slots - {next};
      next := next + 1;
      buffered := buffered - |p.message.body|;
      Refund(FragmentCost(|p.message.body|));
      return Some(p.message);
    }

    /** Gives the whole charge back and forgets every partial message. */
    method Reset()
      requires Valid()
      modifies Frame()
      ensures Valid() && State() == Assembly(old(next), map[], 0)
      ensures Memory() == old(Memory().Release(Charge(State())))
    {
      hide Bits, Fragments.Valid;
      var k := next;
      ghost var paid := 0;
      while k < next + MAX_PENDING
        invariant next <= k <= next + MAX_PENDING && Valid() && State() == old(State())
        invariant paid == Sum(slots, next, k - next, Cost)
        invariant Memory() == old(Memory()).Release(paid)
      {
        if k in pending {
          paid := paid + Cost(slots[k]);
          Refund(FragmentCost(|pending[k].message.body|));
        }
        k := k + 1;
      }
      Cleared(State());
      pending, slots := map[], map[];
      buffered := 0;
    }
  }
}
