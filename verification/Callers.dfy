/** The callers that wait for the writer of a shared socket: what an error tells a caller about its packet. */
module Callers {
  import opened Wire
  import T = Transport

  const MAX_QUEUED := 16

  /** How a caller got its answer: refused before it was queued, told by the writer, or no longer willing to wait for that. */
  datatype Way = Refused | Told | TimedOut | Stopped

  datatype Caller = Offering(w: T.Write) | Awaiting(w: T.Write) | Returned(w: T.Write, ok: bool, way: Way)

  /** A direct transport has one sender, which writes for itself and cannot leave. sent are the writes whose packet is on the network. */
  datatype Desk = Desk(direct: bool, queue: seq<T.Write>, callers: map<nat, Caller>, results: map<nat, bool>, sent: set<nat>)

  datatype World = World(t: T.World, d: Desk)

  datatype Event =
    | Call(w: T.Write) | Refuse(id: nat) | Enqueue(id: nat) | Answer(id: nat) | GiveUp(id: nat, now: int) | Leave(id: nat)
    | Take | Socket(step: T.Event)

  function Initial(direct: bool): World { World(T.Initial(), Desk(direct, [], map[], map[], {})) }

  /** The session, or the caller of the application write, has closed its signal. */
  predicate Unwanted(t: T.World, w: T.Write) {
    t.done || exists i :: 1 <= i < |w.signals| && w.signals[i].Some? && w.signals[i].value in t.closed
  }

  /** A step of one of the callers. */
  function DeskNext(t: T.World, d: Desk, e: Event): Option<Desk> {
    match e
    case Call(w) => if w.id in d.callers || |w.signals| != 3 then None else Some(d.(callers := d.callers[w.id := Offering(w)]))
    case Refuse(id) =>
      // It is late or unwanted, or there is no room in time.
      if id in d.callers && d.callers[id].Offering? && !d.direct
      then Some(d.(callers := d.callers[id := Returned(d.callers[id].w, false, Refused)])) else None
    case Enqueue(id) =>
      if id in d.callers && d.callers[id].Offering? && |d.queue| < MAX_QUEUED
      then Some(d.(queue := d.queue + [d.callers[id].w], callers := d.callers[id := Awaiting(d.callers[id].w)])) else None
    case Answer(id) =>
      if id in d.callers && d.callers[id].Awaiting? && id in d.results
      then Some(d.(callers := d.callers[id := Returned(d.callers[id].w, d.results[id], Told)])) else None
    case GiveUp(id, now) =>
      // A write that may be retried waits without a timer.
      if id in d.callers && d.callers[id].Awaiting? && !d.direct && !d.callers[id].w.retry && now >= d.callers[id].w.deadline
      then Some(d.(callers := d.callers[id := Returned(d.callers[id].w, false, TimedOut)])) else None
    case Leave(id) =>
      if id in d.callers && d.callers[id].Awaiting? && !d.direct && Unwanted(t, d.callers[id].w)
      then Some(d.(callers := d.callers[id := Returned(d.callers[id].w, false, Stopped)])) else None
    case _ => None
  }

  /** What a step of the socket's own machine does to the callers' side: a packet goes out, a result is posted. */
  function Served(d: Desk, p: T.Writer, step: T.Event): Desk {
    if step.Send? && p.Writing? then d.(sent := if step.ok then d.sent + {p.w.id} else d.sent)
    else if step.Unlock? && p.Leaving? then d.(results := d.results[p.w.id := p.ok])
    else d
  }

  function Next(s: World, e: Event): Option<World> {
    match e
    case Take =>
      if s.d.queue == [] then None
      else
        var t := T.Next(s.t, T.Begin(s.d.queue[0]));
        if t.None? then None else Some(World(t.value, s.d.(queue := s.d.queue[1..])))
    case Socket(step) =>
      if step.Begin? then None
      else
        var t := T.Next(s.t, step);
        if t.None? then None else Some(World(t.value, Served(s.d, s.t.writer, step)))
    case _ =>
      var d := DeskNext(s.t, s.d, e);
      if d.None? then None else Some(s.(d := d.value))
  }

  function Run(s: World, events: seq<Event>): Option<World>
    decreases |events|
  {
    if events == [] then Some(s)
    else
      var n := Next(s, events[0]);
      if n.None? then None else Run(n.value, events[1..])
  }

  // ----- where a write is -----

  /** The writer has put the packet out. */
  predicate HasSent(p: T.Writer) { (p.Wrote? || p.Relocked? || p.Leaving?) && p.ok }

  predicate WasQueued(c: Caller) { c.Awaiting? || (c.Returned? && !c.way.Refused?) }

  ghost predicate Pending(d: Desk, w: T.Write) {
    w.id in d.callers && d.callers[w.id].w == w && WasQueued(d.callers[w.id]) && w.id !in d.results
  }

  /** A write is queued, with the writer, or answered, at most one of them, and only after its caller queued it. */
  ghost predicate Placed(p: T.Writer, d: Desk) {
    && (forall i, j :: 0 <= i < j < |d.queue| ==> d.queue[i].id != d.queue[j].id)
    && (forall i :: 0 <= i < |d.queue| ==> Pending(d, d.queue[i]) && d.queue[i].id !in d.sent && (p.Idle? || d.queue[i].id != p.w.id))
    && (!p.Idle? ==> Pending(d, p.w) && (p.w.id in d.sent <==> HasSent(p)))
    && (forall id :: id in d.results ==> id in d.callers && WasQueued(d.callers[id]) && (d.results[id] <==> id in d.sent))
    && (forall id :: id in d.sent ==> id in d.callers && WasQueued(d.callers[id]))
  }

  ghost predicate Reported(t: T.World, d: Desk, c: Caller) {
    c.Returned? ==>
      && (c.way.Told? ==> c.w.id in d.results && c.ok == d.results[c.w.id])
      && (!c.way.Told? ==> !c.ok && !d.direct)
      && (c.way.TimedOut? ==> !c.w.retry)
      && (c.way.Stopped? ==> Unwanted(t, c.w))
  }

  ghost predicate Inv(s: World) {
    Placed(s.t.writer, s.d) && forall id :: id in s.d.callers ==> s.d.callers[id].w.id == id && Reported(s.t, s.d, s.d.callers[id])
  }

  lemma WriterMoves(t: T.World, e: T.Event)
    requires T.Next(t, e).Some? && !e.Begin?
    ensures var p, q := t.writer, T.Next(t, e).value.writer;
      && (p.Idle? ==> q.Idle?) && (!q.Idle? ==> q.w == p.w)
      && (q.Idle? && !p.Idle? <==> e.Unlock? && p.Leaving?)
      && (HasSent(q) <==> if e.Unlock? then false else HasSent(p) || (p.Writing? && e == T.Send(true)))
    ensures t.closed <= T.Next(t, e).value.closed && (t.done ==> T.Next(t, e).value.done)
  {
  }

  lemma StillReported(t: T.World, u: T.World, d: Desk, c: Caller)
    requires Reported(t, d, c) && t.closed <= u.closed && (t.done ==> u.done)
    ensures Reported(u, d, c)
  {
  }

  lemma ServedKeeps(s: World, e: T.Event)
    requires Inv(s) && T.Next(s.t, e).Some? && !e.Begin?
    ensures Inv(World(T.Next(s.t, e).value, Served(s.d, s.t.writer, e)))
  {
    WriterMoves(s.t, e);
    hide T.Next, Unwanted;
    var t, d := T.Next(s.t, e).value, Served(s.d, s.t.writer, e);
    assert d.callers == s.d.callers;
    forall id | id in d.callers ensures Reported(t, d, d.callers[id]) {
      StillReported(s.t, t, s.d, d.callers[id]);
    }
  }

  lemma TakeKeeps(s: World)
    requires Inv(s) && Next(s, Take).Some?
    ensures Inv(Next(s, Take).value)
  {
    var t := Next(s, Take).value.t;
    assert t == s.t.(writer := T.Waiting(s.d.queue[0]));
    hide T.Next, Unwanted;
    forall id | id in s.d.callers ensures Reported(t, Next(s, Take).value.d, s.d.callers[id]) {
      StillReported(s.t, t, s.d, s.d.callers[id]);
    }
  }

  lemma EnqueueKeeps(s: World, id: nat)
    requires Inv(s) && DeskNext(s.t, s.d, Enqueue(id)).Some?
    ensures Inv(s.(d := DeskNext(s.t, s.d, Enqueue(id)).value))
  {
    hide Unwanted;
    assert forall k :: 0 <= k < |s.d.queue| ==> Pending(s.d, s.d.queue[k]);
  }

  lemma CallKeeps(s: World, e: Event)
    requires Inv(s) && DeskNext(s.t, s.d, e).Some? && (e.Call? || e.Refuse?)
    ensures Inv(s.(d := DeskNext(s.t, s.d, e).value))
  {
    hide Unwanted, HasSent;
  }

  /** A caller returns: nothing else moves. */
  lemma ReturnKeeps(s: World, e: Event)
    requires Inv(s) && DeskNext(s.t, s.d, e).Some? && (e.Answer? || e.GiveUp? || e.Leave?)
    ensures Inv(s.(d := DeskNext(s.t, s.d, e).value))
  {
    hide Unwanted, HasSent;
    var d := DeskNext(s.t, s.d, e).value;
    var c := d.callers[e.id];
    assert s.d.callers[e.id].Awaiting? && d == s.d.(callers := s.d.callers[e.id := c]) && c.Returned? && !c.way.Refused? && c.w == s.d.callers[e.id].w;
    assert Reported(s.t, d, c);
    hide DeskNext;
    assert forall w :: Pending(s.d, w) ==> Pending(d, w);
    assert Placed(s.t.writer, d);
  }

  lemma StepKeeps(s: World, e: Event)
    requires Inv(s) && Next(s, e).Some?
    ensures Inv(Next(s, e).value)
  {
    hide Inv, DeskNext, Served, T.Next;
    match e
    case Take => TakeKeeps(s);
    case Socket(step) => ServedKeeps(s, step);
    case Enqueue(id) => EnqueueKeeps(s, id);
    case Call(_) => CallKeeps(s, e);
    case Refuse(_) => CallKeeps(s, e);
    case _ => ReturnKeeps(s, e);
  }

  lemma {:induction false} RunKeeps(s: World, events: seq<Event>)
    requires Inv(s) && Run(s, events).Some?
    ensures Inv(Run(s, events).value)
    decreases |events|
  {
    hide Inv, Next;
    if events != [] {
      StepKeeps(s, events[0]);
      RunKeeps(Next(s, events[0]).value, events[1..]);
    }
  }

  // ----- what an error means -----

  /** In every interleaving, success means the packet went out. An error means that it did not, unless the caller stopped waiting
      for the writer: at the deadline of a write that is not retried, or because its session, or the transport, was shut down. */
  lemma ErrorMeansUnsent(direct: bool, events: seq<Event>, id: nat)
    requires Run(Initial(direct), events).Some?
    requires var d := Run(Initial(direct), events).value.d; id in d.callers && d.callers[id].Returned?
    ensures var s := Run(Initial(direct), events).value;
      var c := s.d.callers[id];
      && (c.ok ==> id in s.d.sent)
      && (!c.ok && id in s.d.sent ==> !s.d.direct && ((c.way.TimedOut? && !c.w.retry) || (c.way.Stopped? && Unwanted(s.t, c.w))))
  {
    RunKeeps(Initial(direct), events);
  }

  lemma {:induction false} StaysDirect(s: World, events: seq<Event>)
    requires Run(s, events).Some?
    ensures Run(s, events).value.d.direct == s.d.direct
    decreases |events|
  {
    if events != [] {
      hide T.Next;
      StaysDirect(Next(s, events[0]).value, events[1..]);
    }
  }

  /** A client writes for itself: its errors always mean that nothing was sent. */
  lemma DirectErrorsAreFinal(events: seq<Event>, id: nat)
    requires Run(Initial(true), events).Some?
    requires var d := Run(Initial(true), events).value.d; id in d.callers && d.callers[id].Returned?
    ensures var s := Run(Initial(true), events).value; s.d.callers[id].ok <==> id in s.d.sent
  {
    ErrorMeansUnsent(true, events, id);
    StaysDirect(Initial(true), events);
  }

  // ----- and both exceptions happen -----

  lemma {:induction false} RunThen(s: World, events: seq<Event>, e: Event)
    requires Run(s, events).Some?
    ensures Run(s, events + [e]) == Next(Run(s, events).value, e)
    decreases |events|
  {
    hide Next;
    if events == [] {
      assert [e][1..] == [];
    } else {
      assert (events + [e])[1..] == events[1..] + [e];
      RunThen(Next(s, events[0]).value, events[1..], e);
    }
  }

  lemma Extend(events: seq<Event>, s: World, e: Event, u: World) returns (more: seq<Event>)
    requires Run(Initial(false), events) == Some(s) && Next(s, e) == Some(u)
    ensures Run(Initial(false), more) == Some(u)
  {
    hide Next;
    RunThen(Initial(false), events, e);
    more := events + [e];
  }

  function Waits(w: T.Write, queue: seq<T.Write>, sent: set<nat>): Desk { Desk(false, queue, map[w.id := Awaiting(w)], map[], sent) }

  /** The world with nothing closed and the writer here. */
  function Open(holder: T.Holder, active: seq<Option<T.Signal>>, deadline: T.Deadline, p: T.Writer, d: Desk): World {
    World(T.World(holder, {}, false, active, deadline, p, map[]), d)
  }

  lemma Taken(w: T.Write) returns (events: seq<Event>)
    requires |w.signals| == 3
    ensures Run(Initial(false), events) == Some(Open(T.Nobody, T.NO_SIGNALS, T.Unset, T.Waiting(w), Waits(w, [], {})))
  {
    Nothing();
    hide Run;
    var called := Open(T.Nobody, T.NO_SIGNALS, T.Unset, T.Idle, Desk(false, [], map[w.id := Offering(w)], map[], {}));
    var queued := Open(T.Nobody, T.NO_SIGNALS, T.Unset, T.Idle, Waits(w, [w], {}));
    assert [] + [w] == [w] && [w][1..] == [];
    assert map[w.id := Offering(w)][w.id := Awaiting(w)] == map[w.id := Awaiting(w)];
    events := Extend([], Initial(false), Call(w), called);
    events := Extend(events, called, Enqueue(w.id), queued);
    events := Extend(events, queued, Take, Open(T.Nobody, T.NO_SIGNALS, T.Unset, T.Waiting(w), Waits(w, [], {})));
  }

  lemma Started(w: T.Write) returns (events: seq<Event>)
    requires |w.signals| == 3
    ensures Run(Initial(false), events) == Some(Open(T.TheWriter, T.NO_SIGNALS, T.Unset, T.InTime(w, {}), Waits(w, [], {})))
  {
    hide Run;
    var none, d := T.NO_SIGNALS, Waits(w, [], {});
    events := Taken(w);
    events := Extend(events, Open(T.Nobody, none, T.Unset, T.Waiting(w), d), Socket(T.Lock), Open(T.TheWriter, none, T.Unset, T.Locked(w, {}), d));
    events := Extend(events, Open(T.TheWriter, none, T.Unset, T.Locked(w, {}), d), Socket(T.Check), Open(T.TheWriter, none, T.Unset, T.Checked(w, {}), d));
    events := Extend(events, Open(T.TheWriter, none, T.Unset, T.Checked(w, {}), d), Socket(T.CheckTime(w.deadline - 1)),
                     Open(T.TheWriter, none, T.Unset, T.InTime(w, {}), d));
  }

  /** The writer sends the packet, and the caller has not been told yet. */
  lemma SentAndWaiting(w: T.Write) returns (events: seq<Event>)
    requires |w.signals| == 3
    ensures Run(Initial(false), events) ==
      Some(Open(T.Nobody, w.signals, T.Own(w.deadline), T.Wrote(w, {}, true), Waits(w, [], {w.id})))
  {
    hide Run;
    var own, d := T.Own(w.deadline), Waits(w, [], {});
    assert {} + {w.id} == {w.id};
    events := Started(w);
    events := Extend(events, Open(T.TheWriter, T.NO_SIGNALS, T.Unset, T.InTime(w, {}), d), Socket(T.Arm(true)),
                     Open(T.TheWriter, T.NO_SIGNALS, own, T.Armed(w, {}), d));
    events := Extend(events, Open(T.TheWriter, T.NO_SIGNALS, own, T.Armed(w, {}), d), Socket(T.Store), Open(T.TheWriter, w.signals, own, T.Stored(w, {}), d));
    events := Extend(events, Open(T.TheWriter, w.signals, own, T.Stored(w, {}), d), Socket(T.Unlock), Open(T.Nobody, w.signals, own, T.Writing(w, {}), d));
    events := Extend(events, Open(T.Nobody, w.signals, own, T.Writing(w, {}), d), Socket(T.Send(true)),
                     Open(T.Nobody, w.signals, own, T.Wrote(w, {}, true), Waits(w, [], {w.id})));
  }

  lemma Nothing()
    ensures Run(Initial(false), []) == Some(Initial(false))
  {
  }

  /** Any write that is not retried can time out after its packet went out. */
  lemma TimesOutAfterSending(w: T.Write) returns (events: seq<Event>)
    requires |w.signals| == 3 && !w.retry
    ensures Run(Initial(false), events).Some?
    ensures var d := Run(Initial(false), events).value.d;
      w.id in d.sent && w.id in d.callers && d.callers[w.id] == Returned(w, false, TimedOut)
  {
    events := SentAndWaiting(w);
    hide Run;
    var s := Open(T.Nobody, w.signals, T.Own(w.deadline), T.Wrote(w, {}, true), Waits(w, [], {w.id}));
    events := Extend(events, s, GiveUp(w.id, w.deadline), s.(d := s.d.(callers := s.d.callers[w.id := Returned(w, false, TimedOut)])));
  }

  /** So can one whose transport is shut down while it waits, retried or not. */
  lemma StopsAfterSending(w: T.Write) returns (events: seq<Event>)
    requires |w.signals| == 3
    ensures Run(Initial(false), events).Some?
    ensures var d := Run(Initial(false), events).value.d;
      w.id in d.sent && w.id in d.callers && d.callers[w.id] == Returned(w, false, Stopped)
  {
    events := SentAndWaiting(w);
    hide Run;
    var s := Open(T.Nobody, w.signals, T.Own(w.deadline), T.Wrote(w, {}, true), Waits(w, [], {w.id}));
    var u := s.(t := s.t.(done := true));
    events := Extend(events, s, Socket(T.Shutdown), u);
    events := Extend(events, u, Leave(w.id), u.(d := u.d.(callers := u.d.callers[w.id := Returned(w, false, Stopped)])));
  }
}
