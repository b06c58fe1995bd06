/** Cancelling writes on a shared socket: one lock guards the socket's deadline and the signals of the write under way. */
module Transport {
  import opened Wire

  type Signal = nat

  /** signals are its cancel, stopped and cancelled channels, None for one that was not given. */
  datatype Write = Write(id: nat, deadline: int, signals: seq<Option<Signal>>, retry: bool)

  const NO_SIGNALS: seq<Option<Signal>> := [None, None, None]

  /** A deadline some write installed for itself, or one forced by cancelling a signal. */
  datatype Deadline = Unset | Own(time: int) | Forced(time: int, signal: Signal)

  /** Where the writer is; atLock are the signals already closed when it took the lock. */
  datatype Writer =
    | Idle
    | Waiting(w: Write)
    | Locked(w: Write, atLock: set<Signal>)
    | Checked(w: Write, atLock: set<Signal>)
    | InTime(w: Write, atLock: set<Signal>)
    | Armed(w: Write, atLock: set<Signal>)
    | Stored(w: Write, atLock: set<Signal>)
    | Writing(w: Write, atLock: set<Signal>)
    | Wrote(w: Write, atLock: set<Signal>, ok: bool)
    | Relocked(w: Write, atLock: set<Signal>, ok: bool)
    | Leaving(w: Write, ok: bool)

  datatype Canceller = Asking(signal: Signal) | Holding(signal: Signal) | Closing(signal: Signal) | Done(signal: Signal)

  datatype Holder = Nobody | TheWriter | ACanceller(id: nat)

  datatype World = World(
    holder: Holder, closed: set<Signal>, done: bool, active: seq<Option<Signal>>, deadline: Deadline,
    writer: Writer, cancellers: map<nat, Canceller>)

  datatype Event =
    | Begin(w: Write) | Lock | Check | CheckTime(now: int) | Arm(ok: bool) | Store | Unlock | Send(ok: bool) | Relock | Clear
    | Cancel(id: nat, signal: Signal) | CancelLock(id: nat) | CancelClose(id: nat) | CancelForce(id: nat, now: int, ok: bool) | CancelUnlock(id: nat)
    | CloseElsewhere(signal: Signal) | Shutdown

  function Initial(): World { World(Nobody, {}, false, NO_SIGNALS, Unset, Idle, map[]) }

  predicate Stopped(w: Write, closed: set<Signal>) {
    exists i :: 0 <= i < |w.signals| && w.signals[i].Some? && w.signals[i].value in closed
  }

  predicate CancellerAt(s: World, id: nat) { id in s.cancellers && s.holder == ACanceller(id) }

  /** The state after one step of one goroutine, None when that step is not enabled. */
  function Next(s: World, e: Event): Option<World> {
    match e
    case Begin(w) => if s.writer.Idle? && |w.signals| == 3 then Some(s.(writer := Waiting(w))) else None
    case Lock =>
      if s.writer.Waiting? && s.holder.Nobody? then Some(s.(holder := TheWriter, writer := Locked(s.writer.w, s.closed))) else None
    case Check =>
      if !s.writer.Locked? then None
      else if s.done || Stopped(s.writer.w, s.closed) then Some(s.(writer := Leaving(s.writer.w, false)))
      else Some(s.(writer := Checked(s.writer.w, s.writer.atLock)))
    case CheckTime(now) =>
      if !s.writer.Checked? then None
      else if now >= s.writer.w.deadline then Some(s.(writer := Leaving(s.writer.w, false)))
      else Some(s.(writer := InTime(s.writer.w, s.writer.atLock)))
    case Arm(ok) =>
      if !s.writer.InTime? then None
      else if !ok then Some(s.(writer := Leaving(s.writer.w, false)))
      else Some(s.(deadline := Own(s.writer.w.deadline), writer := Armed(s.writer.w, s.writer.atLock)))
    case Store =>
      if s.writer.Armed? then Some(s.(active := s.writer.w.signals, writer := Stored(s.writer.w, s.writer.atLock))) else None
    case Unlock =>
      if s.writer.Stored? then Some(s.(holder := Nobody, writer := Writing(s.writer.w, s.writer.atLock)))
      else if s.writer.Leaving? then Some(s.(holder := Nobody, writer := Idle))
      else None
    case Send(ok) => if s.writer.Writing? then Some(s.(writer := Wrote(s.writer.w, s.writer.atLock, ok))) else None
    case Relock =>
      if s.writer.Wrote? && s.holder.Nobody? then Some(s.(holder := TheWriter, writer := Relocked(s.writer.w, s.writer.atLock, s.writer.ok))) else None
    case Clear => if s.writer.Relocked? then Some(s.(active := NO_SIGNALS, writer := Leaving(s.writer.w, s.writer.ok))) else None
    case Cancel(id, signal) => if id in s.cancellers then None else Some(s.(cancellers := s.cancellers[id := Asking(signal)]))
    case CancelLock(id) =>
      if id in s.cancellers && s.cancellers[id].Asking? && s.holder.Nobody?
      then Some(s.(holder := ACanceller(id), cancellers := s.cancellers[id := Holding(s.cancellers[id].signal)])) else None
    case CancelClose(id) =>
      if CancellerAt(s, id) && s.cancellers[id].Holding?
      then Some(s.(closed := s.closed + {s.cancellers[id].signal}, cancellers := s.cancellers[id := Closing(s.cancellers[id].signal)])) else None
    case CancelForce(id, now, ok) =>
      if !(CancellerAt(s, id) && s.cancellers[id].Closing?) then None
      else
        var signal := s.cancellers[id].signal;
        Some(s.(deadline := if Some(signal) in s.active && ok then Forced(now, signal) else s.deadline,
                cancellers := s.cancellers[id := Done(signal)]))
    case CancelUnlock(id) =>
      if CancellerAt(s, id) && s.cancellers[id].Done? then Some(s.(holder := Nobody, cancellers := s.cancellers - {id})) else None
    case CloseElsewhere(signal) => Some(s.(closed := s.closed + {signal}))
    case Shutdown => Some(s.(done := true))
  }

  // ----- isolation -----

  predicate HasLock(p: Writer) { p.Locked? || p.Checked? || p.InTime? || p.Armed? || p.Stored? || p.Relocked? || p.Leaving? }

  /** From the moment its signals are stored until they are cleared. */
  predicate InFlight(p: Writer) { p.Stored? || p.Writing? || p.Wrote? || p.Relocked? }

  predicate PassedCheck(p: Writer) { p.Checked? || p.InTime? || p.Armed? || InFlight(p) }

  /** The deadline is the write's own, or was forced by one of its own signals, which is closed. */
  predicate Undisturbed(s: World, w: Write) {
    s.deadline == Own(w.deadline) ||
    (s.deadline.Forced? && Some(s.deadline.signal) in w.signals && s.deadline.signal in s.closed)
  }

  ghost predicate Invariant(s: World) {
    && (HasLock(s.writer) <==> s.holder.TheWriter?)
    && (s.holder.ACanceller? ==> s.holder.id in s.cancellers)
    && (forall id :: id in s.cancellers ==> (s.cancellers[id].Asking? <==> s.holder != ACanceller(id)))
    && (forall id :: id in s.cancellers && (s.cancellers[id].Closing? || s.cancellers[id].Done?) ==> s.cancellers[id].signal in s.closed)
    && s.active == (if InFlight(s.writer) then s.writer.w.signals else NO_SIGNALS)
    && (s.writer.Armed? ==> s.deadline == Own(s.writer.w.deadline))
    && (InFlight(s.writer) ==> Undisturbed(s, s.writer.w))
    && (PassedCheck(s.writer) ==> !Stopped(s.writer.w, s.writer.atLock))
    && (s.writer.Locked? ==> s.writer.atLock <= s.closed)
  }

  lemma StoppedGrows(w: Write, a: set<Signal>, b: set<Signal>)
    requires a <= b && Stopped(w, a)
    ensures Stopped(w, b)
  {
  }

  predicate OfCanceller(e: Event) {
    e.Cancel? || e.CancelLock? || e.CancelClose? || e.CancelForce? || e.CancelUnlock? || e.CloseElsewhere? || e.Shutdown?
  }

  lemma CancellerKeeps(s: World, e: Event)
    requires Invariant(s) && Next(s, e).Some? && OfCanceller(e)
    ensures Invariant(Next(s, e).value)
  {
    hide Stopped;
  }

  lemma WriterKeeps(s: World, e: Event)
    requires Invariant(s) && Next(s, e).Some? && !OfCanceller(e)
    ensures Invariant(Next(s, e).value)
  {
    if e.Check? && Stopped(s.writer.w, s.writer.atLock) { StoppedGrows(s.writer.w, s.writer.atLock, s.closed); }
    hide Stopped;
    var t := Next(s, e).value;
    assert t.cancellers == s.cancellers && t.closed == s.closed;
  }

  lemma StepKeeps(s: World, e: Event)
    requires Invariant(s) && Next(s, e).Some?
    ensures Invariant(Next(s, e).value)
  {
    hide Invariant, Next;
    if OfCanceller(e) { CancellerKeeps(s, e); } else { WriterKeeps(s, e); }
  }

  function Run(s: World, events: seq<Event>): Option<World>
    decreases |events|
  {
    if events == [] then Some(s)
    else
      var n := Next(s, events[0]);
      if n.None? then None else Run(n.value, events[1..])
  }

  lemma {:induction false} RunKeeps(s: World, events: seq<Event>)
    requires Invariant(s) && Run(s, events).Some?
    ensures Invariant(Run(s, events).value)
    decreases |events|
  {
    if events != [] {
      StepKeeps(s, events[0]);
      RunKeeps(Next(s, events[0]).value, events[1..]);
    }
  }

  /** In every interleaving, a write on the wire runs under its own deadline unless one of its own signals was closed,
      and is one whose signals were all still open when it took the lock. */
  lemma CancellationIsIsolated(events: seq<Event>)
    requires Run(Initial(), events).Some?
    ensures var s := Run(Initial(), events).value;
      s.writer.Writing? ==>
        && (s.deadline == Own(s.writer.w.deadline) ||
            (s.deadline.Forced? && Some(s.deadline.signal) in s.writer.w.signals && s.deadline.signal in s.closed))
        && !Stopped(s.writer.w, s.writer.atLock)
  {
    RunKeeps(Initial(), events);
  }

  /** Cancelling a signal of the write under way does cut that write's deadline short; cancelling any other leaves it. */
  lemma CancellationReaches(events: seq<Event>, id: nat, now: int)
    requires Run(Initial(), events).Some?
    requires var s := Run(Initial(), events).value; CancellerAt(s, id) && s.cancellers[id].Closing? && InFlight(s.writer)
    ensures var s := Run(Initial(), events).value;
      Next(s, CancelForce(id, now, true)).value.deadline ==
      if Some(s.cancellers[id].signal) in s.writer.w.signals then Forced(now, s.cancellers[id].signal) else s.deadline
  {
    RunKeeps(Initial(), events);
  }

  lemma {:induction false} RunThen(s: World, events: seq<Event>, e: Event)
    requires Run(s, events).Some?
    ensures Run(s, events + [e]) == Next(Run(s, events).value, e)
    decreases |events|
  {
    hide Next;
    if events == [] {
      assert [e][1..] == [];
    } else {
      assert (events + [e])[1..] == events[1..] + [e];
      RunThen(Next(s, events[0]).value, events[1..], e);
    }
  }

  // ----- the critical sections, each run under the lock -----

  class PacketTransport {
    var closed: set<Signal>
    var done: bool
    var deadline: Deadline
    const active: array<Option<Signal>>

    ghost predicate Valid()
      reads this
    {
      active.Length == 3
    }

    /** The machine's state with these fields, and everything else as in s. */
    ghost function In(s: World): World
      reads this, active
    {
      s.(closed := closed, done := done, active := active[..], deadline := deadline)
    }

    constructor ()
      ensures Valid() && In(Initial()) == Initial()
    {
      closed, done, deadline := {}, false, Unset;
      active := new Option<Signal>[3](_ => None);
    }

    /** Installs the write's deadline and signals, unless it is already stopped or late. */
    method StartWrite(w: Write, now: int, settable: bool, ghost s: World) returns (ok: bool, ghost events: seq<Event>)
      requires Valid() && |w.signals| == 3 && s.holder.Nobody? && s.writer == Waiting(w)
      modifies this`deadline, active
      ensures ok <==> !done && !Stopped(w, closed) && now < w.deadline && settable
      ensures !ok ==> deadline == old(deadline) && active[..] == old(active[..])
      ensures Run(old(In(s)), events) == Some(In(if ok then s.(writer := Writing(w, closed)) else s.(writer := Idle)))
    {
      ghost var start := In(s);
      events := StartEvents(w, now, settable, done || Stopped(w, closed));
      ok := false;
      var stopped := false;
      for i := 0 to 3
        invariant stopped <==> exists k :: 0 <= k < i && w.signals[k].Some? && w.signals[k].value in closed
      {
        if w.signals[i].Some? && w.signals[i].value in closed { stopped := true; }
      }
      if !done && !stopped && now < w.deadline && settable {
        deadline := Own(w.deadline);
        active[0], active[1], active[2] := w.signals[0], w.signals[1], w.signals[2];
        ok := true;
        assert active[..] == w.signals;
      }
      StartRuns(start, w, now, settable);
    }

    /** Clears the signals, whatever happened since the write began. */
    method FinishWrite(ghost s: World) returns (ghost events: seq<Event>)
      requires Valid() && s.holder.Nobody? && s.writer.Wrote?
      modifies active
      ensures active[..] == NO_SIGNALS
      ensures Run(old(In(s)), events) == Some(In(s.(writer := Idle)))
    {
      ghost var start := In(s);
      active[0], active[1], active[2] := None, None, None;
      assert active[..] == NO_SIGNALS;
      events := [Relock, Clear, Unlock];
      FinishRuns(start);
    }

    /** Closes the signal, and cuts the socket's deadline short if the write under way has that signal. */
    method CancelWrite(signal: Signal, now: int, settable: bool, ghost id: nat, ghost s: World) returns (ghost events: seq<Event>)
      requires Valid() && s.holder.Nobody? && id in s.cancellers && s.cancellers[id] == Asking(signal)
      modifies this
      ensures Valid() && active[..] == old(active[..]) && closed == old(closed) + {signal} && done == old(done)
      ensures deadline == if Some(signal) in active[..] && settable then Forced(now, signal) else old(deadline)
      ensures Run(old(In(s)), events) == Some(In(s.(cancellers := s.cancellers - {id})))
    {
      ghost var start := In(s);
      closed := closed + {signal};
      var i := 0;
      while i < 3 && active[i] != Some(signal)
        invariant 0 <= i <= 3 && forall k :: 0 <= k < i ==> active[k] != Some(signal)
      {
        i := i + 1;
      }
      if i < 3 {
        assert active[i] in active[..];
        if settable { deadline := Forced(now, signal); }
      }
      events := [CancelLock(id), CancelClose(id), CancelForce(id, now, settable), CancelUnlock(id)];
      CancelRuns(start, id, now, settable);
    }
  }

  ghost function StartEvents(w: Write, now: int, settable: bool, halted: bool): seq<Event> {
    if halted then [Lock, Check] + [Unlock]
    else if now >= w.deadline then [Lock, Check, CheckTime(now)] + [Unlock]
    else if !settable then [Lock, Check, CheckTime(now), Arm(false)] + [Unlock]
    else [Lock, Check, CheckTime(now), Arm(true), Store] + [Unlock]
  }

  lemma StartRuns(s: World, w: Write, now: int, settable: bool)
    requires s.holder.Nobody? && s.writer == Waiting(w)
    ensures var halted := s.done || Stopped(w, s.closed);
      Run(s, StartEvents(w, now, settable, halted)) ==
      Some(if !halted && now < w.deadline && settable
           then s.(deadline := Own(w.deadline), active := w.signals, writer := Writing(w, s.closed)) else s.(writer := Idle))
  {
    hide Stopped;
    RunThen(s, [], Lock);
    assert [] + [Lock] == [Lock];
    RunThen(s, [Lock], Check);
    assert [Lock] + [Check] == [Lock, Check];
    if s.done || Stopped(w, s.closed) {
      RunThen(s, [Lock, Check], Unlock);
    } else {
      RunThen(s, [Lock, Check], CheckTime(now));
      assert [Lock, Check] + [CheckTime(now)] == [Lock, Check, CheckTime(now)];
      if now >= w.deadline {
        RunThen(s, [Lock, Check, CheckTime(now)], Unlock);
      } else {
        RunThen(s, [Lock, Check, CheckTime(now)], Arm(settable));
        assert [Lock, Check, CheckTime(now)] + [Arm(settable)] == [Lock, Check, CheckTime(now), Arm(settable)];
        if settable {
          RunThen(s, [Lock, Check, CheckTime(now), Arm(true)], Store);
          assert [Lock, Check, CheckTime(now), Arm(true)] + [Store] == [Lock, Check, CheckTime(now), Arm(true), Store];
          RunThen(s, [Lock, Check, CheckTime(now), Arm(true), Store], Unlock);
        } else {
          RunThen(s, [Lock, Check, CheckTime(now), Arm(false)], Unlock);
        }
      }
    }
  }

  lemma FinishRuns(s: World)
    requires s.holder.Nobody? && s.writer.Wrote?
    ensures Run(s, [Relock, Clear, Unlock]) ==
      Some(s.(active := NO_SIGNALS, writer := Idle))
  {
    var s1 := s.(holder := TheWriter, writer := Relocked(s.writer.w, s.writer.atLock, s.writer.ok));
    var s2 := s1.(active := NO_SIGNALS, writer := Leaving(s.writer.w, s.writer.ok));
    RunThree(s, Relock, Clear, Unlock, s1, s2, s2.(holder := Nobody, writer := Idle));
  }

  lemma CancelRuns(s: World, id: nat, now: int, ok: bool)
    requires s.holder.Nobody? && id in s.cancellers && s.cancellers[id].Asking?
    ensures var signal := s.cancellers[id].signal;
      Run(s, [CancelLock(id), CancelClose(id), CancelForce(id, now, ok), CancelUnlock(id)]) ==
      Some(s.(closed := s.closed + {signal}, deadline := if Some(signal) in s.active && ok then Forced(now, signal) else s.deadline,
              cancellers := s.cancellers - {id}))
  {
    var signal := s.cancellers[id].signal;
    var s1 := s.(holder := ACanceller(id), cancellers := s.cancellers[id := Holding(signal)]);
    var s2 := s1.(closed := s.closed + {signal}, cancellers := s1.cancellers[id := Closing(signal)]);
    var s3 := s2.(deadline := if Some(signal) in s.active && ok then Forced(now, signal) else s.deadline, cancellers := s2.cancellers[id := Done(signal)]);
    assert Next(s, CancelLock(id)) == Some(s1);
    assert Next(s1, CancelClose(id)) == Some(s2);
    assert Next(s2, CancelForce(id, now, ok)) == Some(s3);
    assert s3.cancellers - {id} == s.cancellers - {id};
    assert Next(s3, CancelUnlock(id)) == Some(s3.(holder := Nobody, cancellers := s.cancellers - {id}));
    hide Next;
    RunThree(s, CancelLock(id), CancelClose(id), CancelForce(id, now, ok), s1, s2, s3);
    RunThen(s, [CancelLock(id), CancelClose(id), CancelForce(id, now, ok)], CancelUnlock(id));
    assert [CancelLock(id), CancelClose(id), CancelForce(id, now, ok)] + [CancelUnlock(id)]
           == [CancelLock(id), CancelClose(id), CancelForce(id, now, ok), CancelUnlock(id)];
  }

  lemma RunThree(s: World, a: Event, b: Event, c: Event, s1: World, s2: World, s3: World)
    requires Next(s, a) == Some(s1) && Next(s1, b) == Some(s2) && Next(s2, c) == Some(s3)
    ensures Run(s, [a, b, c]) == Some(s3)
  {
    hide Next;
    assert [a, b, c][1..] == [b, c] && [b, c][1..] == [c] && [c][1..] == [];
    assert Run(s3, []) == Some(s3);
    assert Run(s2, [c]) == Some(s3);
    assert Run(s1, [b, c]) == Some(s3);
  }
}
