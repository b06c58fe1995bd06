/** Connection IDs: each session's pool, and the listener's index from ID to connection. */
module ConnectionIds {
  import opened Wire

  const MAX_IDS := 8

  type Cid = seq<byte>

  // ----- the listener's index -----

  datatype Index = Index(cids: map<Cid, nat>, closed: bool)

  predicate Collides(cids: map<Cid, nat>, c: nat, ids: seq<Cid>) {
    exists id :: id in ids && id in cids && cids[id] != c
  }

  function Without(cids: map<Cid, nat>, c: nat): map<Cid, nat> {
    map id | id in cids && cids[id] != c :: cids[id]
  }

  function Claim(cids: map<Cid, nat>, c: nat, ids: seq<Cid>): map<Cid, nat> {
    Without(cids, c) + map id | id in ids :: c
  }

  /** Makes these the IDs of connection c, and no others, unless one belongs to another connection. */
  function SetCids(index: Index, c: nat, ids: seq<Cid>): Result<Index> {
    if index.closed then Err(Closed)
    else if Collides(index.cids, c, ids) then Err(Collision)
    else Ok(index.(cids := Claim(index.cids, c, ids)))
  }

  // ----- a session's pool -----

  datatype Stage = Idle | Posting(previous: seq<Cid>)

  /** local is None until the first issue; the negotiated ID alone is accepted till then. */
  datatype Pool = Pool(localCid: Cid, local: Option<seq<Cid>>, immediate: seq<Cid>, response: Option<nat>, stage: Stage)

  function Accepted(p: Pool): seq<Cid> {
    if p.local.None? then [p.localCid] else p.local.value
  }

  function Started(p: Pool): Pool { p.(local := Some(Accepted(p))) }

  function IssueCount(p: Pool, count: nat, immediate: bool): int {
    if immediate then 1 else if count < MAX_IDS - |Accepted(p)| then count else MAX_IDS - |Accepted(p)|
  }

  predicate Distinct(ids: seq<Cid>) {
    forall i, j :: 0 <= i < j < |ids| ==> ids[i] != ids[j]
  }

  /** IDs as the generator leaves them: of the negotiated length, new to the pool, and different from each other. */
  predicate Generated(p: Pool, ids: seq<Cid>, n: int) {
    && |ids| == n && Distinct(ids)
    && forall id :: id in ids ==> |id| == |p.localCid| && id !in Accepted(p)
  }

  datatype World = World(index: Index, pools: map<nat, Pool>)

  /** The first half of issuing: the index and then the pool take the new IDs. */
  function Issue(w: World, c: nat, ids: seq<Cid>, immediate: bool): World
    requires c in w.pools
  {
    var p := Started(w.pools[c]);
    var index := SetCids(w.index, c, p.local.value + ids);
    if index.Err? then w.(pools := w.pools[c := p])
    else World(index.value, w.pools[c := p.(local := Some(p.local.value + ids), immediate := if immediate then ids else p.immediate,
                                            stage := Posting(p.local.value))])
  }

  /** The second half: a message that was never queued takes its IDs back. */
  function Settle(w: World, c: nat, queued: bool): World
    requires c in w.pools && w.pools[c].stage.Posting?
  {
    var p := w.pools[c];
    if queued then w.(pools := w.pools[c := p.(stage := Idle)])
    else
      var index := SetCids(w.index, c, p.stage.previous);
      if index.Err? then w.(pools := w.pools[c := p.(stage := Idle)])
      else World(index.value, w.pools[c := p.(local := Some(p.stage.previous), immediate := [], stage := Idle)])
  }

  /** A record under the new ID retires the old ones. */
  function Use(w: World, c: nat, cid: Cid): World
    requires c in w.pools
  {
    var p := w.pools[c];
    if cid !in p.immediate then w
    else
      var index := SetCids(w.index, c, p.immediate);
      if index.Err? then w else World(index.value, w.pools[c := p.(local := Some(p.immediate), immediate := [])])
  }

  datatype Event =
    | Admit(c: nat, localCid: Cid)
    | Leave(c: nat)
    | Close
    | Requested(c: nat, count: nat)
    | Respond(c: nat, busy: bool, ids: seq<Cid>)
    | Provide(c: nat, busy: bool, count: nat, immediate: bool, ids: seq<Cid>)
    | Posted(c: nat, queued: bool)
    | Received(c: nat, cid: Cid)

  /** Issuing waits for every exchange under way, this pool's own rotation among them. */
  predicate Busy(p: Pool, busy: bool) { busy || p.immediate != [] }

  function ProvideIds(w: World, c: nat, busy: bool, count: nat, immediate: bool, ids: seq<Cid>): Option<World>
    requires c in w.pools
  {
    var p := w.pools[c];
    if p.localCid == [] || Busy(p, busy) then Some(w)
    else if !Generated(p, ids, IssueCount(p, count, immediate)) then None
    else Some(Issue(w, c, ids, immediate))
  }

  /** A full pool answers a request by rotating one ID at once; the request stays. */
  function RespondIds(w: World, c: nat, busy: bool, ids: seq<Cid>): Option<World>
    requires c in w.pools
  {
    var p := Started(w.pools[c]);
    var v := w.(pools := w.pools[c := p]);
    if p.response.None? || Busy(p, busy) then Some(w)
    else if |p.local.value| >= MAX_IDS && p.response.value > 0 then ProvideIds(v, c, busy, 1, true, ids)
    else ProvideIds(v.(pools := v.pools[c := p.(response := None)]), c, busy, p.response.value, false, ids)
  }

  /** A session does one thing at a time; while it posts, other sessions go on. */
  predicate Free(w: World, c: nat) { c in w.pools && w.pools[c].stage.Idle? }

  /** The world after an event, None where it cannot occur. */
  function Next(w: World, e: Event): Option<World> {
    match e
    case Admit(c, localCid) =>
      if c in w.pools then None
      else if localCid != [] && localCid in w.index.cids then Some(w)
      else Some(World(if localCid == [] then w.index else w.index.(cids := w.index.cids[localCid := c]),
                      w.pools[c := Pool(localCid, None, [], None, Idle)]))
    case Leave(c) => Some(World(w.index.(cids := Without(w.index.cids, c)), w.pools - {c}))
    case Close => Some(w.(index := w.index.(closed := true)))
    case Requested(c, count) => if Free(w, c) then Some(w.(pools := w.pools[c := w.pools[c].(response := Some(count))])) else None
    case Respond(c, busy, ids) => if Free(w, c) then RespondIds(w, c, busy, ids) else None
    case Provide(c, busy, count, immediate, ids) => if Free(w, c) then ProvideIds(w, c, busy, count, immediate, ids) else None
    case Posted(c, queued) => if c in w.pools && w.pools[c].stage.Posting? then Some(Settle(w, c, queued)) else None
    case Received(c, cid) => if Free(w, c) then Some(Use(w, c, cid)) else None
  }

  // ----- agreement -----

  /** Distinct IDs, eight at most, nine while a rotation is under way; earlier ones first. */
  predicate Sound(p: Pool) {
    && Distinct(Accepted(p)) && |Accepted(p)| <= (if p.immediate == [] then MAX_IDS else MAX_IDS + 1)
    && |p.immediate| <= 1 && (forall id :: id in p.immediate ==> id in Accepted(p))
    && (if p.localCid == [] then Accepted(p) == [[]] && p.immediate == [] && p.stage.Idle? else [] !in Accepted(p))
    && (p.stage.Posting? ==> p.local.Some? && p.stage.previous <= Accepted(p) && |p.stage.previous| <= MAX_IDS)
    && (p.local.None? ==> p.immediate == [])
  }

  predicate Owns(index: Index, id: Cid, c: nat) { id in index.cids && index.cids[id] == c }

  /** The index leads exactly the accepted IDs to this connection. */
  ghost predicate Agrees(index: Index, c: nat, p: Pool) {
    forall id :: id != [] ==> (Owns(index, id, c) <==> id in Accepted(p))
  }

  ghost predicate Invariant(w: World) {
    && (forall id :: id in w.index.cids ==> id != [] && w.index.cids[id] in w.pools)
    && forall c :: c in w.pools ==> Sound(w.pools[c]) && Agrees(w.index, c, w.pools[c])
  }

  /** Claiming IDs for one connection leaves every other connection's alone. */
  lemma ClaimKeeps(index: Index, c: nat, ids: seq<Cid>)
    requires SetCids(index, c, ids).Ok?
    ensures var after := SetCids(index, c, ids).value;
      && (forall id :: Owns(after, id, c) <==> id in ids)
      && (forall id, d :: d != c ==> (Owns(after, id, d) <==> Owns(index, id, d)))
  {
  }

  /** A world in which one pool and its part of the index changed together. */
  lemma ReplaceKeeps(w: World, c: nat, ids: seq<Cid>, p: Pool)
    requires Invariant(w) && c in w.pools && SetCids(w.index, c, ids).Ok? && Sound(p) && p.local == Some(ids) && [] !in ids
    ensures Invariant(World(SetCids(w.index, c, ids).value, w.pools[c := p]))
  {
    ClaimKeeps(w.index, c, ids);
    var v := World(SetCids(w.index, c, ids).value, w.pools[c := p]);
    hide Sound;
    forall d | d in v.pools ensures Sound(v.pools[d]) && Agrees(v.index, d, v.pools[d]) {
      if d != c {
        assert Agrees(w.index, d, w.pools[d]);
        forall id | id != [] ensures Owns(v.index, id, d) <==> id in Accepted(v.pools[d]) {
          assert Owns(v.index, id, d) <==> Owns(w.index, id, d);
        }
      }
    }
  }

  /** A pool that accepts what it accepted before. */
  lemma SameKeeps(w: World, c: nat, p: Pool)
    requires Invariant(w) && c in w.pools && Sound(p) && Accepted(p) == Accepted(w.pools[c])
    ensures Invariant(w.(pools := w.pools[c := p]))
  {
    hide Sound;
    assert Agrees(w.index, c, w.pools[c]);
  }

  lemma DistinctAppend(a: seq<Cid>, b: seq<Cid>)
    requires Distinct(a) && Distinct(b) && forall id :: id in b ==> id !in a
    ensures Distinct(a + b)
  {
    forall i, j | 0 <= i < j < |a + b| ensures (a + b)[i] != (a + b)[j] {
      if i < |a| <= j { assert b[j - |a|] in b; }
    }
  }

  lemma IssueKeeps(w: World, c: nat, ids: seq<Cid>, immediate: bool, n: int)
    requires Invariant(w) && c in w.pools && w.pools[c].immediate == [] && w.pools[c].localCid != [] && w.pools[c].stage.Idle?
    requires Generated(w.pools[c], ids, n) && n <= IssueCount(w.pools[c], n, immediate)
    ensures Invariant(Issue(w, c, ids, immediate))
  {
    var p := Started(w.pools[c]);
    SameKeeps(w, c, p);
    if SetCids(w.index, c, p.local.value + ids).Ok? {
      DistinctAppend(p.local.value, ids);
      var q := p.(local := Some(p.local.value + ids), immediate := if immediate then ids else [], stage := Posting(p.local.value));
      assert Sound(q);
      ReplaceKeeps(w, c, p.local.value + ids, q);
    }
  }

  lemma SettleKeeps(w: World, c: nat, queued: bool)
    requires Invariant(w) && c in w.pools && w.pools[c].stage.Posting?
    ensures Invariant(Settle(w, c, queued))
  {
    var p := w.pools[c];
    SameKeeps(w, c, p.(stage := Idle));
    var q := p.(local := Some(p.stage.previous), immediate := [], stage := Idle);
    assert Sound(q);
    if SetCids(w.index, c, p.stage.previous).Ok? { ReplaceKeeps(w, c, p.stage.previous, q); }
  }

  /** Undoing an issue cannot collide: the IDs to restore are still this connection's. */
  lemma RollbackSucceeds(w: World, c: nat)
    requires Invariant(w) && c in w.pools && w.pools[c].stage.Posting? && !w.index.closed
    ensures Accepted(Settle(w, c, false).pools[c]) == w.pools[c].stage.previous && Settle(w, c, false).pools[c].immediate == []
  {
    var p := w.pools[c];
    assert Agrees(w.index, c, p);
    forall id | id in p.stage.previous && id in w.index.cids ensures w.index.cids[id] == c {
      assert id in Accepted(p) && Owns(w.index, id, c);
    }
  }

  /** The index is open and no other connection has one of these IDs. */
  predicate Available(w: World, c: nat, ids: seq<Cid>) {
    !w.index.closed && forall id :: id in ids && id in w.index.cids ==> w.index.cids[id] == c
  }

  /** New IDs are taken on exactly when they are available, and then each leads to this connection; otherwise nothing is. */
  lemma IssueExactly(w: World, c: nat, ids: seq<Cid>, immediate: bool)
    requires Invariant(w) && c in w.pools && w.pools[c].stage.Idle? && w.pools[c].immediate == [] && w.pools[c].localCid != []
    ensures var p, v := w.pools[c], Issue(w, c, ids, immediate);
      && v.pools.Keys == w.pools.Keys && (forall d :: d in w.pools && d != c ==> v.pools[d] == w.pools[d])
      && (Available(w, c, ids) ==>
            && Accepted(v.pools[c]) == Accepted(p) + ids && v.pools[c].stage == Posting(Accepted(p))
            && v.pools[c].immediate == (if immediate then ids else []) && forall id :: id in ids ==> Owns(v.index, id, c))
      && (!Available(w, c, ids) ==> v.index == w.index && Accepted(v.pools[c]) == Accepted(p) && v.pools[c].stage.Idle?)
      && v.pools[c].response == p.response
  {
    OwnNeverCollide(w, c, ids);
    hide Invariant, Sound, Agrees, Collides, Available;
  }

  /** The IDs a connection has are not in the way of more. */
  lemma OwnNeverCollide(w: World, c: nat, ids: seq<Cid>)
    requires Invariant(w) && c in w.pools && w.pools[c].localCid != []
    ensures SetCids(w.index, c, Accepted(w.pools[c]) + ids).Ok? <==> Available(w, c, ids)
  {
    var p := w.pools[c];
    assert Sound(p) && Agrees(w.index, c, p);
    forall id | id in Accepted(p) ensures id in w.index.cids && w.index.cids[id] == c { assert Owns(w.index, id, c); }
    assert Collides(w.index.cids, c, Accepted(p) + ids) <==> exists id :: id in ids && id in w.index.cids && w.index.cids[id] != c;
  }

  /** The first record under a new ID leaves that ID the only one, here and in the index, unless the listener has closed. */
  lemma UseExactly(w: World, c: nat, cid: Cid)
    requires Invariant(w) && c in w.pools && w.pools[c].stage.Idle?
    ensures var v := Use(w, c, cid);
      && (cid in w.pools[c].immediate && !w.index.closed ==>
            && Accepted(v.pools[c]) == [cid] && v.pools[c].immediate == []
            && forall id :: Owns(v.index, id, c) <==> id == cid)
      && (!(cid in w.pools[c].immediate && !w.index.closed) ==> v == w)
  {
    var p := w.pools[c];
    if cid in p.immediate {
      assert Sound(p) && Agrees(w.index, c, p);
      assert p.immediate == [cid];
      assert [] !in Accepted(p) && Owns(w.index, cid, c);
    }
  }

  /** IDs to be issued, of which there are so many. */
  function Wanted(p: Pool): int
    requires p.response.Some?
  {
    if |Accepted(p)| >= 8 && p.response.value > 0 then 1
    else if p.response.value < 8 - |Accepted(p)| then p.response.value else 8 - |Accepted(p)|
  }

  /** A pending request is answered as soon as nothing else is under way: with as many spares as fit, or, from a full pool, with one ID that
      replaces the rest; only the latter leaves the request standing. */
  lemma RequestIsAnswered(w: World, c: nat, busy: bool, ids: seq<Cid>)
    requires Invariant(w) && Free(w, c) && w.pools[c].response.Some? && !Busy(w.pools[c], busy) && w.pools[c].localCid != []
    requires Generated(w.pools[c], ids, Wanted(w.pools[c])) && Available(w, c, ids)
    ensures RespondIds(w, c, busy, ids).Some?
    ensures var p, q := w.pools[c], RespondIds(w, c, busy, ids).value.pools[c];
      && Accepted(q) == Accepted(p) + ids && q.stage == Posting(Accepted(p))
      && (if |Accepted(p)| >= 8 && p.response.value > 0 then q.immediate == ids && q.response == p.response
          else q.immediate == [] && q.response == None)
  {
    var p := Started(w.pools[c]);
    var v := w.(pools := w.pools[c := p]);
    var u := v.(pools := v.pools[c := p.(response := None)]);
    SameKeeps(w, c, p);
    SameKeeps(v, c, p.(response := None));
    assert Generated(p, ids, |ids|) && Generated(p.(response := None), ids, |ids|) by { assert Generated(w.pools[c], ids, |ids|); }
    if |p.local.value| >= MAX_IDS && p.response.value > 0 {
      IssueExactly(v, c, ids, true);
    } else {
      IssueExactly(u, c, ids, false);
    }
    hide Invariant, Issue, Generated;
  }

  /** Without a request, or while something is under way, nothing is issued. */
  lemma RequestWaits(w: World, c: nat, busy: bool, ids: seq<Cid>)
    requires Free(w, c) && (w.pools[c].response.None? || Busy(w.pools[c], busy))
    ensures RespondIds(w, c, busy, ids) == Some(w)
  {
  }

  lemma UseKeeps(w: World, c: nat, cid: Cid)
    requires Invariant(w) && c in w.pools && w.pools[c].stage.Idle?
    ensures Invariant(Use(w, c, cid))
  {
    var p := w.pools[c];
    var q := p.(local := Some(p.immediate), immediate := []);
    if cid in p.immediate && SetCids(w.index, c, p.immediate).Ok? {
      assert Sound(q);
      ReplaceKeeps(w, c, p.immediate, q);
    }
  }

  lemma ProvideKeeps(w: World, c: nat, busy: bool, count: nat, immediate: bool, ids: seq<Cid>)
    requires Invariant(w) && c in w.pools && w.pools[c].stage.Idle? && ProvideIds(w, c, busy, count, immediate, ids).Some?
    ensures Invariant(ProvideIds(w, c, busy, count, immediate, ids).value)
  {
    hide Issue;
    var p := w.pools[c];
    if p.localCid != [] && !Busy(p, busy) { IssueKeeps(w, c, ids, immediate, IssueCount(p, count, immediate)); }
  }

  lemma RespondKeeps(w: World, c: nat, busy: bool, ids: seq<Cid>)
    requires Invariant(w) && c in w.pools && w.pools[c].stage.Idle? && RespondIds(w, c, busy, ids).Some?
    ensures Invariant(RespondIds(w, c, busy, ids).value)
  {
    hide ProvideIds;
    var p := Started(w.pools[c]);
    var v := w.(pools := w.pools[c := p]);
    SameKeeps(w, c, p);
    if p.response.Some? && !Busy(p, busy) {
      if |p.local.value| >= MAX_IDS && p.response.value > 0 {
        ProvideKeeps(v, c, busy, 1, true, ids);
      } else {
        SameKeeps(v, c, p.(response := None));
        ProvideKeeps(v.(pools := v.pools[c := p.(response := None)]), c, busy, p.response.value, false, ids);
      }
    }
  }

  lemma AdmitKeeps(w: World, c: nat, localCid: Cid)
    requires Invariant(w) && c !in w.pools
    ensures Invariant(Next(w, Admit(c, localCid)).value)
  {
    var v := Next(w, Admit(c, localCid)).value;
    if c in v.pools {
      forall d | d in v.pools ensures Agrees(v.index, d, v.pools[d]) && Sound(v.pools[d]) {
        if d != c {
          assert Agrees(w.index, d, w.pools[d]);
          forall id | id != [] ensures Owns(v.index, id, d) <==> id in Accepted(v.pools[d]) {
            assert Owns(v.index, id, d) <==> Owns(w.index, id, d);
          }
        }
      }
    }
  }

  lemma LeaveKeeps(w: World, c: nat)
    requires Invariant(w)
    ensures Invariant(Next(w, Leave(c)).value)
  {
    var v := Next(w, Leave(c)).value;
    hide Sound;
    forall d | d in v.pools ensures Agrees(v.index, d, v.pools[d]) {
      assert Agrees(w.index, d, w.pools[d]);
      forall id | id != [] ensures Owns(v.index, id, d) <==> id in Accepted(v.pools[d]) {
        assert Owns(v.index, id, d) <==> Owns(w.index, id, d);
      }
    }
  }

  lemma CloseKeeps(w: World)
    requires Invariant(w)
    ensures Invariant(w.(index := w.index.(closed := true)))
  {
    var v := w.(index := w.index.(closed := true));
    forall d | d in v.pools ensures Agrees(v.index, d, v.pools[d]) {
      assert Agrees(w.index, d, w.pools[d]);
      forall id | id != [] ensures Owns(v.index, id, d) <==> id in Accepted(v.pools[d]) {
        assert Owns(v.index, id, d) <==> Owns(w.index, id, d);
      }
    }
  }

  lemma StepKeeps(w: World, e: Event)
    requires Invariant(w) && Next(w, e).Some?
    ensures Invariant(Next(w, e).value)
  {
    match e
    case Admit(c, localCid) => AdmitKeeps(w, c, localCid);
    case Leave(c) => LeaveKeeps(w, c);
    case Close => CloseKeeps(w);
    case Requested(c, count) => SameKeeps(w, c, w.pools[c].(response := Some(count)));
    case Respond(c, busy, ids) => RespondKeeps(w, c, busy, ids);
    case Provide(c, busy, count, immediate, ids) => ProvideKeeps(w, c, busy, count, immediate, ids);
    case Posted(c, queued) => SettleKeeps(w, c, queued);
    case Received(c, cid) => UseKeeps(w, c, cid);
  }

  function Run(w: World, events: seq<Event>): Option<World>
    decreases |events|
  {
    if events == [] then Some(w)
    else
      var v := Next(w, events[0]);
      if v.None? then None else Run(v.value, events[1..])
  }

  lemma {:induction false} RunKeeps(w: World, events: seq<Event>)
    requires Invariant(w) && Run(w, events).Some?
    ensures Invariant(Run(w, events).value)
    decreases |events|
  {
    if events != [] {
      StepKeeps(w, events[0]);
      RunKeeps(Next(w, events[0]).value, events[1..]);
    }
  }

  /** However sessions issue, rotate, fail and leave, a datagram is led to the one connection that accepts its ID, and to none if none does. */
  lemma IndexAgrees(events: seq<Event>, c: nat, cid: Cid)
    requires Run(World(Index(map[], false), map[]), events).Some? && cid != []
    ensures var w := Run(World(Index(map[], false), map[]), events).value;
      && ((cid in w.index.cids && w.index.cids[cid] == c) <==> (c in w.pools && cid in Accepted(w.pools[c])))
      && (c in w.pools ==>
            && Distinct(Accepted(w.pools[c]))
            && |Accepted(w.pools[c])| <= if w.pools[c].immediate == [] then MAX_IDS else MAX_IDS + 1)
  {
    RunKeeps(World(Index(map[], false), map[]), events);
    var w := Run(World(Index(map[], false), map[]), events).value;
    if c in w.pools { assert Agrees(w.index, c, w.pools[c]); assert Owns(w.index, cid, c) <==> cid in Accepted(w.pools[c]); }
  }

  // ----- NewConnectionId on the wire -----

  function Listed(ids: seq<Cid>): Result<seq<byte>> {
    if ids == [] then Ok([])
    else if |ids[0]| > 255 then Err(IllegalParameter)
    else
      var rest := Listed(ids[1..]);
      if rest.Err? then rest else Ok([|ids[0]|] + ids[0] + rest.value)
  }

  function EncodeIds(ids: seq<Cid>, immediate: bool): Result<seq<byte>> {
    var list := Listed(ids);
    if list.Err? then list
    else if |list.value| > 65535 || (immediate && ids == []) then Err(IllegalParameter)
    else Ok(U16(|list.value|) + list.value + [if immediate then 0 else 1])
  }

  /** Keeps the first eight different IDs. */
  function Kept(kept: seq<Cid>, ids: seq<Cid>): seq<Cid>
    decreases |ids|
  {
    if ids == [] then kept
    else Kept(if |kept| < MAX_IDS && ids[0] !in kept then kept + [ids[0]] else kept, ids[1..])
  }

  function ParseList(list: seq<byte>, kept: seq<Cid>): Result<seq<Cid>>
    decreases |list|
  {
    if list == [] then Ok(kept)
    else
      var (id, r) := Reader(list, false).Vector8();
      if r.failed then Err(Decode)
      else ParseList(r.data, if |kept| < MAX_IDS && id !in kept then kept + [id] else kept)
  }

  function ParseIds(body: seq<byte>): Result<(seq<Cid>, bool)> {
    var (list, r1) := Reader(body, false).Vector16();
    var (usage, r2) := r1.ReadU8();
    if r2.failed || r2.data != [] then Err(Decode)
    else if usage > 1 || (usage == 0 && list == []) then Err(IllegalParameter)
    else
      var ids := ParseList(list, []);
      if ids.Err? then Err(ids.error) else Ok((ids.value, usage == 0))
  }

  lemma {:induction false} ParsesList(ids: seq<Cid>, kept: seq<Cid>)
    requires Listed(ids).Ok?
    ensures ParseList(Listed(ids).value, kept) == Ok(Kept(kept, ids))
    decreases |ids|
  {
    if ids != [] {
      var rest := Listed(ids[1..]).value;
      ReadsVector8(ids[0], rest);
      assert Listed(ids).value == [|ids[0]|] + ids[0] + rest;
      ParsesList(ids[1..], if |kept| < MAX_IDS && ids[0] !in kept then kept + [ids[0]] else kept);
    }
  }

  lemma {:induction false} KeepsDistinct(kept: seq<Cid>, ids: seq<Cid>)
    requires Distinct(kept + ids) && |kept + ids| <= MAX_IDS
    ensures Kept(kept, ids) == kept + ids
    decreases |ids|
  {
    if ids == [] {
      assert kept + ids == kept;
    } else {
      forall i | 0 <= i < |kept| ensures kept[i] != ids[0] { assert (kept + ids)[i] != (kept + ids)[|kept|]; }
      assert kept + [ids[0]] + ids[1..] == kept + ids;
      KeepsDistinct(kept + [ids[0]], ids[1..]);
    }
  }

  /** The peer reads back the first eight different IDs; a pool's IDs, being different and at most eight, all of them. */
  lemma IdsRoundTrip(ids: seq<Cid>, immediate: bool)
    requires EncodeIds(ids, immediate).Ok?
    ensures ParseIds(EncodeIds(ids, immediate).value) == Ok((Kept([], ids), immediate))
    ensures Distinct(ids) && |ids| <= MAX_IDS ==> Kept([], ids) == ids
  {
    var list := Listed(ids).value;
    assert immediate ==> list != [];
    hide Listed, ParseList, Kept, Distinct, U16;
    var usage := if immediate then 0 else 1;
    assert EncodeIds(ids, immediate).value == U16(|list|) + list + [usage];
    ReadsVector16(list, [usage]);
    ReadsU8(usage, []);
    assert [usage] + [] == [usage];
    ParsesList(ids, []);
    if Distinct(ids) && |ids| <= MAX_IDS {
      assert [] + ids == ids;
      KeepsDistinct([], ids);
    }
  }

  lemma {:induction false} ListedExactly(ids: seq<Cid>)
    ensures Listed(ids).Ok? <==> forall id :: id in ids ==> |id| <= 255
    ensures Listed(ids).Ok? ==> |Listed(ids).value| <= 256 * |ids|
  {
    if ids != [] {
      assert ids == [ids[0]] + ids[1..];
      ListedExactly(ids[1..]);
    }
  }

  /** What a pool can hold can be sent, but an immediate list must name an ID. */
  lemma IdsAreWritable(ids: seq<Cid>, immediate: bool)
    requires |ids| <= MAX_IDS
    ensures EncodeIds(ids, immediate).Ok? <==> (forall id :: id in ids ==> |id| <= 255) && (immediate ==> ids != [])
  {
    ListedExactly(ids);
  }

  // ----- the index and a pool, updated in place -----

  class Listener {
    var cids: map<Cid, nat>
    var closed: bool

    function Value(): Index
      reads this
    {
      Index(cids, closed)
    }

    constructor ()
      ensures Value() == Index(map[], false)
    {
      cids, closed := map[], false;
    }

    method Assign(c: nat, ids: seq<Cid>) returns (error: Option<Error>)
      modifies this
      ensures error.None? ==> SetCids(old(Value()), c, ids) == Ok(Value())
      ensures error.Some? ==> SetCids(old(Value()), c, ids) == Err(error.value) && Value() == old(Value())
      ensures error in {None, Some(Closed), Some(Collision)}
    {
      if closed { return Some(Closed); }
      for i := 0 to |ids|
        invariant forall k :: 0 <= k < i ==> !(ids[k] in cids && cids[ids[k]] != c)
      {
        if ids[i] in cids && cids[ids[i]] != c { return Some(Collision); }
      }
      DeleteOwned(c);
      Insert(c, ids);
      return None;
    }

    method Insert(c: nat, ids: seq<Cid>)
      modifies this
      ensures cids == old(cids) + (map id | id in ids :: c) && closed == old(closed)
    {
      for i := 0 to |ids|
        invariant forall id :: id in cids <==> id in old(cids) || id in ids[..i]
        invariant forall id :: id in cids ==> cids[id] == if id in ids[..i] then c else old(cids)[id]
        invariant closed == old(closed)
      {
        cids := cids[ids[i] := c];
        assert ids[..i + 1] == ids[..i] + [ids[i]];
      }
      assert ids[..|ids|] == ids;
    }

    method DeleteOwned(c: nat)
      modifies this
      ensures cids == Without(old(cids), c) && closed == old(closed)
    {
      var rest := cids.Keys;
      while rest != {}
        invariant rest <= old(cids).Keys && closed == old(closed)
        invariant forall id :: id in cids <==> id in old(cids) && (old(cids)[id] != c || id in rest)
        invariant forall id :: id in cids ==> cids[id] == old(cids)[id]
      {
        var id :| id in rest;
        rest := rest - {id};
        if cids[id] == c { cids := cids - {id}; }
      }
    }
  }

  /** The different IDs among the draws that the pool does not know. */
  function New(p: Pool, draws: seq<Cid>): set<Cid> { set id | id in draws && id !in Accepted(p) }

  lemma {:induction false} DistinctSize(ids: seq<Cid>)
    requires Distinct(ids)
    ensures |set id | id in ids| == |ids|
  {
    if ids != [] {
      var last := |ids| - 1;
      DistinctSize(ids[..last]);
      assert ids == ids[..last] + [ids[last]];
      assert (set id | id in ids) == (set id | id in ids[..last]) + {ids[last]};
      assert ids[last] !in ids[..last];
    }
  }

  /** Draws random IDs until n of them are new; fails only when there are too few. */
  method Generate(p: Pool, n: nat, draws: seq<Cid>) returns (ids: Option<seq<Cid>>)
    requires forall id :: id in draws ==> |id| == |p.localCid|
    ensures ids.Some? ==> Generated(p, ids.value, n)
    ensures ids.None? ==> |New(p, draws)| < n
  {
    var found: seq<Cid>, i := [], 0;
    while |found| < n
      invariant i <= |draws| && |found| <= n && Generated(p, found, |found|)
      invariant forall id :: id in found <==> id in draws[..i] && id !in Accepted(p)
      decreases |draws| - i
    {
      if i == |draws| {
        assert draws[..i] == draws;
        DistinctSize(found);
        assert New(p, draws) == set id | id in found;
        return None;
      }
      assert draws[..i + 1] == draws[..i] + [draws[i]];
      if draws[i] !in Accepted(p) && draws[i] !in found {
        DistinctAppend(found, [draws[i]]);
        found := found + [draws[i]];
      }
      i := i + 1;
    }
    return Some(found);
  }

  /** Both halves of issuing with nothing in between. */
  function Issued(w: World, c: nat, ids: seq<Cid>, immediate: bool, queued: bool): World
    requires c in w.pools && w.pools[c].stage.Idle?
  {
    var v := Issue(w, c, ids, immediate);
    if v.pools[c].stage.Posting? then Settle(v, c, queued) else v
  }

  class CidPool {
    const conn: nat
    const listener: Listener
    const localCid: Cid
    var local: Option<seq<Cid>>
    var immediate: seq<Cid>
    var response: Option<nat>

    function Value(): Pool
      reads this
    {
      Pool(localCid, local, immediate, response, Idle)
    }

    function Local(): World
      reads this, listener
    {
      World(listener.Value(), map[conn := Value()])
    }

    constructor (conn: nat, listener: Listener, localCid: Cid)
      ensures this.conn == conn && this.listener == listener && Value() == Pool(localCid, None, [], None, Idle)
    {
      this.conn, this.listener, this.localCid := conn, listener, localCid;
      local, immediate, response := None, [], None;
    }

    method UsedLocal(cid: Cid) returns (error: Option<Error>)
      modifies this, listener
      ensures Local() == Use(old(Local()), conn, cid)
      ensures error.None? && cid in old(immediate) ==> local == Some(old(immediate)) && immediate == []
    {
      if cid !in immediate { return None; }
      error := listener.Assign(conn, immediate);
      if error.Some? { return; }
      local, immediate := Some(immediate), [];
    }

    /** Adds IDs to index and pool, and takes them back from both when the message announcing them was not queued. */
    method Announce(ids: seq<Cid>, rotate: bool, queued: bool) returns (error: Option<Error>)
      requires local.Some? && immediate == []
      modifies this, listener
      ensures Local() == Issued(old(Local()), conn, ids, rotate, queued)
      ensures error.None? ==> queued && local == Some(old(local).value + ids) && immediate == if rotate then ids else []
      ensures error in {None, Some(Closed), Some(Collision), Some(SendFailed)}
      ensures error.None? <==> queued && SetCids(old(listener.Value()), conn, old(local).value + ids).Ok?
    {
      hide SetCids;
      var previous := local.value;
      var updated := previous + ids;
      error := listener.Assign(conn, updated);
      if error.Some? { return; }
      local := Some(updated);
      if rotate { immediate := ids; }
      if !queued {
        var restored := listener.Assign(conn, previous);
        if restored.Some? { return restored; }
        local, immediate := Some(previous), [];
        return Some(SendFailed);
      }
    }

    method Provide(count: int, rotate: bool, busy: bool, draws: seq<Cid>, queued: bool)
      returns (error: Option<Error>, ghost ids: seq<Cid>)
      requires Sound(Value()) && forall id :: id in draws ==> |id| == |localCid|
      modifies this, listener
      ensures localCid == [] || Busy(old(Value()), busy) ==>
        Local() == old(Local()) && error == Some(if localCid == [] then UnexpectedMessage else OperationPending)
      ensures localCid != [] && !Busy(old(Value()), busy) && error == Some(KeyMaterial) ==>
        && Value() == Started(old(Value())) && listener.Value() == old(listener.Value())
        && |New(old(Value()), draws)| < IssueCount(old(Value()), if count < 0 then 0 else count, rotate)
      ensures localCid != [] && !Busy(old(Value()), busy) && error != Some(KeyMaterial) ==>
        && Generated(old(Value()), ids, IssueCount(old(Value()), if count < 0 then 0 else count, rotate))
        && Local() == Issued(old(Local()), conn, ids, rotate, queued)
      ensures error.None? ==> queued && local == Some(Accepted(old(Value())) + ids) && (rotate ==> immediate == ids)
      ensures localCid != [] && !Busy(old(Value()), busy) && error != Some(KeyMaterial) ==>
        (error.None? <==> queued && SetCids(old(listener.Value()), conn, Accepted(old(Value())) + ids).Ok?)
    {
      ids := [];
      if localCid == [] { return Some(UnexpectedMessage), []; }
      if busy || immediate != [] { return Some(OperationPending), []; }
      hide Sound, Distinct;
      RoomLeft(Value());
      StartedSame(Value(), draws);
      hide Issued, SetCids, Generated, New, IssueCount;
      if local.None? { local := Some([localCid]); }
      var drawn := Generate(Value(), IssueCount(Value(), if count < 0 then 0 else count, rotate), draws);
      if drawn.None? { return Some(KeyMaterial), []; }
      ids := drawn.value;
      IssuedStarted(old(Local()), conn, ids, rotate, queued);
      assert Local() == Begun(old(Local()), conn);
      error := Announce(drawn.value, rotate, queued);
    }
  }

  function Begun(w: World, c: nat): World
    requires c in w.pools
  {
    w.(pools := w.pools[c := Started(w.pools[c])])
  }

  /** It makes no difference to issuing whether the pool has already been started. */
  lemma IssuedStarted(w: World, c: nat, ids: seq<Cid>, immediate: bool, queued: bool)
    requires c in w.pools && w.pools[c].stage.Idle?
    ensures Issued(Begun(w, c), c, ids, immediate, queued) == Issued(w, c, ids, immediate, queued)
  {
    hide SetCids;
    assert Issue(Begun(w, c), c, ids, immediate) == Issue(w, c, ids, immediate);
  }

  /** Nor to what may be issued. */
  lemma StartedSame(p: Pool, draws: seq<Cid>)
    ensures forall ids: seq<Cid>, n: int :: Generated(Started(p), ids, n) <==> Generated(p, ids, n)
    ensures New(Started(p), draws) == New(p, draws)
    ensures forall n: nat, immediate: bool :: IssueCount(Started(p), n, immediate) == IssueCount(p, n, immediate)
  {
  }

  lemma RoomLeft(p: Pool)
    requires Sound(p) && p.immediate == []
    ensures |Accepted(p)| <= MAX_IDS && forall n: nat, immediate: bool :: IssueCount(p, n, immediate) >= 0
  {
  }
}
