/** Whole runs of many sessions sharing world stores with outside pin holders and eviction. */
module SessionSystem {
  import opened Coordinates
  import opened Options
  import opened Views
  import opened Pins
  import opened Sessions

  // ----- one session's invariant

  ghost predicate Reordered(a: seq<Coord>, b: seq<Coord>) {
    multiset(a) == multiset(b)
  }

  ghost predicate GoodPrepared(p: Prepared, expected: seq<Coord>) {
    p.pinned <= Members(expected) && (p.store.None? <==> p.pinned == {})
  }

  ghost predicate GoodView(v: View) {
    v.pinned == Square(v.center, v.radius)
  }

  ghost predicate GoodInitial(w: Pending, cap: i32) {
    && w.Initial?
    && 0 < w.requested && w.effective == MinRadius(w.requested, cap)
    && Reordered(w.prepare, Square(w.center, w.effective))
    && w.send == SendOrder(w.center, w.effective)
    && GoodPrepared(w.prepared, w.prepare)
  }

  /** A pending transition starts at the active view and names exactly what enters and leaves. */
  ghost predicate GoodShift(w: Pending, v: View) {
    && w.Shift?
    && var t := w.transition;
       && t.fromCenter == v.center && t.fromRadius == v.radius
       && Reordered(t.entering, Outside(Square(t.toCenter, t.toRadius), t.fromCenter, t.fromRadius))
       && t.leaving == Outside(Square(t.fromCenter, t.fromRadius), t.toCenter, t.toRadius)
       && GoodPrepared(w.prepared, t.entering)
       && MatchesStore(w.prepared, v.store)
  }

  ghost predicate GoodSpawned(s: Session) {
    && s.view.Some? && GoodView(s.view.value) && s.playerChunk.Some?
    && (s.pending.Some? ==> GoodShift(s.pending.value, s.view.value))
  }

  function WantedRadius(s: Session): i32
    requires s.view.Some?
  {
    if s.desired.Some? then s.desired.value else s.view.value.radius
  }

  /** A spawned view is where the player is and as wide as asked for, or a pending transition leads
      there. */
  ghost predicate FollowsPlayer(s: Session)
    requires s.view.Some? && s.playerChunk.Some?
  {
    && WantedRadius(s) <= s.cap && s.view.value.radius <= s.cap
    && (s.pending.None? ==> s.view.value.center == s.playerChunk.value && s.desired.None?)
    && (s.pending.Some? && s.pending.value.Shift? ==>
          && s.pending.value.transition.toCenter == s.playerChunk.value
          && s.pending.value.transition.toRadius == WantedRadius(s))
  }

  ghost predicate Good(s: Session) {
    && |s.deferred| <= MAX_DEFERRED
    && match s.phase
       case WaitingLogin => s.view.None? && s.pending.None? && s.playerChunk.None?
       case LoginPending => s.view.None? && s.pending.None? && s.playerChunk.None?
       case WaitingChunkRadius => s.view.None? && s.pending.None? && s.playerChunk.Some?
       case WaitingInitialChunks =>
         && s.view.None? && s.playerChunk.Some?
         && (s.pending.Some? ==> GoodInitial(s.pending.value, s.cap) && s.pending.value.center == s.playerChunk.value)
         && (s.cap >= 0 ==> s.pending.Some?)
       case Spawned =>
         GoodSpawned(s) && FollowsPlayer(s)
  }

  // ----- what a session holds

  function HeldByView(v: Option<View>, k: Key): nat {
    if v.Some? && v.value.store == k.store && k.pos in v.value.pinned then 1 else 0
  }

  function HeldByPrepared(p: Prepared, k: Key): nat {
    if p.store.Some? && p.store.value == k.store && k.pos in p.pinned then 1 else 0
  }

  function HeldByPending(p: Option<Pending>, k: Key): nat {
    if p.Some? then HeldByPrepared(p.value.prepared, k) else 0
  }

  function Held(s: Session, k: Key): nat {
    HeldByView(s.view, k) + HeldByPending(s.pending, k)
  }

  ghost predicate Covered(s: Session, pool: Pool) {
    forall k :: Held(s, k) <= PinsOf(pool, k)
  }

  /** Pin counts moved by exactly what the session came to hold or let go. */
  ghost predicate Moved(s: Session, pool: Pool, s': Session, pool': Pool) {
    pool'.Keys == pool.Keys && forall k :: PinsOf(pool', k) + Held(s, k) == PinsOf(pool, k) + Held(s', k)
  }

  // ----- lists and sets

  lemma ReorderedFacts(a: seq<Coord>, b: seq<Coord>)
    requires Reordered(a, b)
    ensures |a| == |b| && Members(a) == Members(b)
    ensures Distinct(b) ==> Distinct(a)
  {
    assert |multiset(a)| == |multiset(b)|;
    forall p
      ensures p in a <==> p in b
    {
      assert p in multiset(a) <==> p in multiset(b);
    }
    if Distinct(b) {
      forall i, j | 0 <= i < j < |a|
        ensures a[i] != a[j]
      {
        if a[i] == a[j] {
          assert a == a[..j] + [a[j]] + a[j + 1..];
          assert a[i] in a[..j];
          assert multiset(a)[a[j]] >= 2;
          DistinctCountsOnce(b, a[j]);
        }
      }
    }
  }

  lemma {:induction false} DistinctCountsOnce(s: seq<Coord>, p: Coord)
    requires Distinct(s)
    ensures multiset(s)[p] <= 1
  {
    if s != [] {
      assert s == [s[0]] + s[1..];
      DistinctCountsOnce(s[1..], p);
      assert s[0] !in s[1..];
    }
  }

  lemma CompleteMeansAll(p: Prepared, expected: seq<Coord>)
    requires Distinct(expected) && IsComplete(p, expected)
    ensures p.pinned == Members(expected)
  {
    DistinctSize(expected);
    var extra := p.pinned - Members(expected);
    assert p.pinned == Members(expected) + extra;
    assert |p.pinned| == |Members(expected)| + |extra|;
  }

  // ----- releasing gives back exactly what was held

  lemma ReleasePreparedMoves(pool: Pool, p: Prepared)
    requires forall k :: HeldByPrepared(p, k) <= PinsOf(pool, k)
    ensures ReleasePrepared(pool, p).Keys == pool.Keys
    ensures forall k :: PinsOf(ReleasePrepared(pool, p), k) + HeldByPrepared(p, k) == PinsOf(pool, k)
  {
  }

  lemma UnpinListMoves(pool: Pool, store: nat, ps: seq<Coord>)
    requires Distinct(ps)
    requires forall k: Key :: k.store == store && k.pos in ps ==> PinsOf(pool, k) > 0
    ensures UnpinList(pool, store, ps).Keys == pool.Keys
    ensures forall k :: PinsOf(UnpinList(pool, store, ps), k)
                     == PinsOf(pool, k) - if k.store == store && k.pos in ps then 1 else 0
  {
  }

  // ----- each call keeps the invariant and moves pins with ownership

  /** Replacing pending work by nothing, or by work that holds nothing yet, releases its pins. */
  lemma ReplacingPendingMoves(s: Session, pool: Pool, s': Session)
    requires Covered(s, pool) && s'.view == s.view
    requires s'.pending.Some? ==> s'.pending.value.prepared == NOTHING_PREPARED
    ensures Moved(s, pool, s', ReleasePending(pool, s.pending))
  {
  }

  lemma PlannedShiftIsGood(v: View, to: Coord, radius: i32, priority: Coord -> int)
    ensures var planned := PlannedPending(v, to, radius, priority);
            && (planned.None? ==> v.center == to && v.radius == radius)
            && (planned.Some? ==>
                  && GoodShift(planned.value, v) && planned.value.prepared == NOTHING_PREPARED
                  && planned.value.transition.toCenter == to && planned.value.transition.toRadius == radius)
  {
    var t := ViewTransition(v.center, v.radius, to, radius);
    if t.Some? {
      SortReorders(t.value.entering, priority);
    }
  }

  lemma UnchangedMoves(s: Session, pool: Pool)
    ensures Moved(s, pool, s, pool)
  {
  }

  lemma PlanMoves(s: Session, pool: Pool, to: Coord, radius: i32, priority: Coord -> int)
    requires Covered(s, pool)
    ensures var d := PlanViewTransition(s, pool, to, radius, priority); Moved(s, pool, d.session, d.pool)
  {
  }

  /** The player's chunk or the wanted radius has changed and no transition was planned for it yet. */
  ghost predicate Plannable(s: Session, to: Coord, radius: i32) {
    && |s.deferred| <= MAX_DEFERRED && s.phase == Spawned && GoodSpawned(s)
    && to == s.playerChunk.value && radius == WantedRadius(s) <= s.cap && s.view.value.radius <= s.cap
  }

  lemma PlanIsGood(s: Session, pool: Pool, to: Coord, radius: i32, priority: Coord -> int)
    requires Plannable(s, to, radius)
    ensures var d := PlanViewTransition(s, pool, to, radius, priority); Good(d.session) && d.result.Ok?
  {
    PlannedShiftIsGood(s.view.value, to, radius, priority);
  }

  lemma PlanKeeps(s: Session, pool: Pool, to: Coord, radius: i32, priority: Coord -> int)
    requires Plannable(s, to, radius) && Covered(s, pool)
    ensures var d := PlanViewTransition(s, pool, to, radius, priority);
            Good(d.session) && Moved(s, pool, d.session, d.pool) && d.result.Ok?
  {
    PlanIsGood(s, pool, to, radius, priority);
    PlanMoves(s, pool, to, radius, priority);
  }

  lemma BeginInitialKeeps(s: Session, pool: Pool, p: Packet, priority: Coord -> int)
    requires Good(s) && s.phase == WaitingChunkRadius && Covered(s, pool)
    ensures var d := BeginInitial(s, pool, p, priority); Good(d.session) && Moved(s, pool, d.session, d.pool)
  {
    var d := BeginInitial(s, pool, p, priority);
    if d.session != s {
      SortReorders(Square(s.playerChunk.value, d.session.pending.value.effective), priority);
      ReplacingPendingMoves(s, pool, d.session);
    }
  }

  lemma SpawnedKeeps(s: Session, pool: Pool, p: Packet, priority: Coord -> int)
    requires Good(s) && s.phase == Spawned && Covered(s, pool)
    ensures var d := HandleSpawned(s, pool, p, priority); Good(d.session) && Moved(s, pool, d.session, d.pool)
  {
    match p
    case MovePlayer(Some(chunk)) =>
      var moved := s.(playerChunk := Some(chunk));
      SameHoldings(s, moved);
      PlanKeeps(moved, pool, chunk, if s.desired.Some? then s.desired.value else s.view.value.radius, priority);
    case RequestChunkRadius(_, _) =>
      if RequestedRadius(p).Ok? {
        var wanting := s.(desired := Some(MinRadius(p.radius, s.cap)));
        SameHoldings(s, wanting);
        PlanKeeps(wanting, pool, s.playerChunk.value, MinRadius(p.radius, s.cap), priority);
      }
    case _ =>
  }

  lemma SameHoldings(s: Session, t: Session)
    requires s.view == t.view && s.pending == t.pending
    ensures forall k :: Held(s, k) == Held(t, k)
  {
  }

  lemma HandlePacketKeeps(s: Session, pool: Pool, p: Packet, priority: Coord -> int)
    requires Good(s) && Covered(s, pool)
    ensures var d := HandlePacket(s, pool, p, priority); Good(d.session) && Moved(s, pool, d.session, d.pool)
  {
    if s.phase == WaitingChunkRadius {
      BeginInitialKeeps(s, pool, p, priority);
    } else if s.phase == Spawned {
      SpawnedKeeps(s, pool, p, priority);
    } else {
      SameHoldings(s, HandlePacket(s, pool, p, priority).session);
    }
  }

  lemma HandleDeferredKeeps(s: Session, pool: Pool, priority: Coord -> int)
    requires Good(s) && Covered(s, pool)
    ensures var d := HandleDeferred(s, pool, priority); Good(d.session) && Moved(s, pool, d.session, d.pool)
  {
    if s.phase != LoginPending && s.deferred != [] {
      var rest := s.(deferred := s.deferred[1..]);
      assert forall k :: Held(rest, k) == Held(s, k);
      HandlePacketKeeps(rest, pool, s.deferred[0], priority);
    }
  }

  lemma MarkingIsGood(p: Prepared, expected: seq<Coord>, store: nat, pos: Coord)
    requires GoodPrepared(p, expected) && pos in expected
    ensures GoodPrepared(Prepared(Some(store), p.pinned + {pos}), expected)
  {
  }

  lemma MarkPreparedMoves(s: Session, pool: Pool, store: nat, pos: Coord)
    requires s.pending.Some? && s.pending.value.prepared.store.None? ==> s.pending.value.prepared.pinned == {}
    ensures var d := MarkPrepared(s, pool, store, pos); Moved(s, pool, d.session, d.pool)
  {
    var d := MarkPrepared(s, pool, store, pos);
    if d.session != s {
      forall k
        ensures PinsOf(d.pool, k) + Held(s, k) == PinsOf(pool, k) + Held(d.session, k)
      {
        assert HeldByView(d.session.view, k) == HeldByView(s.view, k);
        if k != Key(store, pos) {
          assert HeldByPending(d.session.pending, k) == HeldByPending(s.pending, k);
        }
      }
    }
  }

  lemma MarkPreparedIsGood(s: Session, pool: Pool, store: nat, pos: Coord)
    requires Good(s)
    ensures Good(MarkPrepared(s, pool, store, pos).session)
  {
    var t := MarkPrepared(s, pool, store, pos).session;
    if t != s {
      var w := s.pending.value;
      var marked := w.(prepared := Prepared(Some(store), w.prepared.pinned + {pos}));
      MarkingIsGood(w.prepared, PreparePositions(w), store, pos);
      PreparingIsGood(s, marked);
    }
  }

  /** Pending work that only came to hold more stays good. */
  lemma PreparingIsGood(s: Session, marked: Pending)
    requires Good(s) && s.pending.Some? && marked == s.pending.value.(prepared := marked.prepared)
    requires GoodPrepared(marked.prepared, PreparePositions(marked))
    requires s.view.Some? ==> MatchesStore(marked.prepared, s.view.value.store)
    ensures Good(s.(pending := Some(marked)))
  {
  }

  /** A complete initial view holds exactly its square, so it commits. */
  lemma CommitInitialSucceeds(s: Session, pool: Pool, sequence: nat)
    requires Good(s) && s.phase == WaitingInitialChunks && s.pending.Some?
    requires IsComplete(s.pending.value.prepared, s.pending.value.prepare) && s.pending.value.effective >= 0
    ensures var w, square := s.pending.value, Square(s.pending.value.center, s.pending.value.effective);
            && w.prepared.store.Some? && w.prepared.pinned == Members(square)
            && CommitPending(s, pool, sequence)
               == Done(s.(pending := None, phase := Spawned, desired := None,
                          view := Some(View(w.prepared.store.value, w.center, w.effective, sequence, square))),
                       pool, Ok(Some(Metrics(w.requested, w.effective, |w.send|, 0))))
  {
    var w := s.pending.value;
    SquareIsView(w.center, w.effective);
    SendOrderIsView(w.center, w.effective);
    ReorderedFacts(w.prepare, Square(w.center, w.effective));
    CompleteMeansAll(w.prepared, w.prepare);
    assert IsComplete(w.prepared, w.send);
  }

  lemma CommitInitialKeeps(s: Session, pool: Pool, sequence: nat)
    requires Good(s) && s.phase == WaitingInitialChunks && s.pending.Some?
    requires IsComplete(s.pending.value.prepared, s.pending.value.prepare) && s.pending.value.effective >= 0
    ensures var d := CommitPending(s, pool, sequence);
            d.result.Ok? && Good(d.session) && Moved(s, pool, d.session, d.pool)
  {
    CommitInitialSucceeds(s, pool, sequence);
    HandingOverMoves(s, CommitPending(s, pool, sequence).session, pool);
  }

  /** Temporary pins that become the view's stay where they are. */
  lemma HandingOverMoves(s: Session, t: Session, pool: Pool)
    requires s.view.None? && s.pending.Some? && t.view.Some? && t.pending.None?
    requires s.pending.value.prepared.store == Some(t.view.value.store)
    requires s.pending.value.prepared.pinned == Members(t.view.value.pinned)
    ensures Moved(s, pool, t, pool)
  {
  }

  lemma CommitShiftKeeps(s: Session, pool: Pool, sequence: nat)
    requires Good(s) && Covered(s, pool) && s.phase == Spawned && s.pending.Some?
    requires IsComplete(s.pending.value.prepared, s.pending.value.transition.entering)
    ensures var d := CommitPending(s, pool, sequence);
            d.result.Ok? && Good(d.session) && Moved(s, pool, d.session, d.pool)
  {
    var w, view := s.pending.value, s.view.value;
    var t := w.transition;
    TransitionIsExact(t.fromCenter, t.fromRadius, t.toCenter, t.toRadius);
    ReorderedFacts(t.entering, Outside(Square(t.toCenter, t.toRadius), t.fromCenter, t.fromRadius));
    CompleteMeansAll(w.prepared, t.entering);
    forall k: Key | k.store == view.store && k.pos in t.leaving
      ensures PinsOf(pool, k) > 0
    {
      assert k.pos in Members(t.leaving) && k.pos in Members(view.pinned);
      assert Held(s, k) >= 1;
    }
    UnpinListMoves(pool, view.store, t.leaving);
    var d := CommitPending(s, pool, sequence);
    forall k
      ensures PinsOf(d.pool, k) + Held(s, k) == PinsOf(pool, k) + Held(d.session, k)
    {
      assert k.pos in Members(view.pinned) <==> k.pos in view.pinned;
      assert k.pos in Members(t.leaving) <==> k.pos in t.leaving;
      assert k.pos in Members(d.session.view.value.pinned) <==> k.pos in d.session.view.value.pinned;
    }
  }

  /** A negative radius makes an empty view: it is complete at once and there is no store to commit. */
  lemma EmptyInitialFails(s: Session, pool: Pool, sequence: nat)
    requires Good(s) && s.phase == WaitingInitialChunks && s.pending.Some? && s.pending.value.effective < 0
    ensures CommitPending(s, pool, sequence) == Done(s.(pending := None), pool, Err(NoStore))
    ensures forall k :: Held(s, k) == 0
    ensures IsComplete(s.pending.value.prepared, s.pending.value.prepare) && s.pending.value.send == []
  {
  }

  /** Queued packets are never followed by a failed commit, except for an empty initial view, which
      a negative radius produces. */
  lemma CommitFollowsPlan(s: Session, pool: Pool, store: nat, parcel: Parcel, sequence: nat)
    requires Good(s) && Covered(s, pool) && CompletionPlan(s, store, parcel).Ok?
    ensures var work := s.pending.value;
            CommitPending(s, pool, sequence).result.Ok? <==> !(work.Initial? && work.effective < 0)
  {
    if s.phase == Spawned {
      CommitShiftKeeps(s, pool, sequence);
    } else if s.pending.value.effective >= 0 {
      CommitInitialKeeps(s, pool, sequence);
    } else {
      EmptyInitialFails(s, pool, sequence);
    }
  }

  /** The radius the client hears of, or heard of before, is the committed view's; so are the counts. */
  lemma AnnouncedRadiusIsView(s: Session, pool: Pool, store: nat, parcel: Parcel, sequence: nat)
    requires Good(s) && Covered(s, pool) && CompletionPlan(s, store, parcel).Ok?
    requires CommitPending(s, pool, sequence).result.Ok?
    ensures var plan, d := CompletionPlan(s, store, parcel).value, CommitPending(s, pool, sequence);
            && d.session.view.Some?
            && var view := d.session.view.value;
               && (plan.radius.Some? ==> view.radius == plan.radius.value)
               && (plan.radius.None? ==>
                     s.view.Some? && view.radius == s.view.value.radius && view.cursor == s.view.value.cursor)
               && (plan.initial.Some? <==> s.phase == WaitingInitialChunks)
               && (plan.initial.Some? ==> plan.chunks == |view.pinned| && view.cursor == sequence)
  {
    if s.phase == WaitingInitialChunks {
      SendOrderIsView(s.pending.value.center, s.pending.value.effective);
    }
  }

  lemma TryCompleteKeeps(s: Session, pool: Pool, store: nat, parcel: Parcel, queue: Queue, sequence: nat)
    requires Good(s) && Covered(s, pool)
    ensures var d := TryComplete(s, pool, store, parcel, queue, sequence);
            Good(d.session) && Moved(s, pool, d.session, d.pool)
  {
    if CompletionPlan(s, store, parcel).Err? || !queue.Accepted? {
      UnchangedMoves(s, pool);
    } else if s.phase == Spawned {
      CommitShiftKeeps(s, pool, sequence);
    } else if s.pending.value.effective >= 0 {
      CommitInitialKeeps(s, pool, sequence);
    } else {
      EmptyInitialFails(s, pool, sequence);
    }
  }

  /** A session that goes away gives every pin back. */
  lemma DropReleases(s: Session, pool: Pool)
    requires Good(s) && Covered(s, pool)
    ensures DropSession(s, pool).Keys == pool.Keys
    ensures forall k :: PinsOf(DropSession(s, pool), k) + Held(s, k) == PinsOf(pool, k)
  {
    var rest := ReleaseView(pool, s.view);
    if s.view.Some? {
      var v := s.view.value;
      SquareIsView(v.center, v.radius);
      forall k: Key | k.store == v.store && k.pos in v.pinned
        ensures PinsOf(pool, k) > 0
      {
        assert Held(s, k) >= 1;
      }
      UnpinListMoves(pool, v.store, v.pinned);
    }
    if s.pending.Some? {
      forall k
        ensures HeldByPrepared(s.pending.value.prepared, k) <= PinsOf(rest, k)
      {
        assert Held(s, k) <= PinsOf(pool, k);
      }
      ReleasePreparedMoves(rest, s.pending.value.prepared);
    }
  }

  /** A login whose packets the queue refuses leaves the session exactly as it was. */
  lemma RefusedLoginChangesNothing(s: Session, spawn: Coord, encodes: bool, queue: Queue)
    requires Good(s) && !queue.Accepted?
    ensures TryAcceptLogin(s, spawn, encodes, queue) == s
  {
  }

  // ----- many sessions, outside holders and eviction

  datatype Slot = Live(session: Session) | Ended

  /** `external` counts the pins other owners took and have not given back. A session is named by
      the order of its arrival. */
  datatype System = System(pool: Pool, external: multiset<Key>, sessions: seq<Slot>)

  datatype Event =
    | Connect(cap: i32)
    | Receive(id: nat, packet: Packet, priority: Coord -> int)
    | ReplayDeferred(id: nat, priority: Coord -> int)
    | LoginAnswer(id: nat, spawn: Coord, encodes: bool, queue: Queue)
    | ChunkReady(id: nat, store: nat, pos: Coord)
    | Complete(id: nat, store: nat, parcel: Parcel, queue: Queue, sequence: nat)
    | MoveCursor(id: nat, store: nat, cursor: nat)
    | Disconnect(id: nat)
    | OutsidePin(k: Key)
    | OutsideUnpin(k: Key)
    | Load(k: Key, dirty: bool)
    | Touch(k: Key, dirty: bool)
    | Evict(k: Key)

  predicate Alive(sys: System, id: nat) {
    id < |sys.sessions| && sys.sessions[id].Live?
  }

  predicate SessionEvent(e: Event) {
    e.Receive? || e.ReplayDeferred? || e.LoginAnswer? || e.ChunkReady? || e.Complete? || e.MoveCursor?
  }

  /** What a call on one session makes of it and of the shared pins. */
  function SessionStep(s: Session, pool: Pool, e: Event): (Session, Pool)
    requires SessionEvent(e)
  {
    match e
    case Receive(_, p, priority) => After(HandlePacket(s, pool, p, priority))
    case ReplayDeferred(_, priority) => After(HandleDeferred(s, pool, priority))
    case LoginAnswer(_, spawn, encodes, queue) => (TryAcceptLogin(s, spawn, encodes, queue), pool)
    case ChunkReady(_, store, pos) => After(MarkPrepared(s, pool, store, pos))
    case Complete(_, store, parcel, queue, sequence) => After(TryComplete(s, pool, store, parcel, queue, sequence))
    case MoveCursor(_, store, cursor) => (UpdateViewCursor(s, store, cursor), pool)
  }

  function After<T>(d: Done<T>): (Session, Pool) {
    (d.session, d.pool)
  }

  function Put(sys: System, id: nat, step: (Session, Pool)): System
    requires id < |sys.sessions|
  {
    sys.(pool := step.1, sessions := sys.sessions[id := Live(step.0)])
  }

  /** Calls on a session that has ended are refused. An outside owner gives back only pins it took. */
  function Step(sys: System, e: Event): System {
    match e
    case Connect(cap) => sys.(sessions := sys.sessions + [Live(NewSession(cap))])
    case Disconnect(id) =>
      if !Alive(sys, id) then sys
      else sys.(pool := DropSession(sys.sessions[id].session, sys.pool), sessions := sys.sessions[id := Ended])
    case OutsidePin(k) =>
      (match Pin(sys.pool, k)
       case None => sys
       case Some(pool) => sys.(pool := pool, external := sys.external + multiset{k}))
    case OutsideUnpin(k) =>
      if k !in sys.external then sys
      else sys.(pool := Unpin(sys.pool, k), external := sys.external - multiset{k})
    case Load(k, dirty) => if k in sys.pool then sys else sys.(pool := sys.pool[k := Resident(0, dirty)])
    case Touch(k, dirty) => if k !in sys.pool then sys else sys.(pool := sys.pool[k := sys.pool[k].(dirty := dirty)])
    case Evict(k) => sys.(pool := TryEvict(sys.pool, k).1)
    case _ => if !Alive(sys, e.id) then sys else Put(sys, e.id, SessionStep(sys.sessions[e.id].session, sys.pool, e))
  }

  function Run(sys: System, events: seq<Event>): System {
    if events == [] then sys else Step(Run(sys, events[..|events| - 1]), events[|events| - 1])
  }

  const EMPTY := System(map[], multiset{}, [])

  function HeldBySlot(slot: Slot, k: Key): nat {
    if slot.Live? then Held(slot.session, k) else 0
  }

  function HeldByAll(slots: seq<Slot>, k: Key): nat {
    if slots == [] then 0 else HeldByAll(slots[..|slots| - 1], k) + HeldBySlot(slots[|slots| - 1], k)
  }

  /** Every pin is accounted for: outside pins, one per view and one per pending set holding it. */
  ghost predicate Conserved(sys: System) {
    forall k :: PinsOf(sys.pool, k) == sys.external[k] + HeldByAll(sys.sessions, k)
  }

  ghost predicate AllGood(slots: seq<Slot>) {
    forall i :: 0 <= i < |slots| && slots[i].Live? ==> Good(slots[i].session)
  }

  lemma {:induction false} HeldAfterUpdate(slots: seq<Slot>, i: nat, slot: Slot, k: Key)
    requires i < |slots|
    ensures HeldByAll(slots[i := slot], k) + HeldBySlot(slots[i], k) == HeldByAll(slots, k) + HeldBySlot(slot, k)
  {
    var last := |slots| - 1;
    var changed := slots[i := slot];
    if i == last {
      assert changed[..last] == slots[..last];
    } else {
      assert changed[..last] == slots[..last][i := slot];
      HeldAfterUpdate(slots[..last], i, slot, k);
    }
  }

  lemma {:induction false} HeldByOne(slots: seq<Slot>, i: nat, k: Key)
    requires i < |slots|
    ensures HeldBySlot(slots[i], k) <= HeldByAll(slots, k)
  {
    if i < |slots| - 1 {
      assert slots[..|slots| - 1][i] == slots[i];
      HeldByOne(slots[..|slots| - 1], i, k);
    }
  }

  lemma SessionsAreCovered(sys: System, id: nat)
    requires Conserved(sys) && Alive(sys, id)
    ensures Covered(sys.sessions[id].session, sys.pool)
  {
    forall k
      ensures Held(sys.sessions[id].session, k) <= PinsOf(sys.pool, k)
    {
      HeldByOne(sys.sessions, id, k);
    }
  }

  /** Replacing one slot conserves pins if the pool moved by what that slot's holdings did. */
  lemma SlotStepConserves(sys: System, id: nat, slot: Slot, pool: Pool)
    requires Conserved(sys) && id < |sys.sessions|
    requires forall k :: PinsOf(pool, k) + HeldBySlot(sys.sessions[id], k) == PinsOf(sys.pool, k) + HeldBySlot(slot, k)
    ensures Conserved(sys.(pool := pool, sessions := sys.sessions[id := slot]))
  {
    forall k
      ensures PinsOf(pool, k) == sys.external[k] + HeldByAll(sys.sessions[id := slot], k)
    {
      HeldAfterUpdate(sys.sessions, id, slot, k);
    }
  }

  lemma SessionStepConserves(sys: System, id: nat, s: Session, pool: Pool)
    requires Conserved(sys) && Alive(sys, id) && Moved(sys.sessions[id].session, sys.pool, s, pool)
    ensures Conserved(sys.(pool := pool, sessions := sys.sessions[id := Live(s)]))
  {
    SlotStepConserves(sys, id, Live(s), pool);
  }

  lemma DisconnectConserves(sys: System, id: nat)
    requires Conserved(sys) && AllGood(sys.sessions) && Alive(sys, id)
    ensures Conserved(Step(sys, Disconnect(id)))
  {
    SessionsAreCovered(sys, id);
    DropReleases(sys.sessions[id].session, sys.pool);
    EndingConserves(sys, id);
  }

  lemma EndingConserves(sys: System, id: nat)
    requires Conserved(sys) && Alive(sys, id)
    requires var s := sys.sessions[id].session;
             forall k :: PinsOf(DropSession(s, sys.pool), k) + Held(s, k) == PinsOf(sys.pool, k)
    ensures Conserved(Step(sys, Disconnect(id)))
  {
    SlotStepConserves(sys, id, Ended, DropSession(sys.sessions[id].session, sys.pool));
  }

  lemma ConnectConserves(sys: System, cap: i32)
    requires Conserved(sys) && AllGood(sys.sessions)
    ensures Conserved(Step(sys, Connect(cap))) && AllGood(Step(sys, Connect(cap)).sessions)
  {
  }

  lemma OutsideStepConserves(sys: System, e: Event)
    requires Conserved(sys) && (e.OutsidePin? || e.OutsideUnpin? || e.Load? || e.Touch? || e.Evict?)
    ensures Conserved(Step(sys, e)) && Step(sys, e).sessions == sys.sessions
  {
    assert PinsOf(sys.pool, e.k) == sys.external[e.k] + HeldByAll(sys.sessions, e.k);
    match e
    case OutsidePin(k) => OutsidePinCounts(sys, k);
    case OutsideUnpin(k) => OutsideUnpinCounts(sys, k);
    case Load(k, dirty) => ResidencyCounts(sys, e);
    case Touch(k, dirty) => ResidencyCounts(sys, e);
    case Evict(k) => ResidencyCounts(sys, e);
    CountsConserve(sys, Step(sys, e));
  }

  /** The pool gained or lost exactly the pins that outside owners did. */
  ghost predicate SameCounts(sys: System, next: System) {
    && next.sessions == sys.sessions
    && forall k :: PinsOf(next.pool, k) + sys.external[k] == PinsOf(sys.pool, k) + next.external[k]
  }

  lemma CountsConserve(sys: System, next: System)
    requires Conserved(sys) && SameCounts(sys, next)
    ensures Conserved(next)
  {
    forall k
      ensures PinsOf(next.pool, k) == next.external[k] + HeldByAll(next.sessions, k)
    {
      assert PinsOf(sys.pool, k) == sys.external[k] + HeldByAll(sys.sessions, k);
    }
  }

  lemma OutsidePinCounts(sys: System, k: Key)
    ensures SameCounts(sys, Step(sys, OutsidePin(k)))
  {
  }

  lemma OutsideUnpinCounts(sys: System, k: Key)
    requires sys.external[k] <= PinsOf(sys.pool, k)
    ensures SameCounts(sys, Step(sys, OutsideUnpin(k)))
  {
  }

  /** Loading, touching and evicting move no pin: only an unpinned chunk can go. */
  lemma ResidencyCounts(sys: System, e: Event)
    requires e.Load? || e.Touch? || e.Evict?
    ensures SameCounts(sys, Step(sys, e))
  {
  }

  lemma CursorKeeps(s: Session, pool: Pool, store: nat, cursor: nat)
    requires Good(s)
    ensures var t := UpdateViewCursor(s, store, cursor); Good(t) && Moved(s, pool, t, pool)
  {
  }

  lemma SessionStepKeeps(s: Session, pool: Pool, e: Event)
    requires SessionEvent(e) && Good(s) && Covered(s, pool)
    ensures var (t, rest) := SessionStep(s, pool, e); Good(t) && Moved(s, pool, t, rest)
  {
    match e
    case Receive(_, p, priority) => HandlePacketKeeps(s, pool, p, priority);
    case ReplayDeferred(_, priority) => HandleDeferredKeeps(s, pool, priority);
    case LoginAnswer(_, spawn, encodes, queue) => SameHoldings(s, TryAcceptLogin(s, spawn, encodes, queue));
    case ChunkReady(_, store, pos) =>
      MarkPreparedIsGood(s, pool, store, pos);
      MarkPreparedMoves(s, pool, store, pos);
    case Complete(_, store, parcel, queue, sequence) => TryCompleteKeeps(s, pool, store, parcel, queue, sequence);
    case MoveCursor(_, store, cursor) => CursorKeeps(s, pool, store, cursor);
  }

  lemma SessionEventConserves(sys: System, e: Event)
    requires Conserved(sys) && AllGood(sys.sessions) && SessionEvent(e) && Alive(sys, e.id)
    ensures Conserved(Step(sys, e)) && AllGood(Step(sys, e).sessions)
  {
    var s := sys.sessions[e.id].session;
    SessionsAreCovered(sys, e.id);
    SessionStepKeeps(s, sys.pool, e);
    var (t, rest) := SessionStep(s, sys.pool, e);
    SessionStepConserves(sys, e.id, t, rest);
  }

  lemma StepConserves(sys: System, e: Event)
    requires Conserved(sys) && AllGood(sys.sessions)
    ensures Conserved(Step(sys, e)) && AllGood(Step(sys, e).sessions)
  {
    if e.Connect? {
      ConnectConserves(sys, e.cap);
    } else if e.Disconnect? {
      if Alive(sys, e.id) {
        DisconnectConserves(sys, e.id);
      }
    } else if SessionEvent(e) {
      if Alive(sys, e.id) {
        SessionEventConserves(sys, e);
      }
    } else {
      OutsideStepConserves(sys, e);
    }
  }

  /** Pin conservation: after any run of any number of sessions, every chunk's pin count is what
      outside owners hold plus one per view and one per pending set containing it. */
  lemma {:induction false} PinsAreConserved(events: seq<Event>)
    ensures Conserved(Run(EMPTY, events)) && AllGood(Run(EMPTY, events).sessions)
  {
    if events != [] {
      PinsAreConserved(events[..|events| - 1]);
      StepConserves(Run(EMPTY, events[..|events| - 1]), events[|events| - 1]);
    }
  }

  /** A viewed or prepared chunk is resident and refuses eviction, and the next unpin of it succeeds. */
  lemma HeldChunksStay(events: seq<Event>, id: nat, k: Key)
    requires Alive(Run(EMPTY, events), id) && Held(Run(EMPTY, events).sessions[id].session, k) > 0
    ensures var pool := Run(EMPTY, events).pool;
            k in pool && PinsOf(pool, k) > 0 && TryEvict(pool, k).0.Pinned? && TryEvict(pool, k).1 == pool
  {
    PinsAreConserved(events);
    SessionsAreCovered(Run(EMPTY, events), id);
  }

  /** After any run an active view pins exactly the square of its current centre and radius. */
  lemma ViewIsItsSquare(events: seq<Event>, id: nat)
    requires Alive(Run(EMPTY, events), id) && Run(EMPTY, events).sessions[id].session.view.Some?
    ensures var v := Run(EMPTY, events).sessions[id].session.view.value; v.pinned == Square(v.center, v.radius)
  {
    PinsAreConserved(events);
  }

  /** After any run a spawned session's view is at the player's chunk with the radius asked for, or
      its pending transition takes it there when it completes. */
  lemma ViewFollowsPlayer(events: seq<Event>, id: nat, store: nat, parcel: Parcel, sequence: nat)
    requires Alive(Run(EMPTY, events), id) && Run(EMPTY, events).sessions[id].session.phase == Spawned
    ensures var sys := Run(EMPTY, events);
            var s := sys.sessions[id].session;
            && s.view.Some? && s.playerChunk.Some? && WantedRadius(s) <= s.cap
            && (s.pending.None? ==>
                  s.view.value.center == s.playerChunk.value && s.view.value.radius == WantedRadius(s))
            && (CompletionPlan(s, store, parcel).Ok? ==>
                  var t := TryComplete(s, sys.pool, store, parcel, Accepted, sequence).session;
                  t.view == Some(s.view.value.(center := s.playerChunk.value, radius := WantedRadius(s),
                                               pinned := Square(s.playerChunk.value, WantedRadius(s)))))
  {
    var sys := Run(EMPTY, events);
    var s := sys.sessions[id].session;
    PinsAreConserved(events);
    SessionsAreCovered(sys, id);
    if CompletionPlan(s, store, parcel).Ok? {
      CommitShiftKeeps(s, sys.pool, sequence);
    }
  }

  /** With a radius cap that is not negative, as every cap the program takes, a completion whose packets
      were queued never fails to commit, and one that met a full queue succeeds on retry. */
  lemma QueuedCompletionCommits(events: seq<Event>, id: nat, store: nat, parcel: Parcel, sequence: nat)
    requires Alive(Run(EMPTY, events), id) && Run(EMPTY, events).sessions[id].session.cap >= 0
    ensures var sys := Run(EMPTY, events);
            var s := sys.sessions[id].session;
            CompletionPlan(s, store, parcel).Ok? ==>
              && TryComplete(s, sys.pool, store, parcel, Accepted, sequence).result ==
                  Ok(Completed(CompletionPlan(s, store, parcel).value))
              && TryComplete(s, sys.pool, store, parcel, Full, sequence) == Done(s, sys.pool, Ok(Backpressured))
  {
    var sys := Run(EMPTY, events);
    var s := sys.sessions[id].session;
    PinsAreConserved(events);
    SessionsAreCovered(sys, id);
    if CompletionPlan(s, store, parcel).Ok? {
      CommitFollowsPlan(s, sys.pool, store, parcel, sequence);
    }
  }

  lemma RunThen(sys: System, events: seq<Event>, e: Event)
    ensures Run(sys, events + [e]) == Step(Run(sys, events), e)
  {
    assert (events + [e])[..|events|] == events;
  }

  function LoginEvents(cap: i32): seq<Event> {
    [] + [Connect(cap)] + [Receive(0, Login(true), c => 0)] + [LoginAnswer(0, Coord(0, 0), true, Accepted)]
  }

  function JoinEvents(cap: i32): seq<Event> {
    LoginEvents(cap) + [Receive(0, RequestChunkRadius(4, 1), c => 0)]
  }

  lemma LoginRun(cap: i32)
    ensures Run(EMPTY, LoginEvents(cap))
         == EMPTY.(sessions := [Live(NewSession(cap).(phase := WaitingChunkRadius, playerChunk := Some(Coord(0, 0))))])
  {
    RunThen(EMPTY, [], Connect(cap));
    RunThen(EMPTY, [] + [Connect(cap)], Receive(0, Login(true), c => 0));
    RunThen(EMPTY, [] + [Connect(cap)] + [Receive(0, Login(true), c => 0)], LoginAnswer(0, Coord(0, 0), true,
        Accepted));
    assert Run(EMPTY, [] + [Connect(cap)]) == EMPTY.(sessions := [Live(NewSession(cap))]);
  }

  lemma JoinRun(cap: i32)
    ensures var s := NewSession(cap).(phase := WaitingChunkRadius, playerChunk := Some(Coord(0, 0)));
            Run(EMPTY, JoinEvents(cap))
            == EMPTY.(sessions := [Live(BeginInitial(s, map[], RequestChunkRadius(4, 1), c => 0).session)])
  {
    LoginRun(cap);
    RunThen(EMPTY, LoginEvents(cap), Receive(0, RequestChunkRadius(4, 1), c => 0));
  }

  /** A session state built with a negative cap breaks the promise: a session that joins has its packets
      queued and then fails to commit. The program builds none, since it takes only caps from 1 to 3. */
  lemma NegativeCapFailsAfterQueueing(cap: i32, store: nat, bytes: nat, sequence: nat)
    requires cap < 0
    ensures var sys := Run(EMPTY, JoinEvents(cap));
            && Alive(sys, 0)
            && var s := sys.sessions[0].session;
               && CompletionPlan(s, store, Parcel(0, Some(bytes))).Ok?
               && TryComplete(s, sys.pool, store, Parcel(0, Some(bytes)), Accepted, sequence).result == Err(NoStore)
  {
    var sys := Run(EMPTY, JoinEvents(cap));
    JoinRun(cap);
    PinsAreConserved(JoinEvents(cap));
    EmptyInitialFails(sys.sessions[0].session, sys.pool, sequence);
  }
}
