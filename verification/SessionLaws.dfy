/** What each session call does, said by its outcome: when it succeeds, what it leaves, and that
    preparing, joining and deferring get somewhere. */
module SessionLaws {
  import opened Coordinates
  import opened Options
  import opened Views
  import opened Pins
  import opened Sessions
  import opened SessionSystem

  // ----- packets

  /** A request within the cap is honoured; any other gets the cap. */
  function Granted(requested: i32, cap: i32): i32 {
    if requested <= cap then requested else cap
  }

  predicate ValidRequest(p: Packet) {
    p.RequestChunkRadius? && p.bodyLength == 4 && p.radius > 0
  }

  /** While joining, each phase accepts exactly its own packet; what it refuses changes nothing. */
  lemma JoiningAccepts(s: Session, pool: Pool, p: Packet, priority: Coord -> int)
    requires Good(s) && s.phase != Spawned
    ensures var d := HandlePacket(s, pool, p, priority);
            && (d.result.Err? ==> d.session == s && d.pool == pool)
            && (s.phase == WaitingLogin ==>
                  && (d.result.Ok? <==> p == Login(true))
                  && (d.result.Ok? ==> d.result == Ok(LoginRequested) && d.session == s.(phase := LoginPending)))
            && (s.phase == LoginPending ==>
                  && (d.result.Ok? <==> |s.deferred| < 16)
                  && (d.result.Ok? ==> d.result == Ok(Consumed) && d.session == s.(deferred := s.deferred + [p])))
            && (s.phase == WaitingChunkRadius ==>
                  && (d.result.Ok? <==> ValidRequest(p))
                  && (d.result.Ok? ==> d.result == Ok(Consumed) && d.session.phase == WaitingInitialChunks))
            && (s.phase == WaitingInitialChunks ==>
                  && (d.result.Ok? <==> p.RequestChunkRadius?)
                  && (d.result.Ok? ==> d.result == Ok(Consumed) && d.session == s))
  {
  }

  /** Why a joining session refuses a packet. */
  lemma JoiningRefusals(s: Session, pool: Pool, p: Packet, priority: Coord -> int)
    requires Good(s) && s.phase != Spawned && HandlePacket(s, pool, p, priority).result.Err?
    ensures HandlePacket(s, pool, p, priority).result.error ==
              if s.phase == WaitingLogin then (if p.Login? then BadLogin else ExpectedLogin)
              else if s.phase == LoginPending then TooManyDeferred
              else if s.phase == WaitingInitialChunks then StillLoading
              else if p.RequestChunkRadius? then BadRadius
              else ExpectedRadius
  {
  }

  /** The initial view is asked for around the player, at the granted radius, in priority order. */
  lemma InitialWorkIsAskedFor(s: Session, pool: Pool, p: Packet, priority: Coord -> int)
    requires Good(s) && s.phase == WaitingChunkRadius && ValidRequest(p)
    ensures var t := HandlePacket(s, pool, p, priority).session;
            && t.pending.Some? && t.pending.value.Initial?
            && var w := t.pending.value;
               && w.requested == p.radius && w.effective == Granted(p.radius, s.cap) && Some(w.center) == s.playerChunk
               && Ordered(w.prepare, priority) && w.prepared == Prepared(None, {})
               && Members(w.prepare) == Members(Square(w.center, w.effective)) == Members(w.send)
  {
    var w := HandlePacket(s, pool, p, priority).session.pending.value;
    var square := Square(w.center, w.effective);
    SortOrders(square, priority);
    SortReorders(square, priority);
    ReorderedFacts(w.prepare, square);
    SendOrderIsView(w.center, w.effective);
  }

  /** Where a spawned session is headed: the pending target, or else its view. */
  function Target(s: Session): (Coord, i32)
    requires s.view.Some?
  {
    if s.pending.Some? && s.pending.value.Shift? then
      (s.pending.value.transition.toCenter, s.pending.value.transition.toRadius)
    else (s.view.value.center, s.view.value.radius)
  }

  /** Planning always succeeds on a spawned session and heads for the asked-for view. */
  lemma PlanReaches(s: Session, pool: Pool, to: Coord, radius: i32, priority: Coord -> int)
    requires GoodSpawned(s)
    ensures var d := PlanViewTransition(s, pool, to, radius, priority);
            && d.result == Ok(()) && Target(d.session) == (to, radius)
            && d.session == s.(pending := d.session.pending, desired := d.session.desired)
  {
    PlannedShiftIsGood(s.view.value, to, radius, priority);
  }

  /** A spawned session follows a valid move, keeping its wanted radius; a malformed one is refused and
      changes nothing. */
  lemma MoveIsFollowed(s: Session, pool: Pool, chunk: Option<Coord>, priority: Coord -> int)
    requires Good(s) && s.phase == Spawned
    ensures var d := HandlePacket(s, pool, MovePlayer(chunk), priority);
            if chunk.None? then d == Done(s, pool, Err(BadMove))
            else
              && d.result == Ok(Forward) && d.session.phase == Spawned && d.session.view == s.view
              && d.session.playerChunk == chunk && Target(d.session) == (chunk.value, WantedRadius(s))
  {
    if chunk.Some? {
      PlanReaches(s.(playerChunk := chunk), pool, chunk.value, WantedRadius(s), priority);
    }
  }

  /** And a valid radius request, staying where it is. */
  lemma RequestIsFollowed(s: Session, pool: Pool, length: nat, radius: i32, priority: Coord -> int)
    requires Good(s) && s.phase == Spawned
    ensures var d := HandlePacket(s, pool, RequestChunkRadius(length, radius), priority);
            if length != 4 || radius <= 0 then d == Done(s, pool, Err(BadRadius))
            else
              && d.result == Ok(Forward) && d.session.phase == Spawned && d.session.view == s.view
              && d.session.playerChunk == s.playerChunk
              && Target(d.session) == (s.playerChunk.value, Granted(radius, s.cap))
  {
    if length == 4 && radius > 0 {
      var wanted := Granted(radius, s.cap);
      PlanReaches(s.(desired := Some(wanted)), pool, s.playerChunk.value, wanted, priority);
    }
  }

  /** Every other packet of a spawned session is passed on. */
  lemma OthersPassThrough(s: Session, pool: Pool, p: Packet, priority: Coord -> int)
    requires s.phase == Spawned && (p.Login? || p.Other?)
    ensures HandlePacket(s, pool, p, priority) == Done(s, pool, Ok(Forward))
  {
  }

  /** Planning the transition that is under way keeps what it has prepared. */
  lemma SamePlanKeepsWork(s: Session, pool: Pool, to: Coord, radius: i32, priority: Coord -> int)
    requires s.view.Some? && (to, radius) != (s.view.value.center, s.view.value.radius)
    requires s.pending.Some? && s.pending.value.Shift?
    requires var t := s.pending.value.transition;
             && (t.fromCenter, t.fromRadius) == (s.view.value.center, s.view.value.radius)
             && (t.toCenter, t.toRadius) == (to, radius)
    ensures PlanViewTransition(s, pool, to, radius, priority) == Done(s, pool, Ok(()))
  {
  }

  /** A newly planned transition asks for entering chunks in priority order. */
  lemma NewPlanIsOrdered(v: View, to: Coord, radius: i32, priority: Coord -> int)
    ensures var planned := PlannedPending(v, to, radius, priority);
            && (planned.Some? <==> (to, radius) != (v.center, v.radius))
            && (planned.Some? ==> planned.value.Shift? && Ordered(planned.value.transition.entering, priority))
  {
    SortOrders(Outside(Square(to, radius), v.center, v.radius), priority);
  }

  // ----- login acceptance

  /** A pending login is accepted exactly if its packets encode and the queue takes them; otherwise the
      session is as it was. */
  lemma LoginsExactly(s: Session, spawn: Coord, encodes: bool, queue: Queue)
    requires Good(s)
    ensures TryAcceptLogin(s, spawn, encodes, queue)
         == if s.phase == LoginPending && encodes && queue == Accepted
            then s.(phase := WaitingChunkRadius, playerChunk := Some(spawn)) else s
  {
  }

  /** Acceptance itself is refused for a session that does not wait for it, then for packets that do
      not encode. */
  lemma LoginRefusals(s: Session, spawn: Coord, encodes: bool)
    ensures s.phase != LoginPending ==> AcceptLogin(s, spawn, encodes) == (s, Err(NotAwaitingLogin))
    ensures s.phase == LoginPending && !encodes ==> AcceptLogin(s, spawn, encodes) == (s, Err(EncodingFailed))
  {
  }

  // ----- deferred packets

  /** Only a packet that arrives while login is pending is deferred, behind all others. */
  lemma DefersLast(s: Session, pool: Pool, p: Packet, priority: Coord -> int)
    ensures HandlePacket(s, pool, p, priority).session.deferred
         == if s.phase == LoginPending && |s.deferred| < 16 then s.deferred + [p] else s.deferred
  {
  }

  function ReceiveAll(s: Session, pool: Pool, ps: seq<Packet>, priority: Coord -> int): (Session, Pool)
    decreases |ps|
  {
    if ps == [] then (s, pool)
    else
      var d := HandlePacket(s, pool, ps[0], priority);
      ReceiveAll(d.session, d.pool, ps[1..], priority)
  }

  function ReplayTimes(s: Session, pool: Pool, n: nat, priority: Coord -> int): (Session, Pool)
    decreases n
  {
    if n == 0 then (s, pool)
    else
      var d := HandleDeferred(s, pool, priority);
      ReplayTimes(d.session, d.pool, n - 1, priority)
  }

  /** Packets that arrive while login is pending are kept in order. */
  lemma {:induction false} ArrivalsAreKept(s: Session, pool: Pool, ps: seq<Packet>, priority: Coord -> int)
    requires s.phase == LoginPending && |s.deferred| + |ps| <= 16
    ensures ReceiveAll(s, pool, ps, priority) == (s.(deferred := s.deferred + ps), pool)
    decreases |ps|
  {
    if ps != [] {
      ArrivalsAreKept(s.(deferred := s.deferred + [ps[0]]), pool, ps[1..], priority);
      assert s.deferred + ps == s.deferred + [ps[0]] + ps[1..];
    } else {
      assert s.deferred + ps == s.deferred;
    }
  }

  predicate PastLogin(s: Session) {
    s.phase != WaitingLogin && s.phase != LoginPending
  }

  /** Past login, what a packet does has nothing to do with what is deferred. */
  lemma DeferredIsInert(s: Session, pool: Pool, p: Packet, priority: Coord -> int, other: seq<Packet>)
    requires PastLogin(s)
    ensures var d, e := HandlePacket(s, pool, p, priority), HandlePacket(s.(deferred := other), pool, p, priority);
            && PastLogin(d.session) && d.session.deferred == s.deferred
            && e == Done(d.session.(deferred := other), d.pool, d.result)
  {
    var t := s.(deferred := other);
    if s.phase == Spawned && s.view.Some? && p.MovePlayer? && p.chunk.Some? {
      PlanIgnoresDeferred(s.(playerChunk := p.chunk), pool, p.chunk.value, WantedRadius(s), priority, other);
    } else if s.phase == Spawned && s.playerChunk.Some? && ValidRequest(p) {
      var wanted := MinRadius(p.radius, s.cap);
      PlanIgnoresDeferred(s.(desired := Some(wanted)), pool, s.playerChunk.value, wanted, priority, other);
    }
  }

  lemma PlanIgnoresDeferred(s: Session, pool: Pool, to: Coord, radius: i32, priority: Coord -> int, other: seq<Packet>)
    ensures var d := PlanViewTransition(s, pool, to, radius, priority);
            && d.session.deferred == s.deferred && d.session.phase == s.phase
            && PlanViewTransition(s.(deferred := other), pool, to, radius, priority)
               == Done(d.session.(deferred := other), d.pool, d.result)
  {
  }

  /** Replaying handles exactly the deferred packets, first in first out, as if each arrived then. */
  lemma {:induction false} ReplaysInOrder(s: Session, pool: Pool, priority: Coord -> int)
    requires PastLogin(s)
    ensures var (t, rest) := ReceiveAll(s.(deferred := []), pool, s.deferred, priority);
            ReplayTimes(s, pool, |s.deferred|, priority) == (t, rest) && t.deferred == []
    decreases |s.deferred|
  {
    if s.deferred != [] {
      var head, tail := s.deferred[0], s.deferred[1..];
      DeferredIsInert(s.(deferred := tail), pool, head, priority, []);
      var d := HandlePacket(s.(deferred := tail), pool, head, priority);
      assert d.session.(deferred := []).(deferred := tail) == d.session;
      ReplaysInOrder(d.session, d.pool, priority);
    }
  }

  // ----- preparing

  /** A mark succeeds exactly for an expected chunk of the right store that is held already or resident
      with room for a pin. It then holds the chunk, with one pin more exactly if it did not before. */
  lemma MarksExactly(s: Session, pool: Pool, store: nat, pos: Coord)
    ensures var d, k := MarkPrepared(s, pool, store, pos), Key(store, pos);
            && (d.result.Ok? <==>
                  && s.pending.Some? && pos in PreparePositions(s.pending.value)
                  && (s.view.Some? ==> s.view.value.store == store)
                  && (pos in s.pending.value.prepared.pinned
                      || (MatchesStore(s.pending.value.prepared, store) && k in pool && pool[k].pins < MAX_PINS)))
            && (d.result.Err? ==> d.session == s && d.pool == pool)
            && (d.result.Ok? ==>
                  var work, held := s.pending.value, s.pending.value.prepared;
                  if pos in held.pinned then d.session == s && d.pool == pool
                  else
                    && d.session == s.(pending := Some(work.(prepared := Prepared(Some(store), held.pinned + {pos}))))
                    && PinsOf(d.pool, k) == PinsOf(pool, k) + 1
                    && d.pool.Keys == pool.Keys && forall q :: q != k ==> PinsOf(d.pool, q) == PinsOf(pool, q))
  {
  }

  /** Why a mark is refused, first reason first. */
  lemma MarkRefusals(s: Session, pool: Pool, store: nat, pos: Coord)
    requires MarkPrepared(s, pool, store, pos).result.Err?
    ensures var e := MarkPrepared(s, pool, store, pos).result.error;
            if s.pending.None? then e == NoPendingWork
            else if s.view.Some? && s.view.value.store != store then e == OtherStore
            else if pos !in PreparePositions(s.pending.value) then e == NotInPendingView
            else if !MatchesStore(s.pending.value.prepared, store) then e == OtherStore
            else e == PinFailed
  {
  }

  function MarkAll(s: Session, pool: Pool, store: nat, ps: seq<Coord>): (Session, Pool)
    decreases |ps|
  {
    if ps == [] then (s, pool)
    else
      var d := MarkPrepared(s, pool, store, ps[0]);
      MarkAll(d.session, d.pool, store, ps[1..])
  }

  predicate CanPin(pool: Pool, k: Key) {
    k in pool && pool[k].pins < MAX_PINS
  }

  ghost predicate MarksPossible(s: Session, pool: Pool, store: nat, ps: seq<Coord>) {
    && s.pending.Some? && MatchesStore(s.pending.value.prepared, store)
    && (s.view.Some? ==> s.view.value.store == store) && Distinct(ps)
    && (forall p :: p in ps ==> p in PreparePositions(s.pending.value))
    && forall p :: p in ps ==> p in s.pending.value.prepared.pinned || CanPin(pool, Key(store, p))
  }

  lemma MarkOne(s: Session, pool: Pool, store: nat, ps: seq<Coord>)
    requires MarksPossible(s, pool, store, ps) && ps != []
    ensures var d := MarkPrepared(s, pool, store, ps[0]);
            && MarksPossible(d.session, d.pool, store, ps[1..])
            && d.session == s.(pending := Some(s.pending.value.(prepared := d.session.pending.value.prepared)))
            && d.session.pending.value.prepared.pinned == s.pending.value.prepared.pinned + {ps[0]}
  {
    var d := MarkPrepared(s, pool, store, ps[0]);
    MarksExactly(s, pool, store, ps[0]);
    assert ps[0] in ps;
    forall p | p in ps[1..]
      ensures p in ps && p != ps[0]
    {
      var i :| 0 <= i < |ps[1..]| && ps[1..][i] == p;
      assert ps[i + 1] == p;
    }
  }

  lemma {:induction false} MarkAllHolds(s: Session, pool: Pool, store: nat, ps: seq<Coord>)
    requires MarksPossible(s, pool, store, ps)
    ensures var t := MarkAll(s, pool, store, ps).0;
            && t.pending.Some? && t == s.(pending := Some(s.pending.value.(prepared := t.pending.value.prepared)))
            && t.pending.value.prepared.pinned == s.pending.value.prepared.pinned + Members(ps)
            && MatchesStore(t.pending.value.prepared, store)
    decreases |ps|
  {
    if ps != [] {
      MarkOne(s, pool, store, ps);
      var d := MarkPrepared(s, pool, store, ps[0]);
      MarkAllHolds(d.session, d.pool, store, ps[1..]);
      assert Members(ps) == {ps[0]} + Members(ps[1..]);
    }
  }

  lemma ExpectedAreDistinct(s: Session)
    requires Good(s) && s.pending.Some?
    ensures Distinct(PreparePositions(s.pending.value))
    ensures s.pending.value.prepared.pinned <= Members(PreparePositions(s.pending.value))
  {
    var w := s.pending.value;
    if s.phase == Spawned {
      var t := w.transition;
      TransitionIsExact(t.fromCenter, t.fromRadius, t.toCenter, t.toRadius);
      ReorderedFacts(t.entering, Outside(Square(t.toCenter, t.toRadius), t.fromCenter, t.fromRadius));
    } else {
      SquareIsView(w.center, w.effective);
      ReorderedFacts(w.prepare, Square(w.center, w.effective));
    }
  }

  /** Progress: once every expected chunk can be pinned, marking them all makes the pending work ready
      to send. */
  lemma PreparingCompletes(s: Session, pool: Pool, store: nat, bytes: nat)
    requires Good(s) && s.pending.Some? && MatchesStore(s.pending.value.prepared, store)
    requires s.view.Some? ==> s.view.value.store == store
    requires forall p :: p in PreparePositions(s.pending.value) ==> CanPin(pool, Key(store, p))
    ensures var t := MarkAll(s, pool, store, PreparePositions(s.pending.value)).0;
            CompletionPlan(t, store, Parcel(|SendPositions(s.pending.value)|, Some(bytes))).Ok?
  {
    var expected := PreparePositions(s.pending.value);
    ExpectedAreDistinct(s);
    MarkAllHolds(s, pool, store, expected);
    DistinctSize(expected);
  }

  // ----- planning and committing

  /** Pending work may be sent exactly if all it expects is held, the stores agree, and the parcel has
      the right count and encodes; otherwise the first of these that fails is named. */
  lemma PlansExactly(s: Session, store: nat, parcel: Parcel)
    requires Good(s)
    ensures var r := CompletionPlan(s, store, parcel);
            && (r == Err(NoPendingWork) <==> s.pending.None?)
            && (s.pending.Some? ==>
                  var w := s.pending.value;
                  var whole := w.prepared.pinned == Members(PreparePositions(w));
                  var same := MatchesStore(w.prepared, store) && (s.view.Some? ==> s.view.value.store == store);
                  var counted := parcel.packets == |SendPositions(w)|;
                  && (r == Err(NotPrepared) <==> !whole)
                  && (r == Err(OtherStore) <==> whole && !same)
                  && (r == Err(CountMismatch) <==> whole && same && !counted)
                  && (r == Err(EncodingFailed) <==> whole && same && counted && parcel.encoded.None?)
                  && (r.Ok? <==> whole && same && counted && parcel.encoded.Some?))
  {
    if s.pending.Some? {
      var w := s.pending.value;
      ExpectedAreDistinct(s);
      DistinctSize(PreparePositions(w));
      if IsComplete(w.prepared, PreparePositions(w)) {
        CompleteMeansAll(w.prepared, PreparePositions(w));
      }
    }
  }

  /** What is sent: an initial view always tells its radius and its metrics, a transition its radius
      exactly if that changes. */
  lemma PlanContents(s: Session, store: nat, parcel: Parcel)
    requires Good(s) && CompletionPlan(s, store, parcel).Ok?
    ensures var plan, w := CompletionPlan(s, store, parcel).value, s.pending.value;
            && plan.chunks == parcel.packets
            && (w.Initial? ==>
                  && plan.radius == Some(w.effective)
                  && plan.initial == Some(Metrics(w.requested, w.effective, parcel.packets, parcel.encoded.value + 1)))
            && (w.Shift? ==>
                  && plan.initial.None? && s.view.Some?
                  && var to := w.transition.toRadius;
                     plan.radius == if to != s.view.value.radius then Some(to) else None)
  {
  }

  /** A transition of any session commits exactly if it starts at the view, on its store, all held. */
  lemma ShiftCommitsExactly(s: Session, pool: Pool, sequence: nat)
    requires s.pending.Some? && s.pending.value.Shift?
    ensures var t, held := s.pending.value.transition, s.pending.value.prepared;
            CommitPending(s, pool, sequence).result.Ok? <==>
              && s.view.Some? && (t.fromCenter, t.fromRadius) == (s.view.value.center, s.view.value.radius)
              && MatchesStore(held, s.view.value.store) && IsComplete(held, t.entering)
  {
  }

  predicate InitialIsWhole(w: Pending)
    requires w.Initial?
  {
    IsComplete(w.prepared, w.send) || IsComplete(w.prepared, Square(w.center, w.effective))
  }

  /** Initial work of any session commits exactly if all of it is held, in some store. */
  lemma InitialCommitsExactly(s: Session, pool: Pool, sequence: nat)
    requires s.pending.Some? && s.pending.value.Initial?
    ensures CommitPending(s, pool, sequence).result.Ok? <==>
              InitialIsWhole(s.pending.value) && s.pending.value.prepared.store.Some?
  {
  }

  /** Why a commit fails, first reason first. */
  lemma CommitRefusals(s: Session, pool: Pool, sequence: nat)
    requires CommitPending(s, pool, sequence).result.Err?
    ensures var e := CommitPending(s, pool, sequence).result.error;
            if s.pending.None? then e == NoPendingWork
            else if s.pending.value.Initial? then
              e == if InitialIsWhole(s.pending.value) then NoStore else LostPins
            else if s.view.None? then e == NoActiveView
            else if s.view.value.center != s.pending.value.transition.fromCenter
                 || s.view.value.radius != s.pending.value.transition.fromRadius then e == ViewMoved
            else if !MatchesStore(s.pending.value.prepared, s.view.value.store) then e == OtherStore
            else e == LostPins
  {
  }

  /** A failed commit of any session takes the pending work and gives back every pin it held. */
  lemma FailedCommitReleases(s: Session, pool: Pool, sequence: nat)
    requires Covered(s, pool) && s.pending.Some? && CommitPending(s, pool, sequence).result.Err?
    requires s.pending.value.prepared.store.None? ==> s.pending.value.prepared.pinned == {}
    ensures var d := CommitPending(s, pool, sequence);
            d.session == s.(pending := None) && Moved(s, pool, d.session, d.pool)
  {
    ReplacingPendingMoves(s, pool, s.(pending := None));
  }

  /** Nothing is committed unless the queue took the packets. */
  lemma CommitsOnlyWhenQueued(s: Session, pool: Pool, store: nat, parcel: Parcel, queue: Queue, sequence: nat)
    ensures var d, plan := TryComplete(s, pool, store, parcel, queue, sequence), CompletionPlan(s, store, parcel);
            && (plan.Err? ==> d == Done(s, pool, Err(plan.error)))
            && (plan.Ok? && queue == Full ==> d == Done(s, pool, Ok(Backpressured)))
            && (plan.Ok? && queue == Closed ==> d == Done(s, pool, Ok(Gone)))
            && (plan.Ok? && queue == Accepted && d.result.Ok? ==>
                  d.result == if plan.value.initial.Some? then Ok(Joined(plan.value.initial.value)) else Ok(Shifted))
  {
  }

  /** The cursor moves exactly for a view on that store, and nothing else does. */
  lemma CursorMoves(s: Session, store: nat, cursor: nat)
    ensures var t := UpdateViewCursor(s, store, cursor);
            && t == s.(view := t.view)
            && (s.view.Some? && s.view.value.store == store ==> t.view == Some(s.view.value.(cursor := cursor)))
            && (s.view.None? || s.view.value.store != store ==> t == s)
  {
  }
}
