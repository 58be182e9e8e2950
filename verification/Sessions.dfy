/** One session's join phases and its two-phase chunk view protocol, as functions on values.

    A pending work item owns temporary pins, an active view owns one pin per chunk of its square.
    Replacing or losing either releases its pins; committing hands temporary pins to the view. */
module Sessions {
  import opened Coordinates
  import opened Options
  import opened Views
  import opened Pins

  const MAX_DEFERRED: nat := 16

  datatype Phase = WaitingLogin | LoginPending | WaitingChunkRadius | WaitingInitialChunks | Spawned

  /** A decoded packet. `wellFormed` and `chunk` are the verdicts of the codecs: a login that
      parses, and the chunk of a finite in-range position. */
  datatype Packet =
    | Login(wellFormed: bool)
    | RequestChunkRadius(bodyLength: nat, radius: i32)
    | MovePlayer(chunk: Option<Coord>)
    | Other(id: nat)

  datatype Error =
    | ExpectedLogin | BadLogin | TooManyDeferred | ExpectedRadius | BadRadius | LostSpawn
    | StillLoading | BadMove | NoActiveRadius | NoActiveView | NoPendingWork | NotInPendingView
    | OtherStore | PinFailed | NotPrepared | CountMismatch | EncodingFailed | LostPins
    | NoStore | ViewMoved | NotAwaitingLogin

  datatype Outcome<T> = Ok(value: T) | Err(error: Error)

  datatype Action = LoginRequested | Forward | Consumed

  datatype Prepared = Prepared(store: Option<nat>, pinned: set<Coord>)

  /** `cursor` is the number of the last change of the store that the view has seen. */
  datatype View = View(store: nat, center: Coord, radius: i32, cursor: nat, pinned: seq<Coord>)

  datatype Pending =
    | Initial(requested: i32, effective: i32, center: Coord, prepare: seq<Coord>, send: seq<Coord>, prepared: Prepared)
    | Shift(transition: Transition, prepared: Prepared)

  datatype Session = Session(phase: Phase, cap: i32, playerChunk: Option<Coord>, desired: Option<i32>,
                             view: Option<View>, pending: Option<Pending>, deferred: seq<Packet>)

  /** What a call leaves behind, and what it returned. */
  datatype Done<T> = Done(session: Session, pool: Pool, result: Outcome<T>)

  function NewSession(cap: i32): Session {
    Session(WaitingLogin, cap, None, None, None, None, [])
  }

  // ----- ownership

  const NOTHING_PREPARED := Prepared(None, {})

  function ReleasePrepared(pool: Pool, p: Prepared): Pool {
    if p.store.None? then pool else Release(pool, p.store.value, p.pinned)
  }

  function ReleasePending(pool: Pool, pending: Option<Pending>): Pool {
    if pending.None? then pool else ReleasePrepared(pool, pending.value.prepared)
  }

  function ReleaseView(pool: Pool, view: Option<View>): Pool {
    if view.None? then pool else UnpinList(pool, view.value.store, view.value.pinned)
  }

  function DropSession(s: Session, pool: Pool): Pool {
    ReleasePending(ReleaseView(pool, s.view), s.pending)
  }

  function PreparePositions(p: Pending): seq<Coord> {
    if p.Initial? then p.prepare else p.transition.entering
  }

  function SendPositions(p: Pending): seq<Coord> {
    if p.Initial? then p.send else p.transition.entering
  }

  predicate IsComplete(p: Prepared, expected: seq<Coord>) {
    |p.pinned| == |expected| && forall c :: c in expected ==> c in p.pinned
  }

  predicate MatchesStore(p: Prepared, store: nat) {
    p.store.None? || p.store.value == store
  }

  // ----- inbound packets

  function MinRadius(a: i32, b: i32): i32 {
    if a <= b then a else b
  }

  function RequestedRadius(p: Packet): Outcome<i32>
    requires p.RequestChunkRadius?
  {
    if p.bodyLength != 4 || p.radius <= 0 then Err(BadRadius) else Ok(p.radius)
  }

  /** The transition pending work should be replaced by, or nothing if there is nowhere to go. */
  function PlannedPending(view: View, to: Coord, radius: i32, priority: Coord -> int): Option<Pending> {
    match ViewTransition(view.center, view.radius, to, radius)
    case None => None
    case Some(plain) => Some(Shift(plain.(entering := SortBy(plain.entering, priority)), NOTHING_PREPARED))
  }

  predicate UnderWay(current: Option<Pending>, planned: Option<Pending>) {
    && current.Some? && current.value.Shift? && planned.Some? && planned.value.Shift?
    && SameRoute(current.value.transition, planned.value.transition)
  }

  /** Replaces the pending transition unless the same one is already under way. */
  function PlanViewTransition(s: Session, pool: Pool, to: Coord, radius: i32, priority: Coord -> int): Done<()> {
    if s.view.None? then Done(s, pool, Err(NoActiveView))
    else
      var planned := PlannedPending(s.view.value, to, radius, priority);
      if UnderWay(s.pending, planned) then Done(s, pool, Ok(()))
      else
        Done(s.(pending := planned, desired := if planned.None? then None else s.desired),
             ReleasePending(pool, s.pending), Ok(()))
  }

  predicate SameRoute(a: Transition, b: Transition) {
    a.fromCenter == b.fromCenter && a.fromRadius == b.fromRadius && a.toCenter == b.toCenter && a.toRadius == b.toRadius
  }

  function BeginInitial(s: Session, pool: Pool, p: Packet, priority: Coord -> int): Done<Action> {
    if !p.RequestChunkRadius? then Done(s, pool, Err(ExpectedRadius))
    else
      match RequestedRadius(p)
      case Err(e) => Done(s, pool, Err(e))
      case Ok(requested) =>
        if s.playerChunk.None? then Done(s, pool, Err(LostSpawn))
        else
          var effective, center := MinRadius(requested, s.cap), s.playerChunk.value;
          var work := Initial(requested, effective, center, SortBy(Square(center, effective), priority),
                              SendOrder(center, effective), NOTHING_PREPARED);
          Done(s.(pending := Some(work), phase := WaitingInitialChunks), ReleasePending(pool, s.pending), Ok(Consumed))
  }

  function Forwarded(d: Done<()>): Done<Action> {
    Done(d.session, d.pool, if d.result.Ok? then Ok(Forward) else Err(d.result.error))
  }

  function HandleSpawned(s: Session, pool: Pool, p: Packet, priority: Coord -> int): Done<Action> {
    match p
    case MovePlayer(None) => Done(s, pool, Err(BadMove))
    case MovePlayer(Some(chunk)) =>
      var moved := s.(playerChunk := Some(chunk));
      if s.desired.None? && s.view.None? then Done(moved, pool, Err(NoActiveRadius))
      else
        Forwarded(PlanViewTransition(moved, pool, chunk, if s.desired.Some?
            then s.desired.value else s.view.value.radius, priority))
    case RequestChunkRadius(_, _) =>
      (match RequestedRadius(p)
       case Err(e) => Done(s, pool, Err(e))
       case Ok(requested) =>
         var effective := MinRadius(requested, s.cap);
         var wanting := s.(desired := Some(effective));
         if s.playerChunk.None? then Done(wanting, pool, Err(LostSpawn))
         else Forwarded(PlanViewTransition(wanting, pool, s.playerChunk.value, effective, priority)))
    case _ => Done(s, pool, Ok(Forward))
  }

  function HandlePacket(s: Session, pool: Pool, p: Packet, priority: Coord -> int): Done<Action> {
    match s.phase
    case WaitingLogin =>
      if !p.Login? then Done(s, pool, Err(ExpectedLogin))
      else if !p.wellFormed then Done(s, pool, Err(BadLogin))
      else Done(s.(phase := LoginPending), pool, Ok(LoginRequested))
    case LoginPending =>
      if |s.deferred| >= MAX_DEFERRED then Done(s, pool, Err(TooManyDeferred))
      else Done(s.(deferred := s.deferred + [p]), pool, Ok(Consumed))
    case WaitingChunkRadius => BeginInitial(s, pool, p, priority)
    case WaitingInitialChunks => Done(s, pool, if p.RequestChunkRadius? then Ok(Consumed) else Err(StillLoading))
    case Spawned => HandleSpawned(s, pool, p, priority)
  }

  /** Packets that arrived during login acceptance are handled once it is over. */
  function HandleDeferred(s: Session, pool: Pool, priority: Coord -> int): Done<Action> {
    if s.phase == LoginPending || s.deferred == [] then Done(s, pool, Ok(Consumed))
    else HandlePacket(s.(deferred := s.deferred[1..]), pool, s.deferred[0], priority)
  }

  // ----- login acceptance

  function AcceptLogin(s: Session, spawn: Coord, encodes: bool): (Session, Outcome<()>) {
    if s.phase != LoginPending then (s, Err(NotAwaitingLogin))
    else if !encodes then (s, Err(EncodingFailed))
    else (s.(playerChunk := Some(spawn), phase := WaitingChunkRadius), Ok(()))
  }

  function RollbackLogin(s: Session): Session {
    if s.phase == WaitingChunkRadius && s.pending.None? && s.view.None?
    then s.(phase := LoginPending, playerChunk := None) else s
  }

  // ----- preparing, planning and committing

  function MarkPrepared(s: Session, pool: Pool, store: nat, pos: Coord): Done<()> {
    if s.pending.None? then Done(s, pool, Err(NoPendingWork))
    else
      var work := s.pending.value;
      var held := work.prepared;
      if s.view.Some? && s.view.value.store != store then Done(s, pool, Err(OtherStore))
      else if pos !in PreparePositions(work) then Done(s, pool, Err(NotInPendingView))
      else if pos in held.pinned then Done(s, pool, Ok(()))
      else if !MatchesStore(held, store) then Done(s, pool, Err(OtherStore))
      else
        match Pin(pool, Key(store, pos))
        case None => Done(s, pool, Err(PinFailed))
        case Some(pool') =>
          Done(s.(pending := Some(work.(prepared := Prepared(Some(store), held.pinned + {pos})))), pool', Ok(()))
  }

  /** Encoded chunks on their way to the client: how many, and the bytes they encode to, if they do. */
  datatype Parcel = Parcel(packets: nat, encoded: Option<nat>)

  datatype Metrics = Metrics(requested: i32, effective: i32, chunks: nat, bytes: nat)

  /** What is sent: a new radius if there is one, the chunks, and the spawn status with an initial view. */
  datatype Plan = Plan(radius: Option<i32>, chunks: nat, initial: Option<Metrics>)

  /** Checks that the pending work may be sent; changes nothing. */
  function CompletionPlan(s: Session, store: nat, parcel: Parcel): Outcome<Plan> {
    if s.pending.None? then Err(NoPendingWork)
    else
      var work := s.pending.value;
      if !IsComplete(work.prepared, PreparePositions(work)) then Err(NotPrepared)
      else if !MatchesStore(work.prepared, store) then Err(OtherStore)
      else if s.view.Some? && s.view.value.store != store then Err(OtherStore)
      else if parcel.packets != |SendPositions(work)| then Err(CountMismatch)
      else if parcel.encoded.None? then Err(EncodingFailed)
      else Ok(PlanFor(work, parcel.encoded.value))
  }

  function PlanFor(work: Pending, encoded: nat): Plan {
    match work
    case Initial(requested, effective, _, _, send, _) =>
      Plan(Some(effective), |send|, Some(Metrics(requested, effective, |send|, encoded + 1)))
    case Shift(t, _) => Plan(if t.fromRadius == t.toRadius then None else Some(t.toRadius), |t.entering|, None)
  }

  /** `sequence` is the number of the store's latest change. */
  function CommitInitial(s: Session, pool: Pool, work: Pending, sequence: nat): Done<Option<Metrics>>
    requires work.Initial?
  {
    var held := work.prepared;
    var square := Square(work.center, work.effective);
    if !IsComplete(held, work.send) && !IsComplete(held, square) then
      Done(s.(pending := None), ReleasePrepared(pool, held), Err(LostPins))
    else if held.store.None? then Done(s.(pending := None), pool, Err(NoStore))
    else
      Done(s.(pending := None, phase := Spawned, desired := None,
              view := Some(View(held.store.value, work.center, work.effective, sequence, square))),
           ReleaseView(pool, s.view), Ok(Some(Metrics(work.requested, work.effective, |work.send|, 0))))
  }

  function CommitShift(s: Session, pool: Pool, work: Pending): Done<Option<Metrics>>
    requires work.Shift?
  {
    var t, held, idle := work.transition, work.prepared, s.(pending := None);
    if s.view.None? then Done(idle, ReleasePrepared(pool, held), Err(NoActiveView))
    else
      var view := s.view.value;
      if view.center != t.fromCenter || view.radius != t.fromRadius then
        Done(idle, ReleasePrepared(pool, held), Err(ViewMoved))
      else if !MatchesStore(held, view.store) then Done(idle, ReleasePrepared(pool, held), Err(OtherStore))
      else if !IsComplete(held, t.entering) then Done(idle, ReleasePrepared(pool, held), Err(LostPins))
      else
        Done(idle.(desired := None,
                   view := Some(view.(center := t.toCenter, radius := t.toRadius, pinned := Square(t.toCenter,
                       t.toRadius)))),
             UnpinList(pool, view.store, t.leaving), Ok(None))
  }

  function CommitPending(s: Session, pool: Pool, sequence: nat): Done<Option<Metrics>> {
    if s.pending.None? then Done(s, pool, Err(NoPendingWork))
    else if s.pending.value.Initial? then CommitInitial(s, pool, s.pending.value, sequence)
    else CommitShift(s, pool, s.pending.value)
  }

  function UpdateViewCursor(s: Session, store: nat, cursor: nat): Session {
    if s.view.None? || s.view.value.store != store then s else s.(view := Some(s.view.value.(cursor := cursor)))
  }

  // ----- the host's two compound calls, under the session lock

  datatype Queue = Accepted | Full | Closed
  datatype Completion = Joined(metrics: Metrics) | Shifted | Backpressured | Gone

  function TryAcceptLogin(s: Session, spawn: Coord, encodes: bool, queue: Queue): Session {
    var (accepted, result) := AcceptLogin(s, spawn, encodes);
    if result.Err? then s else if queue.Accepted? then accepted else RollbackLogin(accepted)
  }

  function Completed(plan: Plan): Completion {
    if plan.initial.Some? then Joined(plan.initial.value) else Shifted
  }

  /** Queues the packets first; commits only once the queue has taken them. */
  function TryComplete(s: Session, pool: Pool, store: nat, parcel: Parcel, queue: Queue,
                       sequence: nat): Done<Completion> {
    var plan := CompletionPlan(s, store, parcel);
    if plan.Err? then Done(s, pool, Err(plan.error))
    else
      match queue
      case Full => Done(s, pool, Ok(Backpressured))
      case Closed => Done(s, pool, Ok(Gone))
      case Accepted =>
        var d := CommitPending(s, pool, sequence);
        Done(d.session, d.pool, if d.result.Ok? then Ok(Completed(plan.value)) else Err(d.result.error))
  }
}
