/** The session as the program keeps it: fields updated in place beside a shared pin store. Every
    method is held to the function of the same name in Sessions. */
module SessionObject {
  import opened Coordinates
  import opened Options
  import opened Views
  import opened Pins
  import opened Sessions

  class SessionState {
    var phase: Phase
    const cap: i32
    var playerChunk: Option<Coord>
    var desired: Option<i32>
    var view: Option<View>
    var pending: Option<Pending>
    var deferred: seq<Packet>

    ghost function Value(): Session
      reads this
    {
      Session(phase, cap, playerChunk, desired, view, pending, deferred)
    }

    constructor (cap: i32)
      ensures Value() == NewSession(cap)
    {
      phase, this.cap, playerChunk, desired := WaitingLogin, cap, None, None;
      view, pending, deferred := None, None, [];
    }

    /** Drops pending work: its temporary pins go back to the store. */
    method DropPending(pins: PinStore)
      modifies this, pins
      ensures Value() == old(Value()).(pending := None)
      ensures pins.pool == ReleasePending(old(pins.pool), old(pending))
    {
      if pending.Some? && pending.value.prepared.store.Some? {
        pins.UnpinSet(pending.value.prepared.store.value, pending.value.prepared.pinned);
      }
      pending := None;
    }

    method PlanViewTransition(pins: PinStore, to: Coord, radius: i32, priority: Coord -> int) returns (r: Outcome<()>)
      modifies this, pins
      ensures Done(Value(), pins.pool, r) == Sessions.PlanViewTransition(old(Value()), old(pins.pool), to, radius,
          priority)
    {
      if view.None? {
        return Err(NoActiveView);
      }
      var transition := ChunkViewTransition(view.value.center, view.value.radius, to, radius);
      if transition.None? {
        DropPending(pins);
        desired := None;
        return Ok(());
      }
      var t := transition.value.(entering := SortBy(transition.value.entering, priority));
      if !(pending.Some? && pending.value.Shift? && SameRoute(pending.value.transition, t)) {
        DropPending(pins);
        pending := Some(Shift(t, NOTHING_PREPARED));
      }
      r := Ok(());
    }

    method BeginInitial(pins: PinStore, p: Packet, priority: Coord -> int) returns (r: Outcome<Action>)
      modifies this, pins
      ensures Done(Value(), pins.pool, r) == Sessions.BeginInitial(old(Value()), old(pins.pool), p, priority)
    {
      if !p.RequestChunkRadius? {
        return Err(ExpectedRadius);
      }
      var requested := RequestedRadius(p);
      if requested.Err? {
        return Err(requested.error);
      }
      if playerChunk.None? {
        return Err(LostSpawn);
      }
      var effective, center := MinRadius(requested.value, cap), playerChunk.value;
      var square := ViewPositions(center, effective);
      var send := InitialSendPositions(center, effective);
      var work := Initial(requested.value, effective, center, SortBy(square, priority), send, NOTHING_PREPARED);
      DropPending(pins);
      pending := Some(work);
      phase := WaitingInitialChunks;
      r := Ok(Consumed);
    }

    method HandleSpawned(pins: PinStore, p: Packet, priority: Coord -> int) returns (r: Outcome<Action>)
      modifies this, pins
      ensures Done(Value(), pins.pool, r) == Sessions.HandleSpawned(old(Value()), old(pins.pool), p, priority)
    {
      match p
      case MovePlayer(None) => return Err(BadMove);
      case MovePlayer(Some(chunk)) =>
        playerChunk := Some(chunk);
        if desired.None? && view.None? {
          return Err(NoActiveRadius);
        }
        var planned := PlanViewTransition(pins, chunk, if desired.Some?
            then desired.value else view.value.radius, priority);
        return if planned.Ok? then Ok(Forward) else Err(planned.error);
      case RequestChunkRadius(_, _) =>
        var requested := RequestedRadius(p);
        if requested.Err? {
          return Err(requested.error);
        }
        var effective := MinRadius(requested.value, cap);
        desired := Some(effective);
        if playerChunk.None? {
          return Err(LostSpawn);
        }
        var planned := PlanViewTransition(pins, playerChunk.value, effective, priority);
        return if planned.Ok? then Ok(Forward) else Err(planned.error);
      case _ => return Ok(Forward);
    }

    method HandlePacket(pins: PinStore, p: Packet, priority: Coord -> int) returns (r: Outcome<Action>)
      modifies this, pins
      ensures Done(Value(), pins.pool, r) == Sessions.HandlePacket(old(Value()), old(pins.pool), p, priority)
    {
      match phase
      case WaitingLogin =>
        if !p.Login? {
          return Err(ExpectedLogin);
        }
        if !p.wellFormed {
          return Err(BadLogin);
        }
        phase := LoginPending;
        return Ok(LoginRequested);
      case LoginPending =>
        if |deferred| >= MAX_DEFERRED {
          return Err(TooManyDeferred);
        }
        deferred := deferred + [p];
        return Ok(Consumed);
      case WaitingChunkRadius =>
        r := BeginInitial(pins, p, priority);
      case WaitingInitialChunks =>
        return if p.RequestChunkRadius? then Ok(Consumed) else Err(StillLoading);
      case Spawned =>
        r := HandleSpawned(pins, p, priority);
    }

    method TakeDeferred() returns (p: Option<Packet>)
      modifies this
      ensures p.None? <==> old(phase) == LoginPending || old(deferred) == []
      ensures p.None? ==> Value() == old(Value())
      ensures p.Some? ==> p.value == old(deferred)[0] && Value() == old(Value()).(deferred := old(deferred)[1..])
    {
      if phase == LoginPending || deferred == [] {
        return None;
      }
      p := Some(deferred[0]);
      deferred := deferred[1..];
    }

    method AcceptLogin(spawn: Coord, encodes: bool) returns (r: Outcome<()>)
      modifies this
      ensures (Value(), r) == Sessions.AcceptLogin(old(Value()), spawn, encodes)
    {
      if phase != LoginPending {
        return Err(NotAwaitingLogin);
      }
      if !encodes {
        return Err(EncodingFailed);
      }
      playerChunk := Some(spawn);
      phase := WaitingChunkRadius;
      r := Ok(());
    }

    method RollbackLogin()
      modifies this
      ensures Value() == Sessions.RollbackLogin(old(Value()))
    {
      if phase == WaitingChunkRadius && pending.None? && view.None? {
        phase := LoginPending;
        playerChunk := None;
      }
    }

    method MarkPrepared(pins: PinStore, store: nat, pos: Coord) returns (r: Outcome<()>)
      modifies this, pins
      ensures Done(Value(), pins.pool, r) == Sessions.MarkPrepared(old(Value()), old(pins.pool), store, pos)
    {
      if pending.None? {
        return Err(NoPendingWork);
      }
      var work := pending.value;
      var held := work.prepared;
      if view.Some? && view.value.store != store {
        return Err(OtherStore);
      }
      if pos !in PreparePositions(work) {
        return Err(NotInPendingView);
      }
      if pos in held.pinned {
        return Ok(());
      }
      if !MatchesStore(held, store) {
        return Err(OtherStore);
      }
      var pinned := pins.PinChunk(Key(store, pos));
      if !pinned {
        return Err(PinFailed);
      }
      pending := Some(work.(prepared := Prepared(Some(store), held.pinned + {pos})));
      r := Ok(());
    }

    method CommitInitial(pins: PinStore, work: Pending, sequence: nat) returns (r: Outcome<Option<Metrics>>)
      requires work.Initial? && pending == Some(work)
      modifies this, pins
      ensures Done(Value(), pins.pool, r) == Sessions.CommitInitial(old(Value()), old(pins.pool), work, sequence)
    {
      var held := work.prepared;
      var square := ViewPositions(work.center, work.effective);
      if !IsComplete(held, work.send) && !IsComplete(held, square) {
        DropPending(pins);
        return Err(LostPins);
      }
      pending := None;
      if held.store.None? {
        return Err(NoStore);
      }
      if view.Some? {
        pins.UnpinAll(view.value.store, view.value.pinned);
      }
      view := Some(View(held.store.value, work.center, work.effective, sequence, square));
      phase := Spawned;
      desired := None;
      r := Ok(Some(Metrics(work.requested, work.effective, |work.send|, 0)));
    }

    method CommitShift(pins: PinStore, work: Pending) returns (r: Outcome<Option<Metrics>>)
      requires work.Shift? && pending == Some(work)
      modifies this, pins
      ensures Done(Value(), pins.pool, r) == Sessions.CommitShift(old(Value()), old(pins.pool), work)
    {
      var t, held := work.transition, work.prepared;
      if view.None? {
        DropPending(pins);
        return Err(NoActiveView);
      }
      if view.value.center != t.fromCenter || view.value.radius != t.fromRadius {
        DropPending(pins);
        return Err(ViewMoved);
      }
      if !MatchesStore(held, view.value.store) {
        DropPending(pins);
        return Err(OtherStore);
      }
      if !IsComplete(held, t.entering) {
        DropPending(pins);
        return Err(LostPins);
      }
      pending := None;
      pins.UnpinAll(view.value.store, t.leaving);
      var square := ViewPositions(t.toCenter, t.toRadius);
      view := Some(view.value.(center := t.toCenter, radius := t.toRadius, pinned := square));
      desired := None;
      r := Ok(None);
    }

    method CommitPending(pins: PinStore, sequence: nat) returns (r: Outcome<Option<Metrics>>)
      modifies this, pins
      ensures Done(Value(), pins.pool, r) == Sessions.CommitPending(old(Value()), old(pins.pool), sequence)
    {
      if pending.None? {
        return Err(NoPendingWork);
      }
      if pending.value.Initial? {
        r := CommitInitial(pins, pending.value, sequence);
      } else {
        r := CommitShift(pins, pending.value);
      }
    }

    /** Moves the cursor of a view on the given store. */
    method UpdateViewCursor(store: nat, cursor: nat) returns (ok: bool)
      modifies this
      ensures ok <==> old(view).Some? && old(view).value.store == store
      ensures Value() == Sessions.UpdateViewCursor(old(Value()), store, cursor)
    {
      if view.None? || view.value.store != store {
        return false;
      }
      view := Some(view.value.(cursor := cursor));
      ok := true;
    }

    // ----- the host, holding the session lock

    method TryAcceptLogin(spawn: Coord, encodes: bool, queue: Queue)
      modifies this
      ensures Value() == Sessions.TryAcceptLogin(old(Value()), spawn, encodes, queue)
    {
      var accepted := AcceptLogin(spawn, encodes);
      if accepted.Ok? && !queue.Accepted? {
        RollbackLogin();
      }
    }

    method TryComplete(pins: PinStore, store: nat, parcel: Parcel, queue: Queue, sequence: nat)
        returns (r: Outcome<Completion>)
      modifies this, pins
      ensures Done(Value(), pins.pool, r)
           == Sessions.TryComplete(old(Value()), old(pins.pool), store, parcel, queue, sequence)
    {
      var plan := PlanCompletion(store, parcel);
      if plan.Err? {
        return Err(plan.error);
      }
      match queue
      case Full => return Ok(Backpressured);
      case Closed => return Ok(Gone);
      case Accepted =>
        var committed := CommitPending(pins, sequence);
        return if committed.Ok? then Ok(Completed(plan.value)) else Err(committed.error);
    }

    method PlanCompletion(store: nat, parcel: Parcel) returns (r: Outcome<Plan>)
      ensures r == CompletionPlan(Value(), store, parcel)
    {
      if pending.None? {
        return Err(NoPendingWork);
      }
      var work := pending.value;
      if !IsComplete(work.prepared, PreparePositions(work)) {
        return Err(NotPrepared);
      }
      if !MatchesStore(work.prepared, store) || (view.Some? && view.value.store != store) {
        return Err(OtherStore);
      }
      if parcel.packets != |SendPositions(work)| {
        return Err(CountMismatch);
      }
      if parcel.encoded.None? {
        return Err(EncodingFailed);
      }
      match work
      case Initial(requested, effective, _, _, send, _) =>
        return Ok(Plan(Some(effective), |send|, Some(Metrics(requested, effective, |send|, parcel.encoded.value + 1))));
      case Shift(t, _) =>
        var announced := if t.fromRadius != t.toRadius then Some(t.toRadius) else None;
        return Ok(Plan(announced, |t.entering|, None));
    }

    /** The session goes away: its view's pins and its temporary pins are released. */
    method Drop(pins: PinStore)
      modifies this, pins
      ensures pins.pool == DropSession(old(Value()), old(pins.pool))
      ensures view.None? && pending.None?
    {
      if view.Some? {
        pins.UnpinAll(view.value.store, view.value.pinned);
        view := None;
      }
      DropPending(pins);
    }
  }
}
