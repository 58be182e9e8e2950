/** The host: its sessions and the stores they share, as objects. Every call on it is the system step of
    the same name, so what holds of all runs of the system holds of the objects. */
module SessionHosts {
  import opened Coordinates
  import opened Options
  import opened Pins
  import opened Sessions
  import opened SessionObject
  import opened SessionSystem

  ghost function SlotOf(s: SessionState?): Slot
    reads s
  {
    if s == null then Ended else Live(s.Value())
  }

  ghost function SlotsOf(sessions: seq<SessionState?>): (r: seq<Slot>)
    reads sessions
    ensures |r| == |sessions| && forall i :: 0 <= i < |r| ==> r[i] == SlotOf(sessions[i])
  {
    seq(|sessions|, i requires 0 <= i < |sessions| reads sessions => SlotOf(sessions[i]))
  }

  /** A call on one session object. */
  method Perform(s: SessionState, pins: PinStore, e: Event)
    requires SessionEvent(e)
    modifies s, pins
    ensures (s.Value(), pins.pool) == SessionStep(old(s.Value()), old(pins.pool), e)
  {
    match e
    case Receive(_, packet, priority) => var _ := s.HandlePacket(pins, packet, priority);
    case ReplayDeferred(_, priority) =>
      var packet := s.TakeDeferred();
      if packet.Some? {
        var _ := s.HandlePacket(pins, packet.value, priority);
      }
    case LoginAnswer(_, spawn, encodes, queue) => s.TryAcceptLogin(spawn, encodes, queue);
    case ChunkReady(_, store, pos) => var _ := s.MarkPrepared(pins, store, pos);
    case Complete(_, store, parcel, queue, sequence) =>
      var _ := s.TryComplete(pins, store, parcel, queue, sequence);
    case MoveCursor(_, store, cursor) => var _ := s.UpdateViewCursor(store, cursor);
  }

  class SessionHost {
    const pins: PinStore
    /** A session is named by its arrival; one that has ended leaves nothing in its place. */
    var slots: seq<SessionState?>
    /** Pins that other owners took and have not given back. */
    var outside: multiset<Key>

    /** No two places hold the same session object. */
    ghost predicate Valid()
      reads this
    {
      forall i, j :: 0 <= i < j < |slots| && slots[i] != null ==> slots[i] != slots[j]
    }

    ghost function Value(): System
      reads this, slots, pins
    {
      System(pins.pool, outside, SlotsOf(slots))
    }

    constructor ()
      ensures Valid() && Value() == EMPTY && fresh(pins)
    {
      pins := new PinStore();
      slots, outside := [], multiset{};
    }

    method Connect(cap: i32)
      requires Valid()
      modifies this
      ensures Valid() && Value() == Step(old(Value()), Event.Connect(cap))
      ensures slots[..|slots| - 1] == old(slots) && fresh(slots[|slots| - 1])
    {
      var session := new SessionState(cap);
      slots := slots + [session];
    }

    method OnSession(id: nat, e: Event)
      requires Valid() && id < |slots| && slots[id] != null && SessionEvent(e) && e.id == id
      modifies pins, slots[id]
      ensures Valid() && Value() == Step(old(Value()), e)
    {
      Perform(slots[id], pins, e);
      assert SlotsOf(slots) == old(SlotsOf(slots))[id := SlotOf(slots[id])];
    }

    method Disconnect(id: nat)
      requires Valid() && id < |slots| && slots[id] != null
      modifies this, pins, slots[id]
      ensures Valid() && Value() == Step(old(Value()), Event.Disconnect(id))
      ensures slots == old(slots)[id := null]
    {
      slots[id].Drop(pins);
      slots := slots[id := null];
      assert SlotsOf(slots) == old(SlotsOf(slots))[id := Ended];
    }

    method TakePin(k: Key)
      requires Valid()
      modifies pins, this`outside
      ensures Valid() && Value() == Step(old(Value()), OutsidePin(k))
    {
      var ok := pins.PinChunk(k);
      if ok {
        outside := outside + multiset{k};
      }
    }

    method GiveBackPin(k: Key)
      requires Valid()
      modifies pins, this`outside
      ensures Valid() && Value() == Step(old(Value()), OutsideUnpin(k))
    {
      ghost var before := Value();
      if k in outside {
        var _ := pins.UnpinChunk(k);
        outside := outside - multiset{k};
        assert Value() == before.(pool := Unpin(before.pool, k), external := before.external - multiset{k});
      }
    }

    method OnStore(e: Event)
      requires Valid() && (e.Load? || e.Touch? || e.Evict?)
      modifies pins
      ensures Valid() && Value() == Step(old(Value()), e)
    {
      match e
      case Load(k, dirty) => pins.LoadIfAbsent(k, dirty);
      case Touch(k, dirty) => pins.Touch(k, dirty);
      case Evict(k) => var _ := pins.TryEvictChunk(k);
    }

    method Handle(e: Event)
      requires Valid()
      modifies this, pins, slots
      ensures Valid() && Value() == Step(old(Value()), e)
      ensures forall i :: 0 <= i < |slots| && slots[i] != null ==> slots[i] in old(slots) || fresh(slots[i])
    {
      if e.Connect? {
        Connect(e.cap);
      } else if e.Disconnect? {
        if e.id < |slots| && slots[e.id] != null {
          Disconnect(e.id);
        }
      } else if SessionEvent(e) {
        if e.id < |slots| && slots[e.id] != null {
          OnSession(e.id, e);
        }
      } else if e.OutsidePin? {
        TakePin(e.k);
      } else if e.OutsideUnpin? {
        GiveBackPin(e.k);
      } else {
        OnStore(e);
      }
    }
  }

  /** Any run of any number of sessions, performed on the objects: pins are conserved and every session
      keeps its invariant. */
  method Drive(events: seq<Event>) returns (host: SessionHost)
    ensures fresh(host) && host.Value() == Run(EMPTY, events)
    ensures Conserved(host.Value()) && AllGood(host.Value().sessions)
  {
    host := new SessionHost();
    assert events[..0] == [];
    for k := 0 to |events|
      invariant fresh(host) && fresh(host.pins) && host.Valid() && host.Value() == Run(EMPTY, events[..k])
      invariant forall i :: 0 <= i < |host.slots| && host.slots[i] != null ==> fresh(host.slots[i])
    {
      assert events[..k + 1][..k] == events[..k];
      host.Handle(events[k]);
    }
    assert events[..|events|] == events;
    PinsAreConserved(events);
  }
}
