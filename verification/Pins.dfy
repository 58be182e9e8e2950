/** Residency pins of world stores: who may be evicted. Records other than pin counts and the
    dirty verdict play no part here. */
module Pins {
  import opened Coordinates
  import opened Options
  import opened Views

  const MAX_PINS: nat := 0xffff_ffff

  datatype Key = Key(store: nat, pos: Coord)
  datatype Resident = Resident(pins: nat, dirty: bool)
  type Pool = map<Key, Resident>

  datatype Eviction = Missing | Pinned(pins: nat) | Dirty | Evicted

  function PinsOf(pool: Pool, k: Key): nat {
    if k in pool then pool[k].pins else 0
  }

  /** Fails for a chunk that is not resident, or whose count is exhausted. */
  function Pin(pool: Pool, k: Key): Option<Pool> {
    if k !in pool || pool[k].pins >= MAX_PINS then None
    else Some(pool[k := pool[k].(pins := pool[k].pins + 1)])
  }

  /** An unpin whose result the caller ignores: a failed one changes nothing. */
  function Unpin(pool: Pool, k: Key): Pool {
    if k !in pool || pool[k].pins == 0 then pool else pool[k := pool[k].(pins := pool[k].pins - 1)]
  }

  function TryEvict(pool: Pool, k: Key): (Eviction, Pool) {
    if k !in pool then (Missing, pool)
    else if pool[k].pins != 0 then (Pinned(pool[k].pins), pool)
    else if pool[k].dirty then (Dirty, pool)
    else (Evicted, pool - {k})
  }

  /** Exactly a resident, unpinned and clean chunk goes, and nothing else changes. */
  lemma EvictsExactly(pool: Pool, k: Key)
    ensures var (r, rest) := TryEvict(pool, k);
            && (r == Evicted <==> k in pool && pool[k].pins == 0 && !pool[k].dirty)
            && (r == Missing <==> k !in pool)
            && (r == Dirty <==> k in pool && pool[k].pins == 0 && pool[k].dirty)
            && (r.Pinned? ==> r.pins == PinsOf(pool, k) > 0)
            && (r == Evicted ==> k !in rest)
            && forall q :: q != k || r != Evicted ==> (q in rest <==> q in pool) && (q in pool ==> rest[q] == pool[q])
  {
  }

  /** A pin succeeds exactly on a resident chunk with room, adds one there and nothing elsewhere; an
      unpin takes it back. */
  lemma PinsExactly(pool: Pool, k: Key)
    ensures Pin(pool, k).Some? <==> k in pool && pool[k].pins < MAX_PINS
    ensures Pin(pool, k).Some? ==>
              && PinsOf(Pin(pool, k).value, k) == PinsOf(pool, k) + 1
              && (forall q :: q != k ==> PinsOf(Pin(pool, k).value, q) == PinsOf(pool, q))
              && Unpin(Pin(pool, k).value, k) == pool
  {
  }

  function UnpinList(pool: Pool, store: nat, ps: seq<Coord>): Pool
    decreases |ps|
  {
    if ps == [] then pool else UnpinList(Unpin(pool, Key(store, ps[0])), store, ps[1..])
  }

  /** One pin less on every pinned chunk of `ps`. */
  function Release(pool: Pool, store: nat, ps: set<Coord>): (r: Pool)
    ensures r.Keys == pool.Keys
  {
    map k | k in pool :: if k.store == store && k.pos in ps && pool[k].pins > 0
      then pool[k].(pins := pool[k].pins - 1) else pool[k]
  }

  lemma {:induction false} UnpinListReleases(pool: Pool, store: nat, ps: seq<Coord>)
    requires Distinct(ps)
    ensures UnpinList(pool, store, ps) == Release(pool, store, Members(ps))
    decreases |ps|
  {
    if ps == [] {
      assert Release(pool, store, Members(ps)) == pool;
    } else {
      var rest := ps[1..];
      UnpinListReleases(Unpin(pool, Key(store, ps[0])), store, rest);
      assert ps[0] !in Members(rest);
      assert Members(ps) == Members(rest) + {ps[0]};
      ReleaseOneMore(pool, store, Members(rest), ps[0]);
    }
  }

  lemma ReleaseOneMore(pool: Pool, store: nat, ps: set<Coord>, p: Coord)
    requires p !in ps
    ensures Release(Unpin(pool, Key(store, p)), store, ps) == Release(pool, store, ps + {p})
  {
  }

  /** The store's pin records as the program keeps them. */
  class PinStore {
    var pool: Pool

    constructor ()
      ensures pool == map[]
    {
      pool := map[];
    }

    method PinChunk(k: Key) returns (ok: bool)
      modifies this
      ensures ok == Pin(old(pool), k).Some?
      ensures pool == if ok then Pin(old(pool), k).value else old(pool)
    {
      if k !in pool || pool[k].pins >= MAX_PINS {
        return false;
      }
      pool := pool[k := pool[k].(pins := pool[k].pins + 1)];
      ok := true;
    }

    method UnpinChunk(k: Key) returns (ok: bool)
      modifies this
      ensures pool == Unpin(old(pool), k) && ok == (PinsOf(old(pool), k) > 0)
    {
      if k !in pool || pool[k].pins == 0 {
        return false;
      }
      pool := pool[k := pool[k].(pins := pool[k].pins - 1)];
      ok := true;
    }

    /** Loads an absent chunk unpinned; a resident one is left alone. */
    method LoadIfAbsent(k: Key, dirty: bool)
      modifies this
      ensures pool == if k in old(pool) then old(pool) else old(pool)[k := Resident(0, dirty)]
    {
      if k !in pool {
        pool := pool[k := Resident(0, dirty)];
      }
    }

    /** A resident chunk is written or saved; its pins stay. */
    method Touch(k: Key, dirty: bool)
      modifies this
      ensures pool == if k in old(pool) then old(pool)[k := old(pool)[k].(dirty := dirty)] else old(pool)
    {
      if k in pool {
        pool := pool[k := pool[k].(dirty := dirty)];
      }
    }

    method TryEvictChunk(k: Key) returns (r: Eviction)
      modifies this
      ensures (r, pool) == TryEvict(old(pool), k)
    {
      if k !in pool {
        return Missing;
      }
      if pool[k].pins != 0 {
        return Pinned(pool[k].pins);
      }
      if pool[k].dirty {
        return Dirty;
      }
      pool := pool - {k};
      r := Evicted;
    }

    /** Releases a view's pins in list order. */
    method UnpinAll(store: nat, ps: seq<Coord>)
      modifies this
      ensures pool == UnpinList(old(pool), store, ps)
    {
      assert ps[0..] == ps;
      for i := 0 to |ps|
        invariant UnpinList(pool, store, ps[i..]) == UnpinList(old(pool), store, ps)
      {
        var _ := UnpinChunk(Key(store, ps[i]));
        assert ps[i..][1..] == ps[i + 1..];
      }
    }

    /** Releases temporary pins, whatever order the set yields them in. */
    method UnpinSet(store: nat, ps: set<Coord>)
      modifies this
      ensures pool == Release(old(pool), store, ps)
    {
      var left := ps;
      while left != {}
        invariant left <= ps
        invariant pool == Release(old(pool), store, ps - left)
        decreases left
      {
        var p :| p in left;
        ghost var before := pool;
        var _ := UnpinChunk(Key(store, p));
        assert ps - (left - {p}) == (ps - left) + {p};
        left := left - {p};
        assert pool == Release(old(pool), store, ps - left);
      }
    }
  }
}
