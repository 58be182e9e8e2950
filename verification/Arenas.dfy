/** Generational storage behind stable identities: a handle that was removed never resolves again,
    and no handle is issued twice. */
module ArenaSlots {
  import opened Options

  const U32_MAX: nat := 0xffff_ffff

  datatype Handle = Handle(index: nat, generation: nat)

  datatype Slot<T> = Slot(generation: nat, value: Option<T>, retired: bool)

  predicate Resolves<T>(slots: seq<Slot<T>>, h: Handle) {
    h.index < |slots| && slots[h.index].generation == h.generation && slots[h.index].value.Some?
  }

  /** The free list names, once each, exactly the slots that are empty and not retired. */
  ghost predicate FreeListed<T>(slots: seq<Slot<T>>, free: seq<nat>) {
    && (forall i, j :: 0 <= i < j < |free| ==> free[i] != free[j])
    && (forall k :: 0 <= k < |free| ==> free[k] < |slots| && !slots[free[k]].retired)
    && (forall i :: 0 <= i < |slots| ==> (slots[i].value.None? <==> slots[i].retired || i in free))
  }

  /** Issued handles are not newer than their slot; a free slot's generation is still unissued;
      what is live was issued; what was removed does not resolve. */
  ghost predicate Identified<T>(slots: seq<Slot<T>>, free: seq<nat>, issued: set<Handle>, removed: set<Handle>) {
    && (forall i :: 0 <= i < |slots| ==> 1 <= slots[i].generation <= U32_MAX)
    && (forall h :: h in issued ==> h.index < |slots| && h.generation <= slots[h.index].generation)
    && (forall h :: h in issued && h.index in free ==> h.generation < slots[h.index].generation)
    && (forall i :: 0 <= i < |slots| && slots[i].value.Some? ==> Handle(i, slots[i].generation) in issued)
    && (forall h :: h in removed ==> h in issued && !Resolves(slots, h))
  }

  function LiveCount<T>(slots: seq<Slot<T>>): nat {
    if slots == [] then 0
    else LiveCount(slots[..|slots| - 1]) + if slots[|slots| - 1].value.Some? then 1 else 0
  }

  lemma {:induction false} CountAfterUpdate<T>(slots: seq<Slot<T>>, i: nat, slot: Slot<T>)
    requires i < |slots|
    ensures LiveCount(slots[i := slot]) + (if slots[i].value.Some? then 1 else 0)
         == LiveCount(slots) + (if slot.value.Some? then 1 else 0)
  {
    var last, changed := |slots| - 1, slots[i := slot];
    if i == last {
      assert changed[..last] == slots[..last];
    } else {
      assert changed[..last] == slots[..last][i := slot];
      CountAfterUpdate(slots[..last], i, slot);
    }
  }

  function Reused<T>(slots: seq<Slot<T>>, i: nat, value: T): seq<Slot<T>>
    requires i < |slots|
  {
    slots[i := slots[i].(value := Some(value))]
  }

  lemma ReuseKeepsFree<T>(slots: seq<Slot<T>>, free: seq<nat>, value: T)
    requires FreeListed(slots, free) && free != []
    ensures FreeListed(Reused(slots, free[|free| - 1], value), free[..|free| - 1])
  {
  }

  lemma ReuseKeepsIdentity<T>(slots: seq<Slot<T>>, free: seq<nat>, issued: set<Handle>, removed: set<Handle>, value: T)
    requires FreeListed(slots, free) && free != [] && Identified(slots, free, issued, removed)
    ensures var i := free[|free| - 1];
            var h := Handle(i, slots[i].generation);
            && h !in issued
            && Identified(Reused(slots, i, value), free[..|free| - 1], issued + {h}, removed)
            && forall g :: g in issued ==> (Resolves(Reused(slots, i, value), g) <==> Resolves(slots, g))
  {
  }

  function Grown<T>(slots: seq<Slot<T>>, value: T): seq<Slot<T>> {
    slots + [Slot(1, Some(value), false)]
  }

  lemma GrowKeepsFree<T>(slots: seq<Slot<T>>, free: seq<nat>, value: T)
    requires FreeListed(slots, free)
    ensures FreeListed(Grown(slots, value), free)
  {
  }

  lemma GrowKeepsIdentity<T>(slots: seq<Slot<T>>, free: seq<nat>, issued: set<Handle>, removed: set<Handle>, value: T)
    requires FreeListed(slots, free) && Identified(slots, free, issued, removed)
    ensures Handle(|slots|, 1) !in issued
    ensures Identified(Grown(slots, value), free, issued + {Handle(|slots|, 1)}, removed)
    ensures forall g :: g in issued ==> (Resolves(Grown(slots, value), g) <==> Resolves(slots, g))
  {
  }

  /** Emptied under the next generation, or retired at the last one. */
  function Emptied<T>(s: Slot<T>): Slot<T> {
    if s.generation < U32_MAX then Slot(s.generation + 1, None, s.retired) else s.(value := None, retired := true)
  }

  function FreeAfter<T>(slots: seq<Slot<T>>, free: seq<nat>, i: nat): seq<nat>
    requires i < |slots|
  {
    if slots[i].generation < U32_MAX then free + [i] else free
  }

  lemma RemoveKeepsFree<T>(slots: seq<Slot<T>>, free: seq<nat>, h: Handle)
    requires FreeListed(slots, free) && Resolves(slots, h)
    ensures FreeListed(slots[h.index := Emptied(slots[h.index])], FreeAfter(slots, free, h.index))
  {
  }

  lemma RemoveKeepsIdentity<T>(slots: seq<Slot<T>>, free: seq<nat>, issued: set<Handle>, removed: set<Handle>,
                               h: Handle)
    requires FreeListed(slots, free) && Resolves(slots, h) && Identified(slots, free, issued, removed)
    ensures var fewer := slots[h.index := Emptied(slots[h.index])];
            && h in issued
            && Identified(fewer, FreeAfter(slots, free, h.index), issued, removed + {h})
            && forall g :: g in issued ==> (Resolves(fewer, g) <==> Resolves(slots, g) && g != h)
  {
  }
}

module Arenas {
  import opened Options
  import opened ArenaSlots

  class Arena<T> {
    var slots: seq<Slot<T>>
    var free: seq<nat>
    var len: nat

    /** Every handle ever issued, and those removed. */
    ghost var issued: set<Handle>
    ghost var removed: set<Handle>

    ghost predicate Valid()
      reads this
    {
      FreeListed(slots, free) && Identified(slots, free, issued, removed) && len == LiveCount(slots)
    }

    constructor ()
      ensures Valid() && issued == {} && removed == {} && slots == [] && len == 0
    {
      slots, free, len := [], [], 0;
      issued, removed := {}, {};
    }

    /** Fails only when every index is taken; a handle it returns is new. */
    method Insert(value: T) returns (h: Option<Handle>)
      requires Valid()
      modifies this
      ensures Valid() && removed == old(removed)
      ensures h.None? <==> old(free) == [] && |old(slots)| > U32_MAX
      ensures h.None? ==> issued == old(issued) && slots == old(slots) && len == old(len)
      ensures h.Some? ==> len == old(len) + 1
      ensures h.Some? ==> h.value !in old(issued) && issued == old(issued) + {h.value}
      ensures h.Some? ==> Resolves(slots, h.value) && slots[h.value.index].value == Some(value)
      ensures forall g :: g in old(issued) ==> (Resolves(slots, g) <==> Resolves(old(slots), g))
    {
      if free != [] {
        var reused := Reuse(value);
        return Some(reused);
      }
      if |slots| > U32_MAX {
        return None;
      }
      var grown := Grow(value);
      h := Some(grown);
    }

    method Grow(value: T) returns (h: Handle)
      requires Valid()
      modifies this
      ensures Valid() && removed == old(removed)
      ensures h !in old(issued) && issued == old(issued) + {h}
      ensures Resolves(slots, h) && slots[h.index].value == Some(value) && len == old(len) + 1
      ensures forall g :: g in old(issued) ==> (Resolves(slots, g) <==> Resolves(old(slots), g))
    {
      GrowKeepsFree(slots, free, value);
      GrowKeepsIdentity(slots, free, issued, removed, value);
      h := Handle(|slots|, 1);
      assert Grown(slots, value)[..|slots|] == slots;
      slots := Grown(slots, value);
      len := len + 1;
      issued := issued + {h};
    }

    method Reuse(value: T) returns (h: Handle)
      requires Valid() && free != []
      modifies this
      ensures Valid() && removed == old(removed)
      ensures h !in old(issued) && issued == old(issued) + {h}
      ensures Resolves(slots, h) && slots[h.index].value == Some(value) && len == old(len) + 1
      ensures forall g :: g in old(issued) ==> (Resolves(slots, g) <==> Resolves(old(slots), g))
    {
      var index := free[|free| - 1];
      ReuseKeepsFree(slots, free, value);
      ReuseKeepsIdentity(slots, free, issued, removed, value);
      h := Handle(index, slots[index].generation);
      CountAfterUpdate(slots, index, slots[index].(value := Some(value)));
      free := free[..|free| - 1];
      slots := Reused(slots, index, value);
      len := len + 1;
      issued := issued + {h};
    }

    method Get(h: Handle) returns (r: Option<T>)
      requires Valid()
      ensures r.Some? <==> Resolves(slots, h)
      ensures r.Some? ==> r == slots[h.index].value
      ensures h in removed ==> r.None?
    {
      if h.index >= |slots| || slots[h.index].generation != h.generation {
        return None;
      }
      r := slots[h.index].value;
    }

    /** Takes a live value out; its slot is reused under the next generation or retired. */
    method Remove(h: Handle) returns (r: Option<T>)
      requires Valid()
      modifies this
      ensures Valid() && issued == old(issued)
      ensures r.Some? <==> Resolves(old(slots), h)
      ensures r.Some? ==> r == old(slots)[h.index].value
      ensures removed == if r.Some? then old(removed) + {h} else old(removed)
      ensures r.None? ==> slots == old(slots) && len == old(len)
      ensures r.Some? ==> len + 1 == old(len)
      ensures forall g :: g in issued ==> (Resolves(slots, g) <==> Resolves(old(slots), g) && g != h)
    {
      if h.index >= |slots| || slots[h.index].generation != h.generation || slots[h.index].value.None? {
        return None;
      }
      r := slots[h.index].value;
      Vacate(h);
    }

    method Vacate(h: Handle)
      requires Valid() && Resolves(slots, h)
      modifies this
      ensures Valid() && issued == old(issued) && removed == old(removed) + {h} && len + 1 == old(len)
      ensures forall g :: g in issued ==> (Resolves(slots, g) <==> Resolves(old(slots), g) && g != h)
    {
      RemoveKeepsFree(slots, free, h);
      RemoveKeepsIdentity(slots, free, issued, removed, h);
      CountAfterUpdate(slots, h.index, Emptied(slots[h.index]));
      free, slots := FreeAfter(slots, free, h.index), slots[h.index := Emptied(slots[h.index])];
      len := len - 1;
      removed := removed + {h};
    }
  }
}
