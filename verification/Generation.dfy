/** The lifecycle of infinite generation: chunks are generated on demand, and every newly generated
    chunk tries to post-process each of the nine centres it may complete. What the stages write is
    left open; which chunks become generated and populated is not. */
module Generation {
  import opened Coordinates
  import opened Options
  import opened Views
  import opened ChunkRecords
  import opened WorldStoreObject

  // ----- neighbourhoods on the wrapping coordinate plane

  function Moved(p: Coord, dx: int, dz: int): Coord {
    Coord(Wrap(p.x + dx), Wrap(p.z + dz))
  }

  /** The nine positions of a centre, x fastest. */
  function NeighborAt(p: Coord, i: nat): Coord
    requires i < 9
  {
    Moved(p, i % 3 - 1, i / 3 - 1)
  }

  /** The nine centres tried around a generated chunk, itself first. */
  function CenterAt(p: Coord, i: nat): Coord
    requires i < 9
  {
    NeighborAt(p, if i == 0 then 4 else if i <= 4 then i - 1 else i)
  }

  predicate Around(p: Coord, q: Coord) {
    exists i :: 0 <= i < 9 && NeighborAt(p, i) == q
  }

  lemma NeighborsDiffer(p: Coord, i: nat, j: nat)
    requires i < 9 && j < 9 && NeighborAt(p, i) == NeighborAt(p, j)
    ensures i == j
  {
    MovesDiffer(p.x, i % 3 - 1, j % 3 - 1);
    MovesDiffer(p.z, i / 3 - 1, j / 3 - 1);
  }

  lemma MovesDiffer(n: i32, a: i32, b: i32)
    requires Wrap(n + a) == Wrap(n + b)
    ensures a == b
  {
    WrapUndo(n, a);
    WrapUndo(n, b);
  }

  /** Being a neighbour is mutual, also across the wrap. */
  lemma AroundIsMutual(p: Coord, q: Coord)
    ensures Around(p, q) <==> Around(q, p)
  {
    AroundOneWay(p, q);
    AroundOneWay(q, p);
  }

  lemma AroundOneWay(p: Coord, q: Coord)
    ensures Around(p, q) ==> Around(q, p)
  {
    if Around(p, q) {
      var i :| 0 <= i < 9 && NeighborAt(p, i) == q;
      OppositeNeighbor(p, i);
    }
  }

  lemma OppositeNeighbor(p: Coord, i: nat)
    requires i < 9
    ensures NeighborAt(NeighborAt(p, i), 8 - i) == p
  {
    MirrorIndex(i);
    WrapSteps(p.x, i % 3 - 1);
    WrapSteps(p.z, i / 3 - 1);
  }

  lemma MirrorIndex(i: nat)
    requires i < 9
    ensures (8 - i) % 3 == 2 - i % 3 && (8 - i) / 3 == 2 - i / 3
  {
    var x, z := i % 3, i / 3;
    assert 8 - i == 3 * (2 - z) + (2 - x);
  }

  lemma CentersAreNeighbors(p: Coord, q: Coord)
    ensures Around(p, q) <==> exists i :: 0 <= i < 9 && CenterAt(p, i) == q
  {
    if Around(p, q) {
      var i :| 0 <= i < 9 && NeighborAt(p, i) == q;
      assert CenterAt(p, if i == 4 then 0 else if i < 4 then i + 1 else i) == q;
    }
  }

  /** One of the first `k` positions of a centre. */
  predicate AmongFirst(p: Coord, k: nat, q: Coord)
    requires k <= 9
  {
    exists i :: 0 <= i < k && NeighborAt(p, i) == q
  }

  lemma OneMore(p: Coord, k: nat, q: Coord)
    requires k < 9
    ensures AmongFirst(p, k + 1, q) <==> AmongFirst(p, k, q) || q == NeighborAt(p, k)
  {
  }

  // ----- lifecycle of a store

  type Chunks = map<Coord, Record>

  predicate IsGenerated(m: Chunks, p: Coord) {
    p in m && Generated in m[p].flags
  }

  predicate IsFull(m: Chunks, p: Coord) {
    p in m && FULL <= m[p].flags
  }

  predicate Ready(m: Chunks, p: Coord) {
    forall i :: 0 <= i < 9 ==> IsGenerated(m, NeighborAt(p, i))
  }

  /** A chunk is fully populated exactly when its whole 3x3 is generated. */
  ghost predicate Eager(m: Chunks) {
    forall p :: IsFull(m, p) <==> Ready(m, p)
  }

  ghost predicate AllGenerated(m: Chunks) {
    forall p :: p in m ==> Generated in m[p].flags
  }

  /** Every chunk but `p` is as it was. */
  ghost predicate OnlyAt(m: Chunks, n: Chunks, p: Coord) {
    forall q :: q != p ==> (q in n <==> q in m) && (q in m ==> n[q] == m[q])
  }

  /** Residency and flags are unchanged except for `p`. */
  ghost predicate SameBut(m: Chunks, n: Chunks, p: Coord) {
    forall q :: q != p ==> (q in n <==> q in m) && (q in m ==> n[q].flags == m[q].flags)
  }

  /** Nothing is lost, a generated chunk keeps its flags, and what is new is generated. */
  ghost predicate Kept(m: Chunks, n: Chunks) {
    && (forall p :: p in m ==> p in n && (IsGenerated(m, p) ==> m[p].flags <= n[p].flags))
    && forall p :: p in n && p !in m ==> IsGenerated(n, p)
  }

  /** A generated chunk keeps its biomes, and its light unless it became full. */
  ghost predicate PlanesKept(m: Chunks, n: Chunks) {
    forall p :: IsGenerated(m, p) && p in n ==>
      && n[p].data.biomes == m[p].data.biomes
      && (SameLight(n[p].data, m[p].data) || (IsFull(n, p) && !IsFull(m, p)))
  }

  /** The centres that became full, each once. */
  ghost predicate Processed(m: Chunks, n: Chunks, centers: seq<Coord>) {
    Distinct(centers) && forall p :: p in centers <==> IsFull(n, p) && !IsFull(m, p)
  }

  /** A stretch of work, with the centres post-processed before and after it. */
  ghost predicate Advance(m: Chunks, n: Chunks, was: seq<Coord>, now: seq<Coord>) {
    Kept(m, n) && PlanesKept(m, n) && was <= now && Processed(m, n, now[|was|..])
  }

  /** Exactly the chunks whose 3x3 became generated became full. */
  ghost predicate Completed(m: Chunks, n: Chunks) {
    forall q :: IsFull(n, q) <==> IsFull(m, q) || (Ready(n, q) && !Ready(m, q))
  }

  lemma NothingAdvances(m: Chunks, done: seq<Coord>)
    ensures Advance(m, m, done, done)
  {
  }

  lemma AdvanceThen(m: Chunks, a: Chunks, n: Chunks, was: seq<Coord>, mid: seq<Coord>, now: seq<Coord>)
    requires Advance(m, a, was, mid) && Advance(a, n, mid, now)
    ensures Advance(m, n, was, now)
  {
    assert now[|was|..] == mid[|was|..] + now[|mid|..];
    KeptChunksStayFull(m, a);
    KeptChunksStayFull(a, n);
    DistinctJoins(mid[|was|..], now[|mid|..]);
    PlanesKeptThen(m, a, n);
  }

  lemma PlanesKeptThen(m: Chunks, a: Chunks, n: Chunks)
    requires Kept(m, a) && Kept(a, n) && PlanesKept(m, a) && PlanesKept(a, n)
    ensures PlanesKept(m, n)
  {
    KeptChunksStayFull(m, a);
    KeptChunksStayFull(a, n);
    forall p | IsGenerated(m, p) && p in n
      ensures n[p].data.biomes == m[p].data.biomes
      ensures SameLight(n[p].data, m[p].data) || (IsFull(n, p) && !IsFull(m, p))
    {
      assert IsGenerated(a, p);
    }
  }

  lemma DistinctJoins(a: seq<Coord>, b: seq<Coord>)
    requires Distinct(a) && Distinct(b) && forall p :: p in a ==> p !in b
    ensures Distinct(a + b)
  {
    forall i, j | 0 <= i < j < |a + b|
      ensures (a + b)[i] != (a + b)[j]
    {
      if i < |a| <= j {
        assert a[i] in a && b[j - |a|] in b;
      }
    }
  }

  lemma KeptChunksStayFull(m: Chunks, n: Chunks)
    requires Kept(m, n)
    ensures forall p :: IsGenerated(m, p) ==> IsGenerated(n, p)
    ensures forall p :: IsFull(m, p) ==> IsFull(n, p)
    ensures forall p :: Ready(m, p) ==> Ready(n, p)
  {
    assert forall p :: IsFull(m, p) ==> IsGenerated(m, p);
  }

  lemma CompletedThen(m: Chunks, a: Chunks, n: Chunks)
    requires Kept(m, a) && Kept(a, n) && Completed(m, a) && Completed(a, n)
    ensures Completed(m, n)
  {
    KeptChunksStayFull(m, a);
    KeptChunksStayFull(a, n);
  }

  lemma FlagsFitFull(flags: set<Flag>)
    ensures flags <= FULL
  {
    forall f | f in flags
      ensures f in FULL
    {
      match f
      case Generated =>
      case Populated =>
      case LightPopulated =>
    }
  }

  /** Generating one chunk makes none full, and only the nine centres around it can become ready. */
  lemma GeneratingOpensNeighbors(m: Chunks, n: Chunks, p: Coord, done: seq<Coord>)
    requires OnlyAt(m, n, p) && p in n && n[p].flags == {Generated} && !IsGenerated(m, p)
    ensures Advance(m, n, done, done)
    ensures forall q :: IsFull(n, q) <==> IsFull(m, q)
    ensures forall q :: IsGenerated(n, q) <==> IsGenerated(m, q) || q == p
    ensures forall q :: Ready(n, q) ==> (!Ready(m, q) <==> Around(p, q))
  {
    assert Populated !in n[p].flags;
    forall q | Ready(n, q)
      ensures !Ready(m, q) <==> Around(p, q)
    {
      AroundIsMutual(p, q);
      if !Ready(m, q) {
        var i :| 0 <= i < 9 && !IsGenerated(m, NeighborAt(q, i));
        assert NeighborAt(q, i) == p;
      }
    }
  }

  /** Populating a ready centre makes that one chunk full and opens no other. */
  lemma PopulatingCloses(m: Chunks, n: Chunks, p: Coord, done: seq<Coord>)
    requires Ready(m, p) && !IsFull(m, p)
    requires SameBut(m, n, p) && BiomesAndLightBut(m, n, p) && p in n && n[p].flags == FULL
    ensures Advance(m, n, done, done + [p])
    ensures forall q :: IsGenerated(n, q) <==> IsGenerated(m, q)
    ensures forall q :: Ready(n, q) <==> Ready(m, q)
    ensures forall q :: IsFull(n, q) <==> IsFull(m, q) || q == p
  {
    assert NeighborAt(p, 4) == p && IsGenerated(m, NeighborAt(p, 4));
    FlagsFitFull(m[p].flags);
    assert (done + [p])[|done|..] == [p];
  }

  /** One of the first `k` centres tried around `p`. */
  predicate AmongTried(p: Coord, k: nat, q: Coord)
    requires k <= 9
  {
    exists i :: 0 <= i < k && CenterAt(p, i) == q
  }

  lemma OneMoreTried(p: Coord, k: nat, q: Coord)
    requires k < 9
    ensures AmongTried(p, k + 1, q) <==> AmongTried(p, k, q) || q == CenterAt(p, k)
  {
  }

  /** Of the ready centres exactly the first `k` tried ones were populated. */
  ghost predicate Tried(m: Chunks, n: Chunks, p: Coord, k: nat)
    requires k <= 9
  {
    && (forall q :: IsGenerated(n, q) <==> IsGenerated(m, q))
    && (forall q :: Ready(n, q) <==> Ready(m, q))
    && forall q :: IsFull(n, q) <==> IsFull(m, q) || (Ready(m, q) && AmongTried(p, k, q))
  }

  lemma TriedOneMore(m: Chunks, a: Chunks, n: Chunks, p: Coord, k: nat, was: seq<Coord>, mid: seq<Coord>,
                     now: seq<Coord>)
    requires k < 9 && Tried(m, a, p, k) && Advance(m, a, was, mid) && Attempted(a, n, CenterAt(p, k), mid, now)
    ensures Tried(m, n, p, k + 1) && Advance(m, n, was, now)
  {
    var c := CenterAt(p, k);
    if Ready(a, c) && !IsFull(a, c) {
      PopulatingCloses(a, n, c, mid);
      AdvanceThen(m, a, n, was, mid, now);
    }
    TriedNext(m, a, n, p, k);
  }

  lemma TriedNext(m: Chunks, a: Chunks, n: Chunks, p: Coord, k: nat)
    requires k < 9 && Tried(m, a, p, k)
    requires forall q :: IsGenerated(n, q) <==> IsGenerated(a, q)
    requires forall q :: Ready(n, q) <==> Ready(a, q)
    requires forall q :: IsFull(n, q) <==> IsFull(a, q) || (q == CenterAt(p, k) && Ready(a, q))
    ensures Tried(m, n, p, k + 1)
  {
    forall q
      ensures IsFull(n, q) <==> IsFull(m, q) || (Ready(m, q) && AmongTried(p, k + 1, q))
    {
      OneMoreTried(p, k, q);
      assert IsFull(a, q) <==> IsFull(m, q) || (Ready(m, q) && AmongTried(p, k, q));
    }
  }

  /** A centre that is ready and not yet full was populated; otherwise nothing happened. */
  ghost predicate Attempted(m: Chunks, n: Chunks, p: Coord, was: seq<Coord>, now: seq<Coord>) {
    if Ready(m, p) && !IsFull(m, p) then
      && SameBut(m, n, p) && BiomesAndLightBut(m, n, p) && p in n && n[p].flags == FULL && now == was + [p]
    else n == m && now == was
  }

  /** Every chunk keeps its biomes, and every chunk but `p` its light. */
  ghost predicate BiomesAndLightBut(m: Chunks, n: Chunks, p: Coord) {
    forall q :: q in m && q in n ==>
      n[q].data.biomes == m[q].data.biomes && (q != p ==> SameLight(n[q].data, m[q].data))
  }

  // ----- what populating writes

  /** One of the nine chunks written back: blocks, extra data and heights from the stage, biomes as they
      were, and the stage's light for the centre only. */
  ghost predicate Back(before: Record, after: Record, planes: ChunkData, i: nat) {
    && after.data.states == planes.states && after.data.extra == planes.extra && after.data.heights == planes.heights
    && after.data.biomes == before.data.biomes
    && SameLight(after.data, if i == 4 then planes else before.data)
    && after.flags == if i == 4 then FULL else before.flags
  }

  ghost predicate Untouched(m: Chunks, n: Chunks, q: Coord) {
    (q in n <==> q in m) && (q in m ==> n[q] == m[q])
  }

  /** The first `k` of the nine chunks are written back and everything else is as it was. */
  ghost predicate WrittenBack(m: Chunks, n: Chunks, center: Coord, planes: seq<ChunkData>, k: nat)
    requires |planes| == 9
  {
    && (forall i :: 0 <= i < 9 ==>
          var p := NeighborAt(center, i);
          if i < k then p in m && p in n && Back(m[p], n[p], planes[i], i) else Untouched(m, n, p))
    && forall q :: !Around(center, q) ==> Untouched(m, n, q)
  }

  lemma WriteBackOne(m: Chunks, here: Chunks, n: Chunks, center: Coord, planes: seq<ChunkData>, k: nat)
    requires |planes| == 9 && k < 9 && WrittenBack(m, here, center, planes, k)
    requires OnlyAt(here, n, NeighborAt(center, k)) && NeighborAt(center, k) in m && NeighborAt(center, k) in n
    requires Back(m[NeighborAt(center, k)], n[NeighborAt(center, k)], planes[k], k)
    ensures WrittenBack(m, n, center, planes, k + 1)
  {
    forall i | 0 <= i < 9 && i != k
      ensures NeighborAt(center, i) != NeighborAt(center, k)
    {
      if NeighborAt(center, i) == NeighborAt(center, k) {
        NeighborsDiffer(center, i, k);
      }
    }
  }

  lemma AllWrittenBack(m: Chunks, n: Chunks, center: Coord, planes: seq<ChunkData>)
    requires |planes| == 9 && WrittenBack(m, n, center, planes, 9)
    ensures SameBut(m, n, center) && BiomesAndLightBut(m, n, center) && center in n && n[center].flags == FULL
  {
    assert NeighborAt(center, 4) == center;
    forall q
      ensures q in n <==> q in m
      ensures q in m && q in n ==> n[q].data.biomes == m[q].data.biomes
      ensures q in m && q in n && q != center ==> n[q].flags == m[q].flags && SameLight(n[q].data, m[q].data)
    {
      if Around(center, q) {
        var i :| 0 <= i < 9 && NeighborAt(center, i) == q;
      } else {
        assert Untouched(m, n, q);
      }
    }
  }

  /** Trying all nine centres leaves none of them ready and unpopulated. */
  lemma AllTried(m: Chunks, n: Chunks, p: Coord)
    requires Tried(m, n, p, 9)
    ensures forall q :: IsFull(n, q) <==> IsFull(m, q) || (Ready(n, q) && Around(p, q))
  {
    forall q
      ensures AmongTried(p, 9, q) <==> Around(p, q)
    {
      CentersAreNeighbors(p, q);
    }
  }

  /** What a call with this target leaves of any store. */
  ghost predicate GeneratedAround(m: Chunks, n: Chunks, target: Coord) {
    if IsFull(m, target) then n == m
    else
      && (forall q :: IsGenerated(n, q) <==> IsGenerated(m, q) || Around(target, q))
      && forall q :: IsFull(n, q) <==> IsFull(m, q) || (Ready(n, q) && (!Ready(m, q) || Around(target, q)))
  }

  lemma AllStayGenerated(m: Chunks, n: Chunks)
    requires AllGenerated(m) && Kept(m, n)
    ensures AllGenerated(n)
  {
    forall p | p in n
      ensures Generated in n[p].flags
    {
      assert p in m ==> IsGenerated(m, p);
    }
  }

  /** Such a call keeps a store eager, and its target ends up full with its 3x3 generated. */
  lemma EagerStays(m: Chunks, n: Chunks, target: Coord)
    requires Eager(m) && Kept(m, n) && GeneratedAround(m, n, target)
    ensures Eager(n) && Ready(n, target)
    ensures forall q :: IsGenerated(n, q) <==> IsGenerated(m, q) || Around(target, q)
  {
    KeptChunksStayFull(m, n);
    if IsFull(m, target) {
      assert Ready(m, target);
    } else {
      NearIsReady(n, target);
      forall q
        ensures IsFull(n, q) <==> Ready(n, q)
      {
        assert IsFull(m, q) <==> Ready(m, q);
      }
    }
  }

  lemma NearIsReady(n: Chunks, target: Coord)
    requires forall q :: Around(target, q) ==> IsGenerated(n, q)
    ensures Ready(n, target)
  {
    assert forall i :: 0 <= i < 9 ==> Around(target, NeighborAt(target, i));
  }

  // ----- the generator

  /** The worldgen stages: carving one chunk, registering it with the structures, and what populating
      a centre writes to each of the nine chunks and to the generator's own state. */
  datatype Stages = Stages(carve: Coord -> ChunkData,
                           register: (int, Coord) -> int,
                           populate: (int, Coord, seq<ChunkData>, nat) -> ChunkData,
                           advance: (int, Coord, seq<ChunkData>) -> int)

  /** A carved chunk is dark and has no extra data yet. */
  function Carved(stages: Stages, p: Coord): ChunkData {
    stages.carve(p).(sky := seq(NIBBLE_PLANE, _ => 0), block := seq(NIBBLE_PLANE, _ => 0), extra := map[])
  }

  /** Blocks, biomes and heights as carved, no light and no extra data. */
  ghost predicate CarvedAndDark(d: ChunkData, carved: ChunkData) {
    && d.states == carved.states && d.biomes == carved.biomes && d.heights == carved.heights && d.extra == map[]
    && (forall i :: 0 <= i < |d.sky| ==> d.sky[i] == 0) && forall i :: 0 <= i < |d.block| ==> d.block[i] == 0
  }

  function NineAround(m: Chunks, p: Coord): (nine: seq<ChunkData>)
    requires Ready(m, p)
    ensures |nine| == 9
  {
    seq(9, i requires 0 <= i < 9 && IsGenerated(m, NeighborAt(p, i)) => m[NeighborAt(p, i)].data)
  }

  /** What the stages make of the nine chunks around a centre. */
  function StagePlanes(stages: Stages, state: int, m: Chunks, p: Coord): (planes: seq<ChunkData>)
    requires Ready(m, p)
    ensures |planes| == 9
  {
    var nine := NineAround(m, p);
    seq(9, i requires 0 <= i < 9 => stages.populate(state, p, nine, i))
  }

  datatype Generation = Generation(changed: nat, center: bool)

  class InfiniteGenerator {
    const stages: Stages
    var state: int
    ghost var done: seq<Coord>

    constructor (stages: Stages, state: int)
      ensures this.stages == stages && this.state == state && done == []
    {
      this.stages, this.state, done := stages, state, [];
    }

    method EnsureGenerated(store: WorldStore, p: Coord) returns (r: Result<bool>)
      requires store.Valid()
      modifies this`state, store`chunks
      ensures store.Valid()
      ensures r == Ok(false) ==> IsGenerated(old(store.chunks), p) && store.chunks == old(store.chunks)
      ensures r == Ok(true) ==>
        && !IsGenerated(old(store.chunks), p) && p in store.chunks && store.chunks[p].flags == {Generated}
        && CarvedAndDark(store.chunks[p].data, stages.carve(p)) && state == stages.register(old(state), p)
        && OnlyAt(old(store.chunks), store.chunks, p)
    {
      if p in store.chunks && Generated in store.chunks[p].flags {
        return Ok(false);
      }
      state := stages.register(state, p);
      r := store.InstallGenerated(p, Carved(stages, p), {Generated});
    }

    /** Writes one populated chunk back. All but the centre keep their light and flags. */
    method InstallBack(store: WorldStore, center: Coord, i: nat, before: Record, planes: ChunkData)
        returns (r: Result<bool>)
      requires store.Valid() && i < 9 && NeighborAt(center, i) in store.chunks && Generated in before.flags
      modifies store`chunks
      ensures store.Valid()
      ensures r.Ok? ==>
        && OnlyAt(old(store.chunks), store.chunks, NeighborAt(center, i)) && NeighborAt(center, i) in store.chunks
        && Back(before, store.chunks[NeighborAt(center, i)], planes, i)
        && (old(store.chunks)[NeighborAt(center, i)].flags != store.chunks[NeighborAt(center, i)].flags ==> r.value)
    {
      var flags := if i == 4 then FULL else before.flags + {Generated};
      assert i != 4 ==> flags == before.flags;
      var data := planes.(biomes := before.data.biomes);
      if i != 4 {
        data := data.(sky := before.data.sky, block := before.data.block);
      }
      r := store.InstallGenerated(NeighborAt(center, i), data, flags);
    }

    /** Writes the nine populated chunks back: the centre becomes full, the others keep their flags. */
    method InstallNine(store: WorldStore, center: Coord, planes: seq<ChunkData>) returns (r: Result<nat>)
      requires store.Valid() && |planes| == 9 && Ready(store.chunks, center) && !IsFull(store.chunks, center)
      modifies store`chunks
      ensures store.Valid()
      ensures r.Ok? ==> WrittenBack(old(store.chunks), store.chunks, center, planes, 9) && 1 <= r.value <= 9
    {
      var changed: nat := 0;
      var m := store.chunks;
      for i := 0 to 9
        invariant store.Valid() && WrittenBack(m, store.chunks, center, planes, i)
        invariant changed <= i && (i > 4 ==> changed > 0)
      {
        var p := NeighborAt(center, i);
        assert IsGenerated(m, p);
        assert i == 4 ==> p == center;
        ghost var here := store.chunks;
        assert Untouched(m, here, p);
        var installed := InstallBack(store, center, i, m[p], planes[i]);
        if installed.Err? {
          return Err(installed.error);
        }
        WriteBackOne(m, here, store.chunks, center, planes, i);
        if installed.value {
          changed := changed + 1;
        }
      }
      r := Ok(changed);
    }

    method TryPostProcessCenter(store: WorldStore, p: Coord) returns (r: Result<nat>)
      requires store.Valid()
      modifies this, store`chunks
      ensures store.Valid()
      ensures r.Ok? ==> Attempted(old(store.chunks), store.chunks, p, old(done), done)
      ensures r.Ok? && Ready(old(store.chunks), p) && !IsFull(old(store.chunks), p) ==>
        var planes := StagePlanes(stages, old(state), old(store.chunks), p);
        && WrittenBack(old(store.chunks), store.chunks, p, planes, 9)
        && state == stages.advance(old(state), p, NineAround(old(store.chunks), p))
      ensures r.Ok? ==> |done| - |old(done)| <= r.value <= 9 * (|done| - |old(done)|)
    {
      assert NeighborAt(p, 4) == p;
      if p !in store.chunks || Generated !in store.chunks[p].flags || FULL <= store.chunks[p].flags {
        return Ok(0);
      }
      for i := 0 to 9
        invariant forall j :: 0 <= j < i ==> IsGenerated(store.chunks, NeighborAt(p, j))
      {
        if !IsGenerated(store.chunks, NeighborAt(p, i)) {
          return Ok(0);
        }
      }
      var m := store.chunks;
      var planes := StagePlanes(stages, state, m, p);
      state := stages.advance(state, p, NineAround(m, p));
      r := InstallNine(store, p, planes);
      if r.Ok? {
        AllWrittenBack(m, store.chunks, p, planes);
        done := done + [p];
      }
    }

    /** Populates every ready centre around a chunk, and no other. */
    method PostProcessArea(store: WorldStore, p: Coord) returns (r: Result<nat>)
      requires store.Valid()
      modifies this, store`chunks
      ensures store.Valid()
      ensures r.Ok? ==> Tried(old(store.chunks), store.chunks, p, 9)
      ensures r.Ok? ==> Advance(old(store.chunks), store.chunks, old(done), done)
      ensures r.Ok? ==> |done| - |old(done)| <= r.value <= 9 * (|done| - |old(done)|)
    {
      var changed: nat := 0;
      ghost var m := store.chunks;
      NothingAdvances(m, done);
      for k := 0 to 9
        invariant store.Valid() && Tried(m, store.chunks, p, k) && Advance(m, store.chunks, old(done), done)
        invariant |done| - |old(done)| <= changed <= 9 * (|done| - |old(done)|)
      {
        ghost var here, mid := store.chunks, done;
        var tried := TryPostProcessCenter(store, CenterAt(p, k));
        if tried.Err? {
          return tried;
        }
        TriedOneMore(m, here, store.chunks, p, k, old(done), mid, done);
        changed := changed + tried.value;
      }
      r := Ok(changed);
    }

    /** Makes one chunk generated and post-processes every centre that this completes. */
    method GenerateOne(store: WorldStore, p: Coord) returns (r: Result<nat>)
      requires store.Valid()
      modifies this, store`chunks
      ensures store.Valid()
      ensures r.Ok? ==>
        && Advance(old(store.chunks), store.chunks, old(done), done) && Completed(old(store.chunks), store.chunks)
        && (forall q :: IsGenerated(store.chunks, q) <==> IsGenerated(old(store.chunks), q) || q == p)
        && |done| - |old(done)| <= r.value <= 1 + 9 * (|done| - |old(done)|)
    {
      ghost var m, was := store.chunks, done;
      var ensured := EnsureGenerated(store, p);
      if ensured.Err? {
        return Err(ensured.error);
      }
      if !ensured.value {
        NothingAdvances(m, done);
        return Ok(0);
      }
      ghost var seeded := store.chunks;
      GeneratingOpensNeighbors(m, seeded, p, done);
      var processed := PostProcessArea(store, p);
      if processed.Err? {
        return processed;
      }
      AllTried(seeded, store.chunks, p);
      AdvanceThen(m, seeded, store.chunks, was, was, done);
      r := Ok(processed.value + 1);
    }

    /** Generates what is missing of the target's 3x3 and populates what that completes, whatever the
        store held before. */
    method GenerateIntoStore(store: WorldStore, target: Coord) returns (r: Result<Generation>)
      requires store.Valid()
      modifies this, store`chunks
      ensures store.Valid()
      ensures r.Ok? ==>
        && Advance(old(store.chunks), store.chunks, old(done), done)
        && GeneratedAround(old(store.chunks), store.chunks, target) && IsFull(store.chunks, target)
        && (r.value.center <==> !IsFull(old(store.chunks), target))
        && |done| - |old(done)| <= r.value.changed <= 9 + 9 * (|done| - |old(done)|)
        && (IsFull(old(store.chunks), target) ==> r.value.changed == 0)
    {
      NothingAdvances(store.chunks, done);
      if target in store.chunks && FULL <= store.chunks[target].flags {
        return Ok(Generation(0, false));
      }
      ghost var m, was := store.chunks, done;
      var changed := GenerateNine(store, target);
      if changed.Err? {
        return Err(changed.error);
      }
      ghost var here, mid := store.chunks, done;
      var processed := PostProcessArea(store, target);
      if processed.Err? {
        return Err(processed.error);
      }
      AllTried(here, store.chunks, target);
      AdvanceThen(m, here, store.chunks, was, mid, done);
      TargetIsFull(here, store.chunks, target);
      r := Ok(Generation(changed.value + processed.value, IsFull(store.chunks, target)));
    }

    method GenerateNine(store: WorldStore, target: Coord) returns (r: Result<nat>)
      requires store.Valid()
      modifies this, store`chunks
      ensures store.Valid()
      ensures r.Ok? ==>
        && Advance(old(store.chunks), store.chunks, old(done), done) && Completed(old(store.chunks), store.chunks)
        && (forall q :: IsGenerated(store.chunks, q) <==> IsGenerated(old(store.chunks), q) || Around(target, q))
        && |done| - |old(done)| <= r.value <= 9 + 9 * (|done| - |old(done)|)
    {
      var changed: nat := 0;
      ghost var m := store.chunks;
      NothingAdvances(m, done);
      for k := 0 to 9
        invariant store.Valid() && Advance(m, store.chunks, old(done), done) && Completed(m, store.chunks)
        invariant forall q :: IsGenerated(store.chunks, q) <==> IsGenerated(m, q) || AmongFirst(target, k, q)
        invariant |done| - |old(done)| <= changed <= k + 9 * (|done| - |old(done)|)
      {
        ghost var here, mid := store.chunks, done;
        var one := GenerateOne(store, NeighborAt(target, k));
        if one.Err? {
          return one;
        }
        AdvanceThen(m, here, store.chunks, old(done), mid, done);
        CompletedThen(m, here, store.chunks);
        forall q
          ensures AmongFirst(target, k + 1, q) <==> AmongFirst(target, k, q) || q == NeighborAt(target, k)
        {
          OneMore(target, k, q);
        }
        changed := changed + one.value;
      }
      r := Ok(changed);
    }
  }

  lemma TargetIsFull(m: Chunks, n: Chunks, target: Coord)
    requires forall q :: Around(target, q) ==> IsGenerated(m, q)
    requires forall q :: IsGenerated(n, q) <==> IsGenerated(m, q)
    requires forall q :: IsFull(n, q) <==> IsFull(m, q) || (Ready(n, q) && Around(target, q))
    ensures IsFull(n, target)
  {
    assert NeighborAt(target, 4) == target;
    NearIsReady(n, target);
  }

  function SpawnTarget(origin: Coord, k: nat): Coord
    requires k < 25
  {
    Moved(origin, k / 5 - 2, k % 5 - 2)
  }

  lemma EmptyIsEager()
    ensures Eager(map[])
  {
    forall p
      ensures !Ready(map[], p)
    {
      assert !IsGenerated(map[], NeighborAt(p, 0));
    }
  }

  /** One of the first `k` targets is near `q`. */
  predicate NearFirst(targets: seq<Coord>, k: nat, q: Coord)
    requires k <= |targets|
  {
    exists j :: 0 <= j < k && Around(targets[j], q)
  }

  /** The first `k` targets are full, their neighbourhoods are all that is generated, and the chunks
      whose whole 3x3 is generated are all that is full. */
  ghost predicate Reached(m: Chunks, targets: seq<Coord>, k: nat)
    requires k <= |targets|
  {
    && Eager(m) && AllGenerated(m)
    && (forall j :: 0 <= j < k ==> IsFull(m, targets[j]))
    && forall q :: IsGenerated(m, q) <==> NearFirst(targets, k, q)
  }

  lemma ReachedOneMore(m: Chunks, n: Chunks, targets: seq<Coord>, k: nat, was: seq<Coord>, now: seq<Coord>)
    requires k < |targets| && Reached(m, targets, k)
    requires Advance(m, n, was, now) && GeneratedAround(m, n, targets[k])
    ensures Reached(n, targets, k + 1)
  {
    EagerStays(m, n, targets[k]);
    AllStayGenerated(m, n);
    KeptChunksStayFull(m, n);
    assert IsFull(n, targets[k]);
    forall q
      ensures IsGenerated(n, q) <==> NearFirst(targets, k + 1, q)
    {
      NearOneMore(targets, k, q);
      assert IsGenerated(m, q) <==> NearFirst(targets, k, q);
    }
  }

  lemma NearOneMore(targets: seq<Coord>, k: nat, q: Coord)
    requires k < |targets|
    ensures NearFirst(targets, k + 1, q) <==> NearFirst(targets, k, q) || Around(targets[k], q)
  {
    if Around(targets[k], q) {
      assert 0 <= k < k + 1 && Around(targets[k], q);
    }
  }

  /** Any sequence of generation calls on an empty store, while all of them succeed. Each chunk that
      ends up full was post-processed once. */
  method GenerateTargets(rules: Rules, stages: Stages, targets: seq<Coord>)
    returns (store: WorldStore, generator: InfiniteGenerator, r: Result<nat>)
    ensures fresh(store) && fresh(generator)
    ensures r.Ok? ==> Reached(store.chunks, targets, |targets|) && Processed(map[], store.chunks, generator.done)
  {
    store := new WorldStore(rules);
    generator := new InfiniteGenerator(stages, 0);
    EmptyIsEager();
    NothingAdvances(map[], []);
    var changed: nat := 0;
    for k := 0 to |targets|
      invariant fresh(store) && fresh(generator) && store.Valid()
      invariant Reached(store.chunks, targets, k) && Advance(map[], store.chunks, [], generator.done)
    {
      ghost var before, mid := store.chunks, generator.done;
      var generated := generator.GenerateIntoStore(store, targets[k]);
      if generated.Err? {
        return store, generator, Err(generated.error);
      }
      ReachedOneMore(before, store.chunks, targets, k, mid, generator.done);
      AdvanceThen(map[], before, store.chunks, [], mid, generator.done);
      changed := changed + generated.value.changed;
    }
    assert generator.done[0..] == generator.done;
    r := Ok(changed);
  }

  /** The spawn view: 25 centres in x-then-z order. All of them end up full. */
  method GenerateSpawnView(rules: Rules, stages: Stages, origin: Coord) returns (store: WorldStore, r: Result<nat>)
    ensures fresh(store)
    ensures r.Ok? ==> Eager(store.chunks) && forall k :: 0 <= k < 25 ==> IsFull(store.chunks, SpawnTarget(origin, k))
  {
    var targets := seq(25, k requires 0 <= k < 25 => SpawnTarget(origin, k));
    var generator;
    store, generator, r := GenerateTargets(rules, stages, targets);
    if r.Ok? {
      forall k | 0 <= k < 25
        ensures IsFull(store.chunks, SpawnTarget(origin, k))
      {
        assert targets[k] == SpawnTarget(origin, k);
      }
    }
  }
}
