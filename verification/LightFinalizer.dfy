/** Final lighting of a post-processed centre chunk: heights, sky light and block light over the
    supplied 3x3 neighbourhood, packed into the centre chunk's planes. */
module LightFinalizer {
  import opened Coordinates
  import opened LightField
  import opened LightRelaxation
  import opened Nibbles

  const CENTER_OFFSET: int := 16
  const CHUNK_BLOCKS: nat := 32768
  const NIBBLE_BYTES: nat := 16384

  /** Nine 16x16x128 state planes around a centre chunk, x fastest, then z. */
  datatype Region = Region(center: Coord, chunks: seq<seq<nat>>) {
    predicate Valid() {
      |chunks| == 9 && forall i :: 0 <= i < 9 ==> |chunks[i]| == CHUNK_BLOCKS
    }
  }

  /** Blocks that let light through unweakened: partial blocks, plants, glass, redstone parts. */
  predicate IsClear(id: nat) {
    || id == 0 || id == 6 || id == 20 || id == 31 || id == 32 || 37 <= id <= 40 || id == 44
    || 50 <= id <= 55 || id == 59 || id == 60 || 64 <= id <= 67 || 69 <= id <= 71 || id == 78
    || id == 81 || id == 83 || id == 85 || id == 93 || id == 101 || id == 102 || id == 106
    || id == 109 || id == 111 || id == 119 || id == 120 || id == 127 || id == 128 || id == 131
    || id == 132 || id == 134 || 140 <= id <= 143 || id == 163 || id == 175 || id == 193
    || id == 196 || id == 198 || id == 244
  }

  function LightBlock(id: nat): (v: nat)
    ensures v <= MAX_LIGHT
  {
    if id == 8 || id == 9 || id == 79 then 3
    else if id == 18 || id == 30 || id == 161 then 1
    else if IsClear(id) then 0
    else 15
  }

  function Emission(id: nat): (v: nat)
    ensures v <= MAX_LIGHT
  {
    if id == 10 || id == 11 || id == 51 || id == 119 then 15 else if id == 50 then 14
    else if id == 52 then 3 else if id == 39 then 1 else 0
  }

  function Loss(id: nat): (v: nat)
    ensures 1 <= v
  {
    if LightBlock(id) == 0 then 1 else LightBlock(id)
  }

  const CLEAR_BELOW_50: set<nat> := {0, 6, 20, 31, 32, 37, 38, 39, 40, 44}
  const CLEAR_BELOW_70: set<nat> := {50, 51, 52, 53, 54, 55, 59, 60, 64, 65, 66, 67, 69}
  const CLEAR_BELOW_120: set<nat> := {70, 71, 78, 81, 83, 85, 93, 101, 102, 106, 109, 111, 119}
  const CLEAR_ABOVE: set<nat> := {120, 127, 128, 131, 132, 134, 140, 141, 142, 143, 163, 175, 193, 196, 198, 244}
  const CLEAR := CLEAR_BELOW_50 + CLEAR_BELOW_70 + CLEAR_BELOW_120 + CLEAR_ABOVE
  const DIM: map<nat, nat> := map[8 := 3, 9 := 3, 79 := 3, 18 := 1, 30 := 1, 161 := 1]
  const EMITTERS: map<nat, nat> := map[10 := 15, 11 := 15, 51 := 15, 119 := 15, 50 := 14, 52 := 3, 39 := 1]

  /** The block properties of the target, as tables. */
  lemma BlockProperties(id: nat)
    ensures LightBlock(id) == if id in CLEAR then 0 else if id in DIM then DIM[id] else 15
    ensures Emission(id) == if id in EMITTERS then EMITTERS[id] else 0
  {
    ClearIds(id);
    DimIds(id);
    EmitterIds(id);
  }

  lemma DimIds(id: nat)
    ensures id in DIM ==> !IsClear(id) && LightBlock(id) == DIM[id]
    ensures id !in DIM ==> LightBlock(id) == if IsClear(id) then 0 else 15
  {
  }

  lemma EmitterIds(id: nat)
    ensures Emission(id) == if id in EMITTERS then EMITTERS[id] else 0
  {
  }

  lemma ClearIds(id: nat)
    ensures IsClear(id) <==> id in CLEAR
  {
    ClearLow(id);
    ClearHigh(id);
    if IsClear(id) {
      assert id < 70 ==> id in CLEAR_BELOW_50 + CLEAR_BELOW_70;
      assert id >= 70 ==> id in CLEAR_BELOW_120 + CLEAR_ABOVE;
    }
  }

  lemma ClearLow(id: nat)
    ensures id in CLEAR_BELOW_50 ==> IsClear(id) && id < 70
    ensures id in CLEAR_BELOW_70 ==> IsClear(id) && id < 70
    ensures IsClear(id) && id < 70 ==> id in CLEAR_BELOW_50 || id in CLEAR_BELOW_70
  {
  }

  lemma ClearHigh(id: nat)
    ensures id in CLEAR_BELOW_120 ==> IsClear(id) && id >= 70
    ensures id in CLEAR_ABOVE ==> IsClear(id) && id >= 70
    ensures IsClear(id) && id >= 70 ==> id in CLEAR_BELOW_120 || id in CLEAR_ABOVE
  {
  }

  // ----- reading the neighbourhood

  function ChunkState(region: Region, offsetX: int, offsetZ: int, x: nat, y: nat, z: nat): nat
    requires region.Valid() && -1 <= offsetX <= 1 && -1 <= offsetZ <= 1 && x < 16 && y < WORLD_HEIGHT && z < 16
  {
    region.chunks[(offsetZ + 1) * 3 + offsetX + 1][y * 256 + z * 16 + x]
  }

  /** The block id at world coordinates, or 0 outside the neighbourhood. */
  function BlockId(region: Region, worldX: i32, y: int, worldZ: i32): nat
    requires region.Valid()
  {
    var rx := Wrap(worldX - Wrap(region.center.x * 16));
    var rz := Wrap(worldZ - Wrap(region.center.z * 16));
    if !(0 <= y < WORLD_HEIGHT) || !(-16 <= rx < 32) || !(-16 <= rz < 32) then 0
    else ChunkState(region, rx / 16, rz / 16, rx % 16, y, rz % 16) / 16
  }

  /** The same content in neighbourhood coordinates, origin at the corner. */
  function Content(region: Region): Cell -> nat
    requires region.Valid()
  {
    c => if Within(GRID, c)
      then ChunkState(region, c.x / 16 - 1, c.z / 16 - 1, c.x % 16, c.y, c.z % 16) / 16 else 0
  }

  function BlockIdAt(region: Region, c: Cell): nat
    requires region.Valid()
  {
    BlockId(region,
            Wrap(Wrap(region.center.x * 16) + Wrap(c.x - CENTER_OFFSET)), c.y,
            Wrap(Wrap(region.center.z * 16) + Wrap(c.z - CENTER_OFFSET)))
  }

  /** World lookups through wrapping arithmetic see exactly the neighbourhood's own cells, also
      where the neighbourhood straddles the end of the coordinate range. */
  lemma WorldLookupIsLocal(region: Region, c: Cell)
    requires region.Valid() && Within(GRID, c)
    ensures BlockIdAt(region, c) == Content(region)(c)
  {
    LocalAxis(Wrap(region.center.x * 16), c.x);
    LocalAxis(Wrap(region.center.z * 16), c.z);
  }

  /** Along one axis: local position, to world, and back to chunk offset and position in the chunk. */
  lemma LocalAxis(origin: i32, local: int)
    requires 0 <= local < EDGE
    ensures var back := Wrap(Wrap(origin + Wrap(local - CENTER_OFFSET)) - origin);
            -16 <= back < 32 && back / 16 == local / 16 - 1 && back % 16 == local % 16
  {
    WrapUndo(origin, local - CENTER_OFFSET);
    assert (local - 16) / 16 == local / 16 - 1 && (local - 16) % 16 == local % 16;
  }

  // ----- what the two light kinds start from

  function BlockMedium(content: Cell -> nat): Medium {
    Medium(c => Loss(content(c)), c => Emission(content(c)))
  }

  predicate OpenSky(content: Cell -> nat, c: Cell) {
    forall y :: c.y <= y < WORLD_HEIGHT ==> LightBlock(content(Cell(c.x, y, c.z))) == 0
  }

  function SkyMedium(content: Cell -> nat): Medium {
    Medium(c => Loss(content(c)), c => if OpenSky(content, c) then MAX_LIGHT else 0)
  }

  ghost predicate IsHeight(content: Cell -> nat, x: int, z: int, h: nat) {
    && h <= WORLD_HEIGHT
    && (forall y :: 0 <= y < WORLD_HEIGHT ==> (OpenSky(content, Cell(x, y, z)) <==> h <= y))
  }

  lemma MediaAreLossy(b: Box, content: Cell -> nat)
    ensures Lossy(b, BlockMedium(content)) && Lossy(b, SkyMedium(content))
  {
    forall c | Within(b, c)
      ensures 1 <= BlockMedium(content).loss(c) && BlockMedium(content).seed(c) <= MAX_LIGHT
      ensures 1 <= SkyMedium(content).loss(c) && SkyMedium(content).seed(c) <= MAX_LIGHT
    {
      assert BlockMedium(content).loss(c) == SkyMedium(content).loss(c) == Loss(content(c));
      assert BlockMedium(content).seed(c) == Emission(content(c));
    }
  }

  /** A world box that contains the neighbourhood and agrees with it there. */
  ghost predicate Surrounds(b: Box, world: Cell -> nat, content: Cell -> nat) {
    && b.x0 <= 0 && 48 <= b.x1 && b.z0 <= 0 && 48 <= b.z1
    && forall q :: Within(GRID, q) ==> content(q) == world(q)
  }

  /** The centre chunk of any world box that contains the neighbourhood and agrees with it there
      has the same light, whatever lies outside. */
  lemma CenterLightIsWorldLight(content: Cell -> nat, world: Cell -> nat, b: Box, c: Cell, v: int)
    requires Surrounds(b, world, content)
    requires 16 <= c.x < 32 && 0 <= c.y < WORLD_HEIGHT && 16 <= c.z < 32
    ensures IsLight(GRID, BlockMedium(content), c, v) <==> IsLight(b, BlockMedium(world), c, v)
    ensures IsLight(GRID, SkyMedium(content), c, v) <==> IsLight(b, SkyMedium(world), c, v)
  {
    forall q | Within(GRID, q)
      ensures OpenSky(content, q) <==> OpenSky(world, q)
    {
      assert forall y :: q.y <= y < WORLD_HEIGHT ==> Within(GRID, Cell(q.x, y, q.z));
    }
    MediaAreLossy(GRID, content);
    MediaAreLossy(b, world);
    LightIsLocal(GRID, BlockMedium(content), b, BlockMedium(world), c, v);
    LightIsLocal(GRID, SkyMedium(content), b, SkyMedium(world), c, v);
  }

  // ----- laws of the light, in terms of block properties

  function Max(a: int, b: int): int {
    if a <= b then b else a
  }

  /** A solid block holds its own emission and no sky light, whatever surrounds it. */
  lemma SolidBlocksLight(b: Box, content: Cell -> nat, c: Cell)
    requires Within(b, c) && LightBlock(content(c)) == 15
    ensures IsLight(b, BlockMedium(content), c, Emission(content(c)))
    ensures IsLight(b, SkyMedium(content), c, 0)
  {
    MediaAreLossy(b, content);
    assert !OpenSky(content, c);
    OpaqueHoldsSeed(b, BlockMedium(content), c);
    OpaqueHoldsSeed(b, SkyMedium(content), c);
  }

  /** Under open sky it is as bright as it gets. */
  lemma OpenSkyIsBright(b: Box, content: Cell -> nat, c: Cell)
    requires Within(b, c) && OpenSky(content, c)
    ensures IsLight(b, SkyMedium(content), c, 15)
  {
    MediaAreLossy(b, content);
    SeedReaches(b, SkyMedium(content), c);
    forall p | PathTo(b, p, c)
      ensures Delivered(SkyMedium(content), p) <= 15
    {
      PathCost(b, SkyMedium(content), p);
    }
  }

  /** Neighbouring lights differ by no more than entering the darker block takes away: its light
      block, or one. */
  lemma LightSpreads(b: Box, content: Cell -> nat, c: Cell, d: Cell, v: int, w: int)
    requires Within(b, d) && Adjacent(c, d)
    ensures IsLight(b, BlockMedium(content), c, v) && IsLight(b, BlockMedium(content), d, w) ==>
              w >= v - Max(1, LightBlock(content(d)))
    ensures IsLight(b, SkyMedium(content), c, v) && IsLight(b, SkyMedium(content), d, w) ==>
              w >= v - Max(1, LightBlock(content(d)))
  {
    if IsLight(b, BlockMedium(content), c, v) && IsLight(b, BlockMedium(content), d, w) {
      LightIsOffered(b, BlockMedium(content), c, v, d, w);
    }
    if IsLight(b, SkyMedium(content), c, v) && IsLight(b, SkyMedium(content), d, w) {
      LightIsOffered(b, SkyMedium(content), c, v, d, w);
    }
  }

  /** Block light that a cell does not emit itself came from a neighbour, less exactly that. */
  lemma BlockLightHasSource(b: Box, content: Cell -> nat, d: Cell, w: int) returns (c: Cell)
    requires IsLight(b, BlockMedium(content), d, w) && w != Emission(content(d))
    ensures Within(b, c) && Adjacent(c, d)
    ensures IsLight(b, BlockMedium(content), c, w + Max(1, LightBlock(content(d))))
  {
    c := LightHasSource(b, BlockMedium(content), d, w);
  }

  /** Sky light under a roof came from a neighbour; without one there is none. */
  lemma SkyLightHasSource(b: Box, content: Cell -> nat, d: Cell, w: int) returns (c: Cell)
    requires IsLight(b, SkyMedium(content), d, w) && w != 0 && !OpenSky(content, d)
    ensures Within(b, c) && Adjacent(c, d)
    ensures IsLight(b, SkyMedium(content), c, w + Max(1, LightBlock(content(d))))
  {
    c := LightHasSource(b, SkyMedium(content), d, w);
  }

  /** Planes are chunk by chunk, x fastest and then z, and in a chunk x fastest, then z, then y. */
  lemma ContentLayout(region: Region, x: nat, y: nat, z: nat, i: nat, j: nat)
    requires region.Valid() && x < 16 && y < WORLD_HEIGHT && z < 16 && i < 3 && j < 3
    ensures Content(region)(Cell(16 * i + x, y, 16 * j + z)) == region.chunks[3 * j + i][256 * y + 16 * z + x] / 16
  {
    var c := Cell(16 * i + x, y, 16 * j + z);
    assert c.x / 16 == i && c.x % 16 == x && c.z / 16 == j && c.z % 16 == z;
  }

  // ----- the program

  /** Columns below number `n` have their height, x fastest. */
  ghost predicate HeightsKnown(content: Cell -> nat, heights: seq<nat>, n: nat) {
    |heights| == AREA && forall k :: 0 <= k < n && k < AREA ==> IsHeight(content, k % EDGE, k / EDGE, heights[k])
  }

  method NeighborhoodHeightMap(region: Region) returns (heights: array<nat>)
    requires region.Valid()
    ensures fresh(heights) && HeightsKnown(Content(region), heights[..], AREA)
  {
    heights := new nat[AREA](_ => 0);
    for z := 0 to EDGE
      invariant HeightsKnown(Content(region), heights[..], z * EDGE)
    {
      for x := 0 to EDGE
        invariant HeightsKnown(Content(region), heights[..], x + z * EDGE)
      {
        var y := ColumnHeight(region, x, z);
        heights[x + z * EDGE] := y;
        assert (x + z * EDGE) % EDGE == x && (x + z * EDGE) / EDGE == z;
      }
    }
  }

  method ColumnHeight(region: Region, x: nat, z: nat) returns (y: nat)
    requires region.Valid() && x < EDGE && z < EDGE
    ensures IsHeight(Content(region), x, z, y)
  {
    ghost var content := Content(region);
    y := WORLD_HEIGHT;
    WorldLookupIsLocal(region, Cell(x, WORLD_HEIGHT - 1, z));
    while y > 0 && LightBlock(BlockIdAt(region, Cell(x, y - 1, z))) == 0
      invariant y <= WORLD_HEIGHT
      invariant forall y' :: y <= y' < WORLD_HEIGHT ==> LightBlock(content(Cell(x, y', z))) == 0
    {
      WorldLookupIsLocal(region, Cell(x, y - 1, z));
      y := y - 1;
    }
    if y > 0 {
      WorldLookupIsLocal(region, Cell(x, y - 1, z));
    }
  }

  /** Serves the queue until it is empty. `m` names what the caller seeded the array with. */
  method Propagate(region: Region, light: array<nat>, initial: seq<Cell>, ghost m: Medium)
    requires region.Valid() && light.Length == VOLUME
    requires forall c :: Within(GRID, c) ==> m.loss(c) == Loss(Content(region)(c))
    requires forall c :: Within(GRID, c) ==> light[Index(c)] == m.seed(c) <= MAX_LIGHT
    requires forall c :: Within(GRID, c) && light[Index(c)] > 1 ==> c in initial
    requires forall c :: c in initial ==> Within(GRID, c)
    modifies light
    ensures forall c :: Within(GRID, c) ==> IsLight(GRID, m, c, light[Index(c)])
  {
    var queue := initial;
    SeededInv(m, Work(light[..], queue));
    while queue != []
      invariant Inv(m, Work(light[..], queue))
      decreases Headroom(light[..]), |queue|
    {
      ghost var before := Work(light[..], queue);
      StepKeepsInv(m, before, 0);
      StepProgress(m, before, 0);
      var c := queue[0];
      queue := queue[1..];
      assert queue == Without(before.queue, 0);
      if light[Index(c)] > 1 {
        queue := OfferNeighbors(region, light, queue, c, m);
      }
    }
    forall c | Within(GRID, c)
      ensures IsLight(GRID, m, c, light[Index(c)])
    {
      DoneIsLight(m, Work(light[..], queue), c);
    }
  }

  /** The body of the loop: offers the light of `c` to each neighbour in turn. */
  method OfferNeighbors(region: Region, light: array<nat>, pending: seq<Cell>, c: Cell, ghost m: Medium)
    returns (queue: seq<Cell>)
    requires region.Valid() && light.Length == VOLUME && Within(GRID, c)
    requires forall d :: Within(GRID, d) ==> m.loss(d) == Loss(Content(region)(d))
    modifies light
    ensures Work(light[..], queue) == OfferAll(m, Work(old(light[..]), pending), old(light[Index(c)]), Neighbors(c))
  {
    queue := pending;
    var source := light[Index(c)];
    var ns := Neighbors(c);
    ghost var goal := OfferAll(m, Work(light[..], queue), source, ns);
    assert ns[0..] == ns;
    for k := 0 to |ns|
      invariant OfferAll(m, Work(light[..], queue), source, ns[k..]) == goal
    {
      assert ns[k..][0] == ns[k] && ns[k..][1..] == ns[k + 1..];
      queue := OfferTo(region, light, queue, source, ns[k], m);
    }
  }

  /** Offers `source` to one neighbour, which is queued if that brightens it. */
  method OfferTo(region: Region, light: array<nat>, pending: seq<Cell>, source: nat, n: Cell, ghost m: Medium)
    returns (queue: seq<Cell>)
    requires region.Valid() && light.Length == VOLUME && Within(GRID, n)
    requires forall d :: Within(GRID, d) ==> m.loss(d) == Loss(Content(region)(d))
    modifies light
    ensures Work(light[..], queue) == Offer(m, Work(old(light[..]), pending), source, n)
  {
    queue := pending;
    WorldLookupIsLocal(region, n);
    var candidate := SaturatingSub(source, Loss(BlockIdAt(region, n)));
    if candidate != 0 && candidate > light[Index(n)] {
      light[Index(n)] := candidate;
      queue := queue + [n];
      assert light[..] == old(light[..])[Index(n) := candidate];
    }
  }

  lemma SeededInv(m: Medium, w: Work)
    requires Lossy(GRID, m) && |w.light| == VOLUME
    requires forall c :: Within(GRID, c) ==> w.light[Index(c)] == m.seed(c)
    requires forall c :: Within(GRID, c) && w.light[Index(c)] > 1 ==> c in w.queue
    requires forall c :: c in w.queue ==> Within(GRID, c)
    ensures Inv(m, w)
  {
    forall c | Within(GRID, c)
      ensures Reaches(GRID, m, c, w.light[Index(c)])
      ensures c in w.queue || Settled(GRID, m, Field(w.light), c)
    {
      SeedReaches(GRID, m, c);
    }
  }

  lemma AllIndicesDiffer()
    ensures forall c, d :: Within(GRID, c) && Within(GRID, d) && Index(c) == Index(d) ==> c == d
  {
    forall c, d | Within(GRID, c) && Within(GRID, d) && Index(c) == Index(d)
      ensures c == d
    {
      IndexIsInjective(c, d);
    }
  }

  method PropagateSkyLight(region: Region, heights: array<nat>) returns (light: array<nat>)
    requires region.Valid() && HeightsKnown(Content(region), heights[..], AREA)
    ensures fresh(light) && light.Length == VOLUME
    ensures forall c :: Within(GRID, c) ==> IsLight(GRID, SkyMedium(Content(region)), c, light[Index(c)])
  {
    var queue;
    light, queue := SeedSky(region, heights);
    SkySeedsMatch(Content(region), light[..], queue, heights[..]);
    Propagate(region, light, queue, SkyMedium(Content(region)));
  }

  method SeedSky(region: Region, heights: array<nat>) returns (light: array<nat>, queue: seq<Cell>)
    requires region.Valid() && HeightsKnown(Content(region), heights[..], AREA)
    ensures fresh(light) && SkySeeded(light[..], queue, heights[..], 0, EDGE)
  {
    light := new nat[VOLUME](_ => 0);
    queue := [];
    for z := 0 to EDGE
      invariant SkySeeded(light[..], queue, heights[..], 0, z)
    {
      for x := 0 to EDGE
        invariant SkySeeded(light[..], queue, heights[..], x, z)
      {
        assert (x + z * EDGE) % EDGE == x && (x + z * EDGE) / EDGE == z;
        assert IsHeight(Content(region), x, z, heights[..][x + z * EDGE]);
        queue := SeedColumn(light, queue, heights, x, z);
      }
    }
  }

  lemma SkySeedsMatch(content: Cell -> nat, light: seq<nat>, queue: seq<Cell>, heights: seq<nat>)
    requires SkySeeded(light, queue, heights, 0, EDGE) && HeightsKnown(content, heights, AREA)
    ensures forall c :: Within(GRID, c) ==> light[Index(c)] == SkyMedium(content).seed(c)
  {
    forall c | Within(GRID, c)
      ensures light[Index(c)] == SkyMedium(content).seed(c)
    {
      var k := c.x + c.z * EDGE;
      assert k % EDGE == c.x && k / EDGE == c.z;
      assert IsHeight(content, c.x, c.z, heights[k]);
      assert OpenSky(content, Cell(c.x, c.y, c.z)) <==> heights[k] <= c.y;
    }
  }

  /** Columns before (x, z) are lit from their height up, the others still dark; every lit cell is
      queued. */
  ghost predicate SkySeeded(light: seq<nat>, queue: seq<Cell>, heights: seq<nat>, x: nat, z: nat) {
    && |light| == VOLUME && |heights| == AREA
    && (forall c :: c in queue ==> Within(GRID, c))
    && (forall c :: Within(GRID, c) && light[Index(c)] > 1 ==> c in queue)
    && forall c :: Within(GRID, c) ==>
      light[Index(c)] == if c.x + c.z * EDGE < x + z * EDGE && heights[c.x + c.z * EDGE] <= c.y then MAX_LIGHT else 0
  }

  /** As SkySeeded, with column (x, z) lit from its height up to below `y`. */
  ghost predicate SkySeededTo(light: seq<nat>, queue: seq<Cell>, heights: seq<nat>, x: nat, z: nat, y: nat) {
    && |light| == VOLUME && |heights| == AREA && x < EDGE && z < EDGE
    && (forall c :: c in queue ==> Within(GRID, c))
    && (forall c :: Within(GRID, c) && light[Index(c)] > 1 ==> c in queue)
    && forall c :: Within(GRID, c) ==>
      light[Index(c)] ==
      if heights[c.x + c.z * EDGE] <= c.y && (c.x + c.z * EDGE < x + z * EDGE || (c.x == x && c.z == z && c.y < y))
      then MAX_LIGHT else 0
  }

  lemma SeedOneCell(light: seq<nat>, queue: seq<Cell>, heights: seq<nat>, x: nat, z: nat, y: nat)
    requires SkySeededTo(light, queue, heights, x, z, y) && heights[x + z * EDGE] <= y < WORLD_HEIGHT
    ensures SkySeededTo(light[Index(Cell(x, y, z)) := MAX_LIGHT], queue + [Cell(x, y, z)], heights, x, z, y + 1)
  {
    var seeded := Cell(x, y, z);
    var light' := light[Index(seeded) := MAX_LIGHT];
    forall c | Within(GRID, c)
      ensures light'[Index(c)] == if c == seeded then MAX_LIGHT else light[Index(c)]
    {
      if Index(c) == Index(seeded) {
        IndexIsInjective(c, seeded);
      }
    }
  }

  method SeedColumn(light: array<nat>, queue: seq<Cell>, heights: array<nat>, x: nat, z: nat)
    returns (queue': seq<Cell>)
    requires x < EDGE && z < EDGE && light != heights
    requires light.Length == VOLUME && heights.Length == AREA && heights[x + z * EDGE] <= WORLD_HEIGHT
    requires SkySeeded(light[..], queue, heights[..], x, z)
    modifies light
    ensures SkySeeded(light[..], queue', heights[..], x + 1, z)
  {
    queue' := queue;
    var height := heights[x + z * EDGE];
    for y := height to WORLD_HEIGHT
      invariant SkySeededTo(light[..], queue', heights[..], x, z, y)
    {
      ghost var before := light[..];
      SeedOneCell(before, queue', heights[..], x, z, y);
      light[Index(Cell(x, y, z))] := MAX_LIGHT;
      queue' := queue' + [Cell(x, y, z)];
      assert light[..] == before[Index(Cell(x, y, z)) := MAX_LIGHT];
    }
  }

  method PropagateBlockLight(region: Region) returns (light: array<nat>)
    requires region.Valid()
    ensures fresh(light) && light.Length == VOLUME
    ensures forall c :: Within(GRID, c) ==> IsLight(GRID, BlockMedium(Content(region)), c, light[Index(c)])
  {
    light := new nat[VOLUME](_ => 0);
    var queue: seq<Cell> := [];
    ghost var m := BlockMedium(Content(region));
    AllIndicesDiffer();
    for y := 0 to WORLD_HEIGHT
      invariant EmittersSeeded(m, light[..], queue, y * AREA)
    {
      for z := 0 to EDGE
        invariant EmittersSeeded(m, light[..], queue, y * AREA + z * EDGE)
      {
        for x := 0 to EDGE
          invariant EmittersSeeded(m, light[..], queue, y * AREA + z * EDGE + x)
        {
          queue := SeedEmitter(region, light, queue, Cell(x, y, z));
        }
      }
    }
    Propagate(region, light, queue, m);
  }

  method SeedEmitter(region: Region, light: array<nat>, queue: seq<Cell>, c: Cell) returns (queue': seq<Cell>)
    requires region.Valid() && light.Length == VOLUME && Within(GRID, c)
    requires EmittersSeeded(BlockMedium(Content(region)), light[..], queue, Index(c))
    modifies light
    ensures EmittersSeeded(BlockMedium(Content(region)), light[..], queue', Index(c) + 1)
  {
    queue' := queue;
    WorldLookupIsLocal(region, c);
    AllIndicesDiffer();
    var emission := Emission(BlockIdAt(region, c));
    if emission != 0 {
      light[Index(c)] := emission;
      queue' := queue' + [c];
    }
  }

  ghost predicate EmittersSeeded(m: Medium, light: seq<nat>, queue: seq<Cell>, n: nat) {
    && |light| == VOLUME
    && (forall c :: c in queue ==> Within(GRID, c))
    && (forall c :: Within(GRID, c) && light[Index(c)] > 1 ==> c in queue)
    && forall c :: Within(GRID, c) ==> light[Index(c)] == if Index(c) < n then m.seed(c) else 0
  }

  function CenterCell(x: nat, y: nat, z: nat): (c: Cell)
    requires x < 16 && y < WORLD_HEIGHT && z < 16
    ensures Within(GRID, c)
  {
    Cell(x + 16, y, z + 16)
  }

  /** The neighbourhood cell behind a packed plane index. */
  function PackedCell(t: nat): Cell
    requires t < CHUNK_BLOCKS
  {
    CenterCell(t % 16, t / 256, t / 16 % 16)
  }

  lemma PackedCellAt(x: nat, y: nat, z: nat)
    requires x < 16 && y < WORLD_HEIGHT && z < 16
    ensures PackedCell(y * 256 + z * 16 + x) == CenterCell(x, y, z)
  {
    var t := y * 256 + z * 16 + x;
    assert t / 16 == y * 16 + z;
  }

  method PackCenterLight(light: array<nat>) returns (packed: array<nat>)
    requires light.Length == VOLUME && forall i :: 0 <= i < VOLUME ==> light[i] <= MAX_LIGHT
    ensures fresh(packed) && packed.Length == NIBBLE_BYTES && IsBytes(packed[..])
    ensures forall t :: 0 <= t < CHUNK_BLOCKS ==> ReadNibble(packed[..], t) == light[Index(PackedCell(t))]
  {
    packed := new nat[NIBBLE_BYTES](_ => 0);
    for y := 0 to WORLD_HEIGHT
      invariant Packed(light[..], packed[..], y * 256)
    {
      for z := 0 to 16
        invariant Packed(light[..], packed[..], y * 256 + z * 16)
      {
        for x := 0 to 16
          invariant Packed(light[..], packed[..], y * 256 + z * 16 + x)
        {
          var target := y * 256 + z * 16 + x;
          PackedCellAt(x, y, z);
          PackStep(light[..], packed[..], target);
          WriteNibble(packed, target, light[Index(CenterCell(x, y, z))]);
        }
      }
    }
  }

  lemma PackStep(light: seq<nat>, packed: seq<nat>, target: nat)
    requires target < CHUNK_BLOCKS && Packed(light, packed, target) && light[Index(PackedCell(target))] <= MAX_LIGHT
    ensures Packed(light, WithNibble(packed, target, light[Index(PackedCell(target))]), target + 1)
  {
    var value := light[Index(PackedCell(target))];
    var after := WithNibble(packed, target, value);
    NibbleReadsBack(packed, target, value, target);
    forall t | 0 <= t < target + 1 && t < CHUNK_BLOCKS
      ensures ReadNibble(after, t) == light[Index(PackedCell(t))]
    {
      NibbleReadsBack(packed, target, value, t);
    }
  }

  ghost predicate Packed(light: seq<nat>, packed: seq<nat>, n: nat) {
    && |light| == VOLUME && |packed| == NIBBLE_BYTES && IsBytes(packed)
    && forall t :: 0 <= t < n && t < CHUNK_BLOCKS ==> ReadNibble(packed, t) == light[Index(PackedCell(t))]
  }

  function CenterColumn(k: nat): nat
    requires k < 256
  {
    (k % 16 + 16) + (k / 16 + 16) * EDGE
  }

  method CenterHeightMap(heights: array<nat>) returns (center: array<nat>)
    requires heights.Length == AREA
    ensures fresh(center) && center.Length == 256
    ensures forall k :: 0 <= k < 256 ==> center[k] == heights[CenterColumn(k)]
  {
    center := new nat[256](_ => 0);
    for z := 0 to 16
      invariant forall k :: 0 <= k < z * 16 ==> center[k] == heights[CenterColumn(k)]
    {
      for x := 0 to 16
        invariant forall k :: 0 <= k < x + z * 16 ==> center[k] == heights[CenterColumn(k)]
      {
        center[x + z * 16] := heights[(x + 16) + (z + 16) * EDGE];
      }
    }
  }

  /** The packed planes hold the light of the centre chunk's cells in every world box around the
      neighbourhood that agrees with it. */
  method FinalizeCenterLighting(region: Region) returns (heights: array<nat>, sky: array<nat>, block: array<nat>)
    requires region.Valid()
    ensures heights.Length == 256 && sky.Length == NIBBLE_BYTES && block.Length == NIBBLE_BYTES
    ensures forall k :: 0 <= k < 256 ==> IsHeight(Content(region), k % 16 + 16, k / 16 + 16, heights[k])
    ensures forall t :: 0 <= t < CHUNK_BLOCKS ==>
      IsCenterLight(region, PackedCell(t), ReadNibble(sky[..], t), ReadNibble(block[..], t))
  {
    var all := NeighborhoodHeightMap(region);
    var skyLight := PropagateSkyLight(region, all);
    var blockLight := PropagateBlockLight(region);
    heights := CenterHeightMap(all);
    MediaAreLossy(GRID, Content(region));
    LightInRange(SkyMedium(Content(region)), skyLight[..]);
    LightInRange(BlockMedium(Content(region)), blockLight[..]);
    sky := PackCenterLight(skyLight);
    block := PackCenterLight(blockLight);
    CenterHeights(Content(region), all[..], heights[..]);
    AllCenterLight(region, skyLight[..], blockLight[..], sky[..], block[..]);
  }

  lemma CenterHeights(content: Cell -> nat, all: seq<nat>, center: seq<nat>)
    requires HeightsKnown(content, all, AREA) && |center| == 256
    requires forall k :: 0 <= k < 256 ==> center[k] == all[CenterColumn(k)]
    ensures forall k :: 0 <= k < 256 ==> IsHeight(content, k % 16 + 16, k / 16 + 16, center[k])
  {
  }

  lemma AllCenterLight(region: Region, skyLight: seq<nat>, blockLight: seq<nat>, sky: seq<nat>, block: seq<nat>)
    requires region.Valid() && |skyLight| == VOLUME && |blockLight| == VOLUME
    requires |sky| == NIBBLE_BYTES && |block| == NIBBLE_BYTES
    requires forall c :: Within(GRID, c) ==> IsLight(GRID, SkyMedium(Content(region)), c, skyLight[Index(c)])
    requires forall c :: Within(GRID, c) ==> IsLight(GRID, BlockMedium(Content(region)), c, blockLight[Index(c)])
    requires forall t :: 0 <= t < CHUNK_BLOCKS ==> ReadNibble(sky, t) == skyLight[Index(PackedCell(t))]
    requires forall t :: 0 <= t < CHUNK_BLOCKS ==> ReadNibble(block, t) == blockLight[Index(PackedCell(t))]
    ensures forall t :: 0 <= t < CHUNK_BLOCKS ==>
      IsCenterLight(region, PackedCell(t), ReadNibble(sky, t), ReadNibble(block, t))
  {
    forall t | 0 <= t < CHUNK_BLOCKS
      ensures IsCenterLight(region, PackedCell(t), ReadNibble(sky, t), ReadNibble(block, t))
    {
      CenterLight(region, PackedCell(t), ReadNibble(sky, t), ReadNibble(block, t));
    }
  }

  ghost predicate IsCenterLight(region: Region, c: Cell, sky: nat, block: nat)
    requires region.Valid()
  {
    forall b: Box, world: Cell -> nat :: Surrounds(b, world, Content(region)) ==>
      IsLight(b, SkyMedium(world), c, sky) && IsLight(b, BlockMedium(world), c, block)
  }

  lemma CenterLight(region: Region, c: Cell, sky: nat, block: nat)
    requires region.Valid() && 16 <= c.x < 32 && 0 <= c.y < WORLD_HEIGHT && 16 <= c.z < 32
    requires IsLight(GRID, SkyMedium(Content(region)), c, sky) && IsLight(GRID, BlockMedium(Content(region)), c, block)
    ensures IsCenterLight(region, c, sky, block)
  {
    forall b: Box, world: Cell -> nat | Surrounds(b, world, Content(region))
      ensures IsLight(b, SkyMedium(world), c, sky) && IsLight(b, BlockMedium(world), c, block)
    {
      CenterLightIn(Content(region), world, b, c, sky, block);
    }
  }

  lemma CenterLightIn(content: Cell -> nat, world: Cell -> nat, b: Box, c: Cell, sky: nat, block: nat)
    requires Surrounds(b, world, content)
    requires 16 <= c.x < 32 && 0 <= c.y < WORLD_HEIGHT && 16 <= c.z < 32
    requires IsLight(GRID, SkyMedium(content), c, sky) && IsLight(GRID, BlockMedium(content), c, block)
    ensures IsLight(b, SkyMedium(world), c, sky) && IsLight(b, BlockMedium(world), c, block)
  {
    CenterLightIsWorldLight(content, world, b, c, sky);
    CenterLightIsWorldLight(content, world, b, c, block);
  }

  lemma LightInRange(m: Medium, light: seq<nat>)
    requires Lossy(GRID, m) && |light| == VOLUME
    requires forall c :: Within(GRID, c) ==> IsLight(GRID, m, c, light[Index(c)])
    ensures forall i :: 0 <= i < VOLUME ==> light[i] <= MAX_LIGHT
  {
    forall i | 0 <= i < VOLUME
      ensures light[i] <= MAX_LIGHT
    {
      var c := CellAt(i);
      var p :| PathTo(GRID, p, c) && Delivered(m, p) == light[i];
      PathCost(GRID, m, p);
    }
  }
}
