/** The light field a relaxation is supposed to compute, and how far light reaches.

    A cell's light is the greatest value any path can deliver to it: the seed of the path's first
    cell less the attenuation of every later cell. The definition mentions no queue and no order
    of work, so it is what the queue-driven propagation is held to. */
module LightField {

  const MAX_LIGHT: nat := 15
  const WORLD_HEIGHT: nat := 128

  datatype Cell = Cell(x: int, y: int, z: int)

  /** A box of columns, of full world height. */
  datatype Box = Box(x0: int, x1: int, z0: int, z1: int)

  /** What a cell costs to enter, and the light it starts with. */
  datatype Medium = Medium(loss: Cell -> nat, seed: Cell -> nat)

  predicate Within(b: Box, c: Cell) {
    b.x0 <= c.x < b.x1 && 0 <= c.y < WORLD_HEIGHT && b.z0 <= c.z < b.z1
  }

  function Abs(n: int): nat {
    if n < 0 then -n else n
  }

  function Distance(a: Cell, b: Cell): nat {
    Abs(a.x - b.x) + Abs(a.y - b.y) + Abs(a.z - b.z)
  }

  predicate Adjacent(a: Cell, b: Cell) {
    Distance(a, b) == 1
  }

  /** Entering a cell always costs at least one, and no seed exceeds the light range. */
  ghost predicate Lossy(b: Box, m: Medium) {
    forall c :: Within(b, c) ==> 1 <= m.loss(c) && m.seed(c) <= MAX_LIGHT
  }

  ghost predicate IsPath(b: Box, p: seq<Cell>) {
    && |p| > 0
    && (forall i :: 0 <= i < |p| ==> Within(b, p[i]))
    && forall i :: 0 < i < |p| ==> Adjacent(p[i - 1], p[i])
  }

  ghost predicate PathTo(b: Box, p: seq<Cell>, c: Cell) {
    IsPath(b, p) && p[|p| - 1] == c
  }

  function Delivered(m: Medium, p: seq<Cell>): int
    requires |p| > 0
  {
    if |p| == 1 then m.seed(p[0]) else Delivered(m, p[..|p| - 1]) - m.loss(p[|p| - 1])
  }

  ghost predicate Reaches(b: Box, m: Medium, c: Cell, v: int) {
    exists p :: PathTo(b, p, c) && Delivered(m, p) == v
  }

  ghost predicate Bounds(b: Box, m: Medium, c: Cell, v: int) {
    forall p :: PathTo(b, p, c) ==> Delivered(m, p) <= v
  }

  /** `v` is the light of `c`: some path delivers it, and none delivers more. */
  ghost predicate IsLight(b: Box, m: Medium, c: Cell, v: int) {
    Reaches(b, m, c, v) && Bounds(b, m, c, v)
  }

  /** No cell of the field owes its neighbour any light. */
  ghost predicate Settled(b: Box, m: Medium, f: Cell -> int, c: Cell) {
    forall d :: Within(b, d) && Adjacent(c, d) ==> f(c) - m.loss(d) <= f(d)
  }

  // ----- the light of a cell is determined

  lemma LightIsUnique(b: Box, m: Medium, c: Cell, v: int, w: int)
    requires IsLight(b, m, c, v) && IsLight(b, m, c, w)
    ensures v == w
  {
  }

  lemma SeedReaches(b: Box, m: Medium, c: Cell)
    requires Within(b, c)
    ensures Reaches(b, m, c, m.seed(c))
  {
    assert PathTo(b, [c], c);
  }

  lemma StepReaches(b: Box, m: Medium, c: Cell, d: Cell, v: int)
    requires Reaches(b, m, c, v) && Within(b, d) && Adjacent(c, d)
    ensures Reaches(b, m, d, v - m.loss(d))
  {
    var p :| PathTo(b, p, c) && Delivered(m, p) == v;
    var q := p + [d];
    assert q[..|q| - 1] == p;
    assert PathTo(b, q, d);
  }

  /** A field that is settled everywhere and keeps every seed bounds every path. */
  lemma {:induction false} SettledFieldBounds(b: Box, m: Medium, f: Cell -> int, p: seq<Cell>)
    requires forall c :: Within(b, c) ==> m.seed(c) <= f(c) && Settled(b, m, f, c)
    requires IsPath(b, p)
    ensures Delivered(m, p) <= f(p[|p| - 1])
  {
    if |p| > 1 {
      var q := p[..|p| - 1];
      assert IsPath(b, q);
      SettledFieldBounds(b, m, f, q);
      assert Adjacent(p[|p| - 2], p[|p| - 1]);
    }
  }

  /** A cell is no darker than a neighbour's light less what entering it costs. */
  lemma LightIsOffered(b: Box, m: Medium, c: Cell, v: int, d: Cell, w: int)
    requires IsLight(b, m, c, v) && IsLight(b, m, d, w) && Within(b, d) && Adjacent(c, d)
    ensures w >= v - m.loss(d)
  {
    StepReaches(b, m, c, d, v);
  }

  /** Light above a cell's own seed came from a neighbour, exactly that much brighter. */
  lemma LightHasSource(b: Box, m: Medium, d: Cell, w: int) returns (c: Cell)
    requires IsLight(b, m, d, w) && w != m.seed(d)
    ensures Within(b, c) && Adjacent(c, d) && IsLight(b, m, c, w + m.loss(d))
  {
    var p :| PathTo(b, p, d) && Delivered(m, p) == w;
    assert |p| > 1;
    var q := p[..|p| - 1];
    c := q[|q| - 1];
    assert Adjacent(p[|p| - 2], p[|p| - 1]);
    assert PathTo(b, q, c);
    forall r | PathTo(b, r, c)
      ensures Delivered(m, r) <= w + m.loss(d)
    {
      var s := r + [d];
      assert s[..|s| - 1] == r;
      assert PathTo(b, s, d);
    }
  }

  /** A cell that costs as much to enter as light can be holds exactly its own seed. */
  lemma OpaqueHoldsSeed(b: Box, m: Medium, c: Cell)
    requires Lossy(b, m) && Within(b, c) && m.loss(c) >= MAX_LIGHT
    ensures IsLight(b, m, c, m.seed(c))
  {
    SeedReaches(b, m, c);
    forall p | PathTo(b, p, c)
      ensures Delivered(m, p) <= m.seed(c)
    {
      if |p| > 1 {
        var q := p[..|p| - 1];
        assert IsPath(b, q);
        PathCost(b, m, q);
      }
    }
  }

  // ----- how far light reaches

  lemma {:induction false} PathSpread(b: Box, p: seq<Cell>, i: nat)
    requires IsPath(b, p) && i < |p|
    ensures Distance(p[i], p[|p| - 1]) <= |p| - 1 - i
    decreases |p| - i
  {
    if i + 1 < |p| {
      PathSpread(b, p, i + 1);
      assert Adjacent(p[i + 1 - 1], p[i + 1]);
    }
  }

  lemma {:induction false} PathCost(b: Box, m: Medium, p: seq<Cell>)
    requires Lossy(b, m) && IsPath(b, p)
    ensures Delivered(m, p) <= m.seed(p[0]) - (|p| - 1)
  {
    if |p| > 1 {
      assert IsPath(b, p[..|p| - 1]);
      PathCost(b, m, p[..|p| - 1]);
    }
  }

  /** Two boxes with their media look alike near `c`: same cells, same costs, same seeds, as far
      out as `r`. */
  ghost predicate AlikeNear(b: Box, m: Medium, b': Box, m': Medium, c: Cell, r: nat) {
    forall q :: Distance(q, c) <= r ==>
      (Within(b, q) <==> Within(b', q)) && (Within(b, q) ==> m.loss(q) == m'.loss(q) && m.seed(q) == m'.seed(q))
  }

  lemma {:induction false} SameDelivery(m: Medium, m': Medium, p: seq<Cell>)
    requires |p| > 0
    requires forall i :: 0 <= i < |p| ==> m.loss(p[i]) == m'.loss(p[i]) && m.seed(p[i]) == m'.seed(p[i])
    ensures Delivered(m, p) == Delivered(m', p)
  {
    if |p| > 1 {
      SameDelivery(m, m', p[..|p| - 1]);
    }
  }

  /** A path that still carries light when it arrives never left the alike part. */
  lemma BrightPathCarriesOver(b: Box, m: Medium, b': Box, m': Medium, c: Cell, p: seq<Cell>)
    requires Lossy(b, m) && AlikeNear(b, m, b', m', c, MAX_LIGHT - 1)
    requires PathTo(b, p, c) && (Delivered(m, p) >= 1 || |p| == 1)
    ensures PathTo(b', p, c) && Delivered(m', p) == Delivered(m, p)
  {
    PathCost(b, m, p);
    forall i | 0 <= i < |p|
      ensures Distance(p[i], c) <= MAX_LIGHT - 1
    {
      PathSpread(b, p, i);
    }
    SameDelivery(m, m', p);
  }

  lemma LocalityOneWay(b: Box, m: Medium, b': Box, m': Medium, c: Cell, v: int)
    requires Lossy(b, m) && Lossy(b', m') && AlikeNear(b, m, b', m', c, MAX_LIGHT - 1)
    requires Within(b, c) && IsLight(b, m, c, v)
    ensures IsLight(b', m', c, v)
  {
    assert Distance(c, c) == 0;
    assert PathTo(b, [c], c) && PathTo(b', [c], c);
    var p :| PathTo(b, p, c) && Delivered(m, p) == v;
    if v >= 1 {
      BrightPathCarriesOver(b, m, b', m', c, p);
    } else {
      BrightPathCarriesOver(b, m, b', m', c, [c]);
    }
    forall q | PathTo(b', q, c)
      ensures Delivered(m', q) <= v
    {
      if Delivered(m', q) >= 1 {
        BrightPathCarriesOver(b', m', b, m, c, q);
      }
    }
  }

  /** Light is local: whatever lies further than 14 steps from a cell cannot change its light. */
  lemma LightIsLocal(b: Box, m: Medium, b': Box, m': Medium, c: Cell, v: int)
    requires Lossy(b, m) && Lossy(b', m') && AlikeNear(b, m, b', m', c, MAX_LIGHT - 1)
    requires Within(b, c)
    ensures IsLight(b, m, c, v) <==> IsLight(b', m', c, v)
  {
    assert Distance(c, c) == 0;
    if IsLight(b, m, c, v) {
      LocalityOneWay(b, m, b', m', c, v);
    }
    if IsLight(b', m', c, v) {
      LocalityOneWay(b', m', b, m, c, v);
    }
  }

  // ----- fourteen steps is the exact reach

  const CORRIDOR := Box(0, 15, 0, 1)

  function Lamp(level: nat): (m: Medium) {
    Medium(c => 1, c => if c == Cell(0, 0, 0) then level else 0)
  }

  function Corridor(n: nat): (p: seq<Cell>)
    ensures |p| == n
  {
    seq(n, i => Cell(i, 0, 0))
  }

  lemma {:induction false} CorridorDelivers(level: nat, n: nat)
    requires 0 < n <= 15
    ensures PathTo(CORRIDOR, Corridor(n), Cell(n - 1, 0, 0))
    ensures Delivered(Lamp(level), Corridor(n)) == level - (n - 1)
  {
    if n > 1 {
      CorridorDelivers(level, n - 1);
      assert Corridor(n)[..n - 1] == Corridor(n - 1);
    }
  }

  /** A lamp fourteen steps away is seen, so agreement out to thirteen steps is not enough. */
  lemma FourteenStepsMatter()
    ensures AlikeNear(CORRIDOR, Lamp(15), CORRIDOR, Lamp(0), Cell(14, 0, 0), MAX_LIGHT - 2)
    ensures IsLight(CORRIDOR, Lamp(15), Cell(14, 0, 0), 1)
    ensures IsLight(CORRIDOR, Lamp(0), Cell(14, 0, 0), 0)
  {
    var c := Cell(14, 0, 0);
    CorridorDelivers(15, 15);
    SeedReaches(CORRIDOR, Lamp(0), c);
    forall p | PathTo(CORRIDOR, p, c)
      ensures Delivered(Lamp(15), p) <= 1 && Delivered(Lamp(0), p) <= 0
    {
      PathCost(CORRIDOR, Lamp(15), p);
      PathCost(CORRIDOR, Lamp(0), p);
      PathSpread(CORRIDOR, p, 0);
    }
  }
}
