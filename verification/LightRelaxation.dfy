/** The queue-driven relaxation over the 48x48x128 neighbourhood, as steps on values.

    A step may take any queued cell, not only the oldest. Every run therefore covers every order,
    and the first-in-first-out loop of the program is one of them. */
module LightRelaxation {
  import opened LightField

  const EDGE: nat := 48
  const AREA: nat := 2304
  const VOLUME: nat := 294912
  const GRID := Box(0, 48, 0, 48)

  datatype Work = Work(light: seq<nat>, queue: seq<Cell>)

  function Index(c: Cell): (i: nat)
    requires Within(GRID, c)
    ensures i < VOLUME
  {
    c.y * AREA + c.z * EDGE + c.x
  }

  function CellAt(i: nat): (c: Cell)
    requires i < VOLUME
    ensures Within(GRID, c) && Index(c) == i
  {
    Cell(i % EDGE, i / AREA, i % AREA / EDGE)
  }

  lemma IndexIsInjective(c: Cell, d: Cell)
    requires Within(GRID, c) && Within(GRID, d) && Index(c) == Index(d)
    ensures c == d
  {
    assert c.z * EDGE + c.x < AREA && d.z * EDGE + d.x < AREA;
    assert c.y == d.y;
  }

  function Field(light: seq<nat>): Cell -> int {
    c => if Within(GRID, c) && |light| == VOLUME then light[Index(c)] else 0
  }

  /** In-bounds neighbours, in the program's order. */
  function Neighbors(c: Cell): (ns: seq<Cell>)
    requires Within(GRID, c)
    ensures forall d :: d in ns <==> Within(GRID, d) && Adjacent(c, d)
  {
    (if c.x > 0 then [Cell(c.x - 1, c.y, c.z)] else []) +
    (if c.x + 1 < EDGE then [Cell(c.x + 1, c.y, c.z)] else []) +
    (if c.y > 0 then [Cell(c.x, c.y - 1, c.z)] else []) +
    (if c.y + 1 < WORLD_HEIGHT then [Cell(c.x, c.y + 1, c.z)] else []) +
    (if c.z > 0 then [Cell(c.x, c.y, c.z - 1)] else []) +
    (if c.z + 1 < EDGE then [Cell(c.x, c.y, c.z + 1)] else [])
  }

  function SaturatingSub(a: nat, b: nat): nat {
    if a <= b then 0 else a - b
  }

  /** Offers `source`, less what entering `n` costs, to `n`. */
  function Offer(m: Medium, w: Work, source: nat, n: Cell): (w': Work)
    requires |w.light| == VOLUME && Within(GRID, n)
    ensures |w'.light| == VOLUME
  {
    var candidate := SaturatingSub(source, m.loss(n));
    if candidate == 0 || candidate <= w.light[Index(n)] then w
    else Work(w.light[Index(n) := candidate], w.queue + [n])
  }

  function OfferAll(m: Medium, w: Work, source: nat, ns: seq<Cell>): (w': Work)
    requires |w.light| == VOLUME && forall n :: n in ns ==> Within(GRID, n)
    ensures |w'.light| == VOLUME
    decreases |ns|
  {
    if ns == [] then w else OfferAll(m, Offer(m, w, source, ns[0]), source, ns[1..])
  }

  function Without(queue: seq<Cell>, i: nat): (rest: seq<Cell>)
    requires i < |queue|
    ensures |rest| == |queue| - 1
    ensures forall c :: c in queue ==> c == queue[i] || c in rest
    ensures forall c :: c in rest ==> c in queue
  {
    queue[..i] + queue[i + 1..]
  }

  /** Takes the `i`-th queued cell and offers its light to its neighbours. */
  function Step(m: Medium, w: Work, i: nat): (w': Work)
    requires |w.light| == VOLUME && i < |w.queue| && Within(GRID, w.queue[i])
    ensures |w'.light| == VOLUME
  {
    var c := w.queue[i];
    var rest := Work(w.light, Without(w.queue, i));
    var source := w.light[Index(c)];
    if source <= 1 then rest else OfferAll(m, rest, source, Neighbors(c))
  }

  /** Every cell holds light some path delivers, keeps its seed, and owes its neighbours nothing
      unless it is queued. */
  ghost predicate Sound(m: Medium, w: Work) {
    && |w.light| == VOLUME
    && (forall c :: c in w.queue ==> Within(GRID, c))
    && (forall c :: Within(GRID, c) ==>
          m.seed(c) <= w.light[Index(c)] <= MAX_LIGHT && Reaches(GRID, m, c, w.light[Index(c)]))
  }

  ghost predicate Inv(m: Medium, w: Work) {
    && Sound(m, w)
    && forall c :: Within(GRID, c) ==> c in w.queue || Settled(GRID, m, Field(w.light), c)
  }

  /** As `Inv`, but `c` has been dequeued and still owes the cells of `todo`. */
  ghost predicate InvOwing(m: Medium, w: Work, c: Cell, source: nat, todo: seq<Cell>) {
    && Sound(m, w)
    && Within(GRID, c) && w.light[Index(c)] == source
    && (forall d :: d in todo ==> Within(GRID, d) && Adjacent(c, d))
    && (forall d :: Within(GRID, d) && Adjacent(c, d) ==>
          d in todo || source - m.loss(d) <= w.light[Index(d)])
    && forall d :: Within(GRID, d) && d != c ==> d in w.queue || Settled(GRID, m, Field(w.light), d)
  }

  // ----- termination measure

  /** Light the whole grid could still gain. */
  function Headroom(light: seq<nat>): nat {
    if light == [] then 0
    else SaturatingSub(MAX_LIGHT, light[|light| - 1]) + Headroom(light[..|light| - 1])
  }

  lemma {:induction false} BrighteningUsesHeadroom(light: seq<nat>, i: nat, v: nat)
    requires i < |light| && light[i] < v <= MAX_LIGHT
    ensures Headroom(light[i := v]) < Headroom(light)
  {
    var last := |light| - 1;
    var brighter := light[i := v];
    if i == last {
      assert brighter[..last] == light[..last];
    } else {
      assert brighter[..last] == light[..last][i := v];
      BrighteningUsesHeadroom(light[..last], i, v);
    }
  }

  // ----- one offer

  /** An offer touches no other cell and never dims one. */
  lemma OfferFrame(m: Medium, w: Work, source: nat, n: Cell)
    requires |w.light| == VOLUME && Within(GRID, n)
    ensures var w' := Offer(m, w, source, n);
            forall d :: Within(GRID, d) ==>
              && w'.light[Index(d)] == (if d == n then w'.light[Index(n)] else w.light[Index(d)])
              && w.light[Index(d)] <= w'.light[Index(d)]
  {
    var w' := Offer(m, w, source, n);
    forall d | Within(GRID, d)
      ensures w'.light[Index(d)] == (if d == n then w'.light[Index(n)] else w.light[Index(d)])
      ensures w.light[Index(d)] <= w'.light[Index(d)]
    {
      if Index(d) == Index(n) {
        IndexIsInjective(d, n);
      }
    }
  }

  lemma OfferKeepsOwing(m: Medium, w: Work, c: Cell, source: nat, todo: seq<Cell>)
    requires Lossy(GRID, m) && todo != [] && InvOwing(m, w, c, source, todo)
    ensures InvOwing(m, Offer(m, w, source, todo[0]), c, source, todo[1..])
  {
    var n := todo[0];
    var w' := Offer(m, w, source, n);
    assert forall d :: d in todo ==> d == n || d in todo[1..];
    assert n != c;
    OfferFrame(m, w, source, n);
    if w' != w {
      StepReaches(GRID, m, c, n, source);
      forall d | Within(GRID, d) && d != c
        ensures d in w'.queue || Settled(GRID, m, Field(w'.light), d)
      {
        if d != n && Settled(GRID, m, Field(w.light), d) {
          assert forall e :: Within(GRID, e) && Adjacent(d, e) ==>
              Field(w.light)(d) - m.loss(e) <= Field(w.light)(e) <= Field(w'.light)(e);
        }
      }
    }
  }

  lemma {:induction false} OfferAllSettles(m: Medium, w: Work, c: Cell, source: nat, todo: seq<Cell>)
    requires Lossy(GRID, m) && InvOwing(m, w, c, source, todo)
    ensures InvOwing(m, OfferAll(m, w, source, todo), c, source, [])
    decreases |todo|
  {
    if todo != [] {
      OfferKeepsOwing(m, w, c, source, todo);
      OfferAllSettles(m, Offer(m, w, source, todo[0]), c, source, todo[1..]);
    }
  }

  lemma OwingNothing(m: Medium, w: Work, c: Cell, source: nat)
    requires InvOwing(m, w, c, source, [])
    ensures Inv(m, w)
  {
  }

  lemma StepKeepsInv(m: Medium, w: Work, i: nat)
    requires Lossy(GRID, m) && Inv(m, w) && i < |w.queue|
    ensures Inv(m, Step(m, w, i))
  {
    var c := w.queue[i];
    var rest := Work(w.light, Without(w.queue, i));
    var source := w.light[Index(c)];
    if source <= 1 {
      assert Settled(GRID, m, Field(w.light), c);
    } else {
      assert InvOwing(m, rest, c, source, Neighbors(c));
      OfferAllSettles(m, rest, c, source, Neighbors(c));
      OwingNothing(m, OfferAll(m, rest, source, Neighbors(c)), c, source);
    }
  }

  // ----- every step brightens the grid or shortens the queue

  lemma {:induction false} OfferAllProgress(m: Medium, w: Work, source: nat, ns: seq<Cell>)
    requires |w.light| == VOLUME && source <= MAX_LIGHT && forall n :: n in ns ==> Within(GRID, n)
    ensures var w' := OfferAll(m, w, source, ns);
            Headroom(w'.light) < Headroom(w.light) || w' == w
    decreases |ns|
  {
    if ns != [] {
      var next := Offer(m, w, source, ns[0]);
      if next != w {
        BrighteningUsesHeadroom(w.light, Index(ns[0]), SaturatingSub(source, m.loss(ns[0])));
      }
      OfferAllProgress(m, next, source, ns[1..]);
    }
  }

  lemma StepProgress(m: Medium, w: Work, i: nat)
    requires Inv(m, w) && i < |w.queue|
    ensures var w' := Step(m, w, i);
            Headroom(w'.light) < Headroom(w.light) || (w'.light == w.light && |w'.queue| < |w.queue|)
  {
    var c := w.queue[i];
    if w.light[Index(c)] > 1 {
      OfferAllProgress(m, Work(w.light, Without(w.queue, i)), w.light[Index(c)], Neighbors(c));
    }
  }

  // ----- whole runs

  lemma DoneIsLight(m: Medium, w: Work, c: Cell)
    requires Inv(m, w) && w.queue == [] && Within(GRID, c)
    ensures IsLight(GRID, m, c, w.light[Index(c)])
  {
    forall p | PathTo(GRID, p, c)
      ensures Delivered(m, p) <= w.light[Index(c)]
    {
      SettledFieldBounds(GRID, m, Field(w.light), p);
    }
  }

  /** Runs to an empty queue, letting `pick` choose which cell each step takes. */
  ghost function Run(m: Medium, w: Work, pick: Work -> nat): (done: Work)
    requires Lossy(GRID, m) && Inv(m, w)
    ensures Inv(m, done) && done.queue == []
    decreases Headroom(w.light), |w.queue|
  {
    if w.queue == [] then w
    else
      var i := pick(w) % |w.queue|;
      StepKeepsInv(m, w, i);
      StepProgress(m, w, i);
      Run(m, Step(m, w, i), pick)
  }

  /** Whatever order the queue is served in, from whatever start with these seeds, the light is
      the same in every cell. */
  lemma OrderDoesNotMatter(m: Medium, w: Work, pick: Work -> nat, w': Work, pick': Work -> nat)
    requires Lossy(GRID, m) && Inv(m, w) && Inv(m, w')
    ensures Run(m, w, pick).light == Run(m, w', pick').light
  {
    var a, b := Run(m, w, pick), Run(m, w', pick');
    forall i | 0 <= i < VOLUME
      ensures a.light[i] == b.light[i]
    {
      var c := CellAt(i);
      DoneIsLight(m, a, c);
      DoneIsLight(m, b, c);
      LightIsUnique(GRID, m, c, a.light[i], b.light[i]);
    }
  }
}
