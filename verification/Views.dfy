/** Square chunk views around a centre, saturating at the ends of the coordinate range, and the
    transition from one view to another. */
module Views {
  import opened Coordinates
  import opened Options

  predicate ViewContains(center: Coord, radius: i32, p: Coord) {
    && Saturate(center.x - radius) <= p.x <= Saturate(center.x + radius)
    && Saturate(center.z - radius) <= p.z <= Saturate(center.z + radius)
  }

  /** Saturating edges make no difference: the view is what lies within the radius along both axes. */
  lemma ViewIsDistance(center: Coord, radius: i32, p: Coord)
    ensures ViewContains(center, radius, p) <==>
              center.x - radius <= p.x <= center.x + radius && center.z - radius <= p.z <= center.z + radius
  {
  }

  /** Coordinates x0..=x1 of row `z`, then the rows below it up to `z1`. */
  function Rows(x: int, x0: i32, x1: i32, z: int, z1: i32): (s: seq<Coord>)
    requires x0 <= x <= x1 + 1 && I32_MIN <= z
    decreases z1 - z, x1 - x
  {
    if z > z1 || x0 > x1 then []
    else if x > x1 then Rows(x0, x0, x1, z + 1, z1)
    else [Coord(x, z)] + Rows(x + 1, x0, x1, z, z1)
  }

  /** The view of a centre and radius, x advancing first, then z; empty for a negative radius. */
  function Square(center: Coord, radius: i32): seq<Coord> {
    var x0, x1 := Saturate(center.x - radius), Saturate(center.x + radius);
    if x0 > x1 then [] else Rows(x0, x0, x1, Saturate(center.z - radius), Saturate(center.z + radius))
  }

  function Flip(p: Coord): Coord {
    Coord(p.z, p.x)
  }

  function FlipAll(s: seq<Coord>): (r: seq<Coord>)
    ensures |r| == |s| && forall i :: 0 <= i < |s| ==> r[i] == Flip(s[i])
  {
    seq(|s|, i requires 0 <= i < |s| => Flip(s[i]))
  }

  /** The order in which an initial view is sent: z advancing first, then x. */
  function SendOrder(center: Coord, radius: i32): seq<Coord> {
    FlipAll(Square(Flip(center), radius))
  }

  ghost predicate Distinct(s: seq<Coord>) {
    forall i, j :: 0 <= i < j < |s| ==> s[i] != s[j]
  }

  function Members(s: seq<Coord>): (m: set<Coord>)
    ensures forall p :: p in m <==> p in s
  {
    set p | p in s
  }

  predicate Before(p: Coord, x: int, z: int) {
    p.z < z || (p.z == z && p.x < x)
  }

  lemma FirstComesNext(x: i32, z: i32)
    ensures Before(Coord(x, z), x + 1, z)
    ensures forall p :: !Before(p, x, z) <==> p == Coord(x, z) || !Before(p, x + 1, z)
  {
  }

  lemma {:induction false} RowsMembers(x: int, x0: i32, x1: i32, z: int, z1: i32)
    requires x0 <= x <= x1 + 1 && I32_MIN <= z
    ensures forall p :: p in Rows(x, x0, x1, z, z1) <==> x0 <= p.x <= x1 && p.z <= z1 && !Before(p, x, z)
    decreases z1 - z, x1 - x
  {
    if z > z1 || x0 > x1 {
    } else if x > x1 {
      RowsMembers(x0, x0, x1, z + 1, z1);
    } else {
      RowsMembers(x + 1, x0, x1, z, z1);
      FirstComesNext(x, z);
    }
  }

  /** Each position comes before every later one, x advancing first. */
  ghost predicate RowOrder(s: seq<Coord>) {
    forall i, j :: 0 <= i < j < |s| ==> Before(s[i], s[j].x, s[j].z)
  }

  lemma {:induction false} RowsAreOrdered(x: int, x0: i32, x1: i32, z: int, z1: i32)
    requires x0 <= x <= x1 + 1 && I32_MIN <= z
    ensures RowOrder(Rows(x, x0, x1, z, z1))
    decreases z1 - z, x1 - x
  {
    if z > z1 || x0 > x1 {
    } else if x > x1 {
      RowsAreOrdered(x0, x0, x1, z + 1, z1);
    } else {
      RowsAreOrdered(x + 1, x0, x1, z, z1);
      RowsMembers(x + 1, x0, x1, z, z1);
      PrependOrder(Coord(x, z), Rows(x + 1, x0, x1, z, z1));
    }
  }

  lemma PrependOrder(first: Coord, rest: seq<Coord>)
    requires RowOrder(rest) && forall p :: p in rest ==> !Before(p, first.x + 1, first.z)
    ensures RowOrder([first] + rest)
  {
    var all := [first] + rest;
    forall i, j | 0 <= i < j < |all|
      ensures Before(all[i], all[j].x, all[j].z)
    {
      assert all[j] == rest[j - 1] && rest[j - 1] in rest;
      if i > 0 {
        assert all[i] == rest[i - 1];
      }
    }
  }

  /** Rows lists exactly the coordinates from (x, z) on, each once. */
  lemma RowsListThemAll(x: int, x0: i32, x1: i32, z: int, z1: i32)
    requires x0 <= x <= x1 + 1 && I32_MIN <= z
    ensures forall p :: p in Rows(x, x0, x1, z, z1) <==> x0 <= p.x <= x1 && p.z <= z1 && !Before(p, x, z)
    ensures Distinct(Rows(x, x0, x1, z, z1))
  {
    RowsMembers(x, x0, x1, z, z1);
    RowsAreOrdered(x, x0, x1, z, z1);
  }

  /** Chunks are listed with x advancing first, and sent with z advancing first. */
  lemma ListingOrders(center: Coord, radius: i32)
    ensures RowOrder(Square(center, radius)) && RowOrder(FlipAll(SendOrder(center, radius)))
  {
    var x0, x1 := Saturate(center.x - radius), Saturate(center.x + radius);
    var z0, z1 := Saturate(center.z - radius), Saturate(center.z + radius);
    if x0 <= x1 {
      RowsAreOrdered(x0, x0, x1, z0, z1);
    }
    if z0 <= z1 {
      RowsAreOrdered(z0, z0, z1, x0, x1);
    }
    assert FlipAll(SendOrder(center, radius)) == Square(Flip(center), radius);
  }

  lemma SquareIsView(center: Coord, radius: i32)
    ensures Distinct(Square(center, radius))
    ensures forall p :: p in Square(center, radius) <==> ViewContains(center, radius, p)
    ensures Square(center, radius) == [] <==> radius < 0
  {
    var x0, x1 := Saturate(center.x - radius), Saturate(center.x + radius);
    if x0 <= x1 {
      RowsListThemAll(x0, x0, x1, Saturate(center.z - radius), Saturate(center.z + radius));
      if radius >= 0 {
        assert center in Square(center, radius);
      }
    }
  }

  lemma SendOrderIsView(center: Coord, radius: i32)
    ensures Distinct(SendOrder(center, radius))
    ensures Members(SendOrder(center, radius)) == Members(Square(center, radius))
    ensures |SendOrder(center, radius)| == |Square(center, radius)|
  {
    SquareIsView(center, radius);
    SquareIsView(Flip(center), radius);
    var flipped, sent := Square(Flip(center), radius), SendOrder(center, radius);
    forall p
      ensures p in sent <==> p in Square(center, radius)
    {
      assert p in sent <==> Flip(p) in flipped by {
        if Flip(p) in flipped {
          var i :| 0 <= i < |flipped| && flipped[i] == Flip(p);
          assert sent[i] == p;
        }
      }
    }
    DistinctSize(sent);
    DistinctSize(Square(center, radius));
    assert Members(sent) == Members(Square(center, radius));
  }

  lemma {:induction false} DistinctSize(s: seq<Coord>)
    requires Distinct(s)
    ensures |Members(s)| == |s|
  {
    if s != [] {
      var rest := s[1..];
      DistinctSize(rest);
      assert Members(s) == Members(rest) + {s[0]};
      assert s[0] !in Members(rest);
    }
  }

  function Outside(s: seq<Coord>, center: Coord, radius: i32): (r: seq<Coord>) {
    if s == [] then []
    else
      var last := s[|s| - 1];
      Outside(s[..|s| - 1], center, radius) + if ViewContains(center, radius, last) then [] else [last]
  }

  lemma {:induction false} OutsideMembers(s: seq<Coord>, center: Coord, radius: i32)
    ensures forall p :: p in Outside(s, center, radius) <==> p in s && !ViewContains(center, radius, p)
  {
    if s != [] {
      OutsideMembers(s[..|s| - 1], center, radius);
      assert s == s[..|s| - 1] + [s[|s| - 1]];
    }
  }

  lemma {:induction false} OutsideDistinct(s: seq<Coord>, center: Coord, radius: i32)
    requires Distinct(s)
    ensures Distinct(Outside(s, center, radius))
  {
    if s != [] {
      OutsideDistinct(s[..|s| - 1], center, radius);
      OutsideMembers(s[..|s| - 1], center, radius);
      assert s[|s| - 1] !in s[..|s| - 1];
    }
  }

  /** The streaming order: a stable sort by a priority, which the program takes from the player's
      distance in floating point. */
  function SortBy(s: seq<Coord>, priority: Coord -> int): seq<Coord> {
    if s == [] then [] else InsertBy(SortBy(s[..|s| - 1], priority), s[|s| - 1], priority)
  }

  function InsertBy(s: seq<Coord>, p: Coord, priority: Coord -> int): seq<Coord> {
    if s == [] || priority(s[|s| - 1]) <= priority(p) then s + [p]
    else InsertBy(s[..|s| - 1], p, priority) + [s[|s| - 1]]
  }

  lemma {:induction false} InsertAdds(s: seq<Coord>, p: Coord, priority: Coord -> int)
    ensures multiset(InsertBy(s, p, priority)) == multiset(s) + multiset{p}
  {
    if s != [] {
      InsertAdds(s[..|s| - 1], p, priority);
      assert s == s[..|s| - 1] + [s[|s| - 1]];
    }
  }

  lemma {:induction false} SortReorders(s: seq<Coord>, priority: Coord -> int)
    ensures multiset(SortBy(s, priority)) == multiset(s)
  {
    if s != [] {
      var init, last := s[..|s| - 1], s[|s| - 1];
      SortReorders(init, priority);
      InsertAdds(SortBy(init, priority), last, priority);
      assert SortBy(s, priority) == InsertBy(SortBy(init, priority), last, priority);
      assert s == init + [last];
    }
  }

  ghost predicate Ordered(s: seq<Coord>, priority: Coord -> int) {
    forall i, j :: 0 <= i < j < |s| ==> priority(s[i]) <= priority(s[j])
  }

  lemma {:induction false} InsertKeepsOrder(s: seq<Coord>, p: Coord, priority: Coord -> int)
    requires Ordered(s, priority)
    ensures Ordered(InsertBy(s, p, priority), priority)
    ensures forall q :: q in InsertBy(s, p, priority) ==> q in s || q == p
  {
    if s != [] && priority(s[|s| - 1]) > priority(p) {
      var init, last := s[..|s| - 1], s[|s| - 1];
      InsertKeepsOrder(init, p, priority);
      forall q | q in InsertBy(init, p, priority)
        ensures priority(q) <= priority(last)
      {
        if q in init {
          var i :| 0 <= i < |init| && init[i] == q;
        }
      }
    }
  }

  lemma {:induction false} SortOrders(s: seq<Coord>, priority: Coord -> int)
    ensures Ordered(SortBy(s, priority), priority)
  {
    if s != [] {
      SortOrders(s[..|s| - 1], priority);
      InsertKeepsOrder(SortBy(s[..|s| - 1], priority), s[|s| - 1], priority);
    }
  }

  /** The positions of one priority, in order. */
  function Among(s: seq<Coord>, priority: Coord -> int, level: int): seq<Coord> {
    if s == [] then []
    else Among(s[..|s| - 1], priority, level) + if priority(s[|s| - 1]) == level then [s[|s| - 1]] else []
  }

  lemma {:induction false} InsertIsStable(s: seq<Coord>, p: Coord, priority: Coord -> int, level: int)
    requires Ordered(s, priority)
    ensures Among(InsertBy(s, p, priority), priority, level)
         == Among(s, priority, level) + if priority(p) == level then [p] else []
  {
    if s == [] || priority(s[|s| - 1]) <= priority(p) {
      assert (s + [p])[..|s|] == s;
    } else {
      var init, last := s[..|s| - 1], s[|s| - 1];
      var inserted := InsertBy(init, p, priority);
      InsertIsStable(init, p, priority, level);
      assert (inserted + [last])[..|inserted|] == inserted;
    }
  }

  /** Positions of equal priority keep their order. */
  lemma {:induction false} SortIsStable(s: seq<Coord>, priority: Coord -> int, level: int)
    ensures Among(SortBy(s, priority), priority, level) == Among(s, priority, level)
  {
    if s != [] {
      var init, last := s[..|s| - 1], s[|s| - 1];
      SortIsStable(init, priority, level);
      SortOrders(init, priority);
      InsertIsStable(SortBy(init, priority), last, priority, level);
    }
  }

  datatype Transition = Transition(fromCenter: Coord, toCenter: Coord, fromRadius: i32, toRadius: i32,
                                   entering: seq<Coord>, leaving: seq<Coord>)

  function ViewTransition(fromCenter: Coord, fromRadius: i32, toCenter: Coord, toRadius: i32): Option<Transition> {
    if fromCenter == toCenter && fromRadius == toRadius then None
    else Some(Transition(fromCenter, toCenter, fromRadius, toRadius,
                         Outside(Square(toCenter, toRadius), fromCenter, fromRadius),
                         Outside(Square(fromCenter, fromRadius), toCenter, toRadius)))
  }

  /** Dropping what leaves and adding what enters turns the old view into the new one, with
      nothing dropped or added twice. */
  lemma TransitionIsExact(fromCenter: Coord, fromRadius: i32, toCenter: Coord, toRadius: i32)
    ensures var entering := Outside(Square(toCenter, toRadius), fromCenter, fromRadius);
            var leaving := Outside(Square(fromCenter, fromRadius), toCenter, toRadius);
            && Distinct(entering) && Distinct(leaving)
            && Members(leaving) <= Members(Square(fromCenter, fromRadius))
            && Members(entering) !! Members(Square(fromCenter, fromRadius))
            && Members(Square(fromCenter, fromRadius)) - Members(leaving) + Members(entering)
               == Members(Square(toCenter, toRadius))
  {
    SquareIsView(fromCenter, fromRadius);
    SquareIsView(toCenter, toRadius);
    OutsideDistinct(Square(toCenter, toRadius), fromCenter, fromRadius);
    OutsideMembers(Square(toCenter, toRadius), fromCenter, fromRadius);
    OutsideDistinct(Square(fromCenter, fromRadius), toCenter, toRadius);
    OutsideMembers(Square(fromCenter, fromRadius), toCenter, toRadius);
  }

  // ----- the program's loops

  lemma RowAppends(done: seq<Coord>, x: int, x0: i32, x1: i32, z: int, z1: i32)
    requires x0 <= x <= x1 && I32_MIN <= z <= z1
    ensures done + Rows(x, x0, x1, z, z1) == done + [Coord(x, z)] + Rows(x + 1, x0, x1, z, z1)
  {
    assert Rows(x, x0, x1, z, z1) == [Coord(x, z)] + Rows(x + 1, x0, x1, z, z1);
  }

  lemma RowEnds(x0: i32, x1: i32, z: int, z1: i32)
    requires x0 <= x1 && I32_MIN <= z <= z1
    ensures Rows(x1 + 1, x0, x1, z, z1) == Rows(x0, x0, x1, z + 1, z1)
  {
  }

  method ViewPositions(center: Coord, radius: i32) returns (positions: seq<Coord>)
    ensures positions == Square(center, radius)
  {
    var minX, maxX := Saturate(center.x - radius), Saturate(center.x + radius);
    var minZ, maxZ := Saturate(center.z - radius), Saturate(center.z + radius);
    positions := [];
    var z: int := minZ;
    ghost var goal := Square(center, radius);
    while z <= maxZ
      invariant minZ <= z
      invariant minX <= maxX ==> positions + Rows(minX, minX, maxX, z, maxZ) == goal
      invariant minX > maxX ==> positions == []
    {
      var x: int := minX;
      while x <= maxX
        invariant minX <= x
        invariant minX <= maxX ==> x <= maxX + 1 && positions + Rows(x, minX, maxX, z, maxZ) == goal
        invariant minX > maxX ==> positions == []
      {
        RowAppends(positions, x, minX, maxX, z, maxZ);
        positions := positions + [Coord(x, z)];
        x := x + 1;
      }
      if minX <= maxX {
        RowEnds(minX, maxX, z, maxZ);
      }
      z := z + 1;
    }
  }

  lemma FlipAllJoins(a: seq<Coord>, b: seq<Coord>)
    ensures FlipAll(a + b) == FlipAll(a) + FlipAll(b)
  {
  }

  method InitialSendPositions(center: Coord, radius: i32) returns (positions: seq<Coord>)
    ensures positions == SendOrder(center, radius)
  {
    var minX, maxX := Saturate(center.x - radius), Saturate(center.x + radius);
    var minZ, maxZ := Saturate(center.z - radius), Saturate(center.z + radius);
    positions := [];
    var x: int := minX;
    ghost var goal, flipped := Square(Flip(center), radius), [];
    while x <= maxX
      invariant minX <= x && positions == FlipAll(flipped)
      invariant minZ <= maxZ ==> flipped + Rows(minZ, minZ, maxZ, x, maxX) == goal
      invariant minZ > maxZ ==> flipped == []
    {
      var z: int := minZ;
      while z <= maxZ
        invariant minZ <= z && positions == FlipAll(flipped)
        invariant minZ <= maxZ ==> z <= maxZ + 1 && flipped + Rows(z, minZ, maxZ, x, maxX) == goal
        invariant minZ > maxZ ==> flipped == []
      {
        RowAppends(flipped, z, minZ, maxZ, x, maxX);
        FlipAllJoins(flipped, [Coord(z, x)]);
        positions := positions + [Coord(x, z)];
        flipped := flipped + [Coord(z, x)];
        z := z + 1;
      }
      if minZ <= maxZ {
        RowEnds(minZ, maxZ, x, maxX);
      }
      x := x + 1;
    }
    assert flipped == goal;
  }

  method KeepOutside(positions: seq<Coord>, center: Coord, radius: i32) returns (kept: seq<Coord>)
    ensures kept == Outside(positions, center, radius)
  {
    kept := [];
    for i := 0 to |positions|
      invariant kept == Outside(positions[..i], center, radius)
    {
      assert positions[..i + 1][..i] == positions[..i];
      if !ViewContains(center, radius, positions[i]) {
        kept := kept + [positions[i]];
      }
    }
    assert positions[..|positions|] == positions;
  }

  method ChunkViewTransition(fromCenter: Coord, fromRadius: i32, toCenter: Coord, toRadius: i32)
    returns (r: Option<Transition>)
    ensures r == ViewTransition(fromCenter, fromRadius, toCenter, toRadius)
  {
    if fromCenter == toCenter && fromRadius == toRadius {
      return None;
    }
    var to := ViewPositions(toCenter, toRadius);
    var entering := KeepOutside(to, fromCenter, fromRadius);
    var from := ViewPositions(fromCenter, fromRadius);
    var leaving := KeepOutside(from, toCenter, toRadius);
    return Some(Transition(fromCenter, toCenter, fromRadius, toRadius, entering, leaving));
  }
}
