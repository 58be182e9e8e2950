/** Chunk coordinates are 32-bit signed integers, wrapping or saturating as each use says. */
module Coordinates {

  type i32 = n: int | -0x8000_0000 <= n < 0x8000_0000

  const I32_MIN: i32 := -0x8000_0000
  const I32_MAX: i32 := 0x7fff_ffff

  datatype Coord = Coord(x: i32, z: i32)

  function Wrap(n: int): (w: i32)
    ensures -0x8000_0000 <= n < 0x8000_0000 ==> w == n
  {
    (n + 0x8000_0000) % 0x1_0000_0000 - 0x8000_0000
  }

  function Saturate(n: int): i32 {
    if n < I32_MIN then I32_MIN else if n > I32_MAX then I32_MAX else n
  }

  /** Wrapping addition is undone by wrapping subtraction. */
  lemma WrapUndo(base: int, d: i32)
    ensures Wrap(Wrap(base + d) - base) == d
  {
    var k := (base + d + 0x8000_0000) / 0x1_0000_0000;
    assert Wrap(base + d) - base == d - k * 0x1_0000_0000;
    WrapPeriodic(d, -k);
  }

  lemma WrapPeriodic(n: int, k: int)
    ensures Wrap(n + k * 0x1_0000_0000) == Wrap(n)
  {
  }

  /** Stepping away and back returns to the same coordinate, even across the wrap. */
  lemma WrapSteps(a: i32, d: i32)
    ensures Wrap(Wrap(a + d) - d) == a
  {
    var k := (a + d + 0x8000_0000) / 0x1_0000_0000;
    assert Wrap(a + d) - d == a - k * 0x1_0000_0000;
    WrapPeriodic(a, -k);
  }
}
