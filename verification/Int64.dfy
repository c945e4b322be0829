/** Go's int64: two's-complement wrap-around, truncating division and its remainder. */
module Int64 {
  const MAX: int := 0x7fff_ffff_ffff_ffff
  const MIN: int := -0x8000_0000_0000_0000
  const RANGE: int := 0x1_0000_0000_0000_0000

  predicate Fits(x: int) { MIN <= x <= MAX }

  /** The value left in an int64 by an exact result `x`. */
  function Wrap(x: int): (r: int)
    ensures Fits(r)
    ensures Fits(x) ==> r == x
  {
    (x - MIN) % RANGE + MIN
  }

  /** The wrapped value differs from the exact one by a whole number of ranges. */
  lemma WrapMultiple(x: int)
    ensures x - Wrap(x) == (x - MIN) / RANGE * RANGE
  {
  }

  lemma WrapShift(x: int, n: int)
    ensures Wrap(x + n * RANGE) == Wrap(x)
  {
    var y := x - MIN;
    var q, r := y / RANGE, y % RANGE;
    assert y + n * RANGE == (q + n) * RANGE + r;
  }

  /** Wrapping at every addition is wrapping once at the end. */
  lemma WrapAdd(a: int, b: int)
    ensures Wrap(Wrap(a) + b) == Wrap(a + b)
  {
    WrapMultiple(a);
    WrapShift(a + b, -((a - MIN) / RANGE));
  }

  function Abs(x: int): int { if x < 0 then -x else x }

  /** Go's `/`: truncation toward zero. */
  function Quot(a: int, b: int): int
    requires b != 0
  {
    var q := Abs(a) / Abs(b);
    if (a < 0) == (b < 0) then q else -q
  }

  /** Go's `%`: the remainder has the sign of the dividend. */
  function Rem(a: int, b: int): int
    requires b != 0
  {
    a - Quot(a, b) * b
  }
}
