/** Two's-complement 64-bit arithmetic, as Go's int, int64 and time.Duration behave. */
module Int64 {
  const MIN: int := -0x8000_0000_0000_0000
  const MAX: int := 0x7FFF_FFFF_FFFF_FFFF
  const SPAN: int := 0x1_0000_0000_0000_0000

  predicate Fits(x: int) { MIN <= x <= MAX }

  function Wrap(x: int): (r: int)
    ensures Fits(r)
    ensures Fits(x) ==> r == x
  {
    (x - MIN) % SPAN + MIN
  }

  /** Wrapping moves a number by a whole number of spans. */
  lemma WrapMoves(x: int)
    ensures x == Wrap(x) + (x - Wrap(x)) / SPAN * SPAN
  {
  }

  lemma WrapUnique(x: int, y: int, k: int)
    requires x == y + k * SPAN
    ensures Wrap(x) == Wrap(y)
  {
    assert (x - MIN) == (y - MIN) + k * SPAN;
  }

  /** Reducing an operand early does not change a reduced sum. */
  lemma WrapSum(x: int, y: int)
    ensures Wrap(Wrap(x) + y) == Wrap(x + y)
    ensures Wrap(x + Wrap(y)) == Wrap(x + y)
  {
    hide Wrap;
    WrapMoves(x);
    WrapMoves(y);
    WrapUnique(x + y, Wrap(x) + y, (x - Wrap(x)) / SPAN);
    WrapUnique(x + y, x + Wrap(y), (y - Wrap(y)) / SPAN);
  }
}
