/** The wrap-around of Go's 64-bit integers. */
module Int64 {
  const TWO63: int := 0x8000_0000_0000_0000
  const TWO64: int := 0x1_0000_0000_0000_0000
  const MAX64: int := TWO63 - 1

  predicate Fits64(x: int) {
    -TWO63 <= x <= MAX64
  }

  function Wrap64(x: int): int {
    (x + TWO63) % TWO64 - TWO63
  }

  lemma WrapIsExactIff(x: int)
    ensures Fits64(Wrap64(x))
    ensures Wrap64(x) == x <==> Fits64(x)
  {
  }

  /** Numbers that differ by a multiple of 2^64 wrap to the same one. */
  lemma WrapsAlike(x: int, y: int, k: int)
    requires x == y + k * TWO64
    ensures Wrap64(x) == Wrap64(y)
  {
    var m := (y + TWO63) / TWO64;
    var r := (y + TWO63) % TWO64;
    assert y + TWO63 == m * TWO64 + r;
    assert x + TWO63 == (m + k) * TWO64 + r;
  }

  /** Wrapping an operand changes nothing in a wrapped sum or difference. */
  lemma WrapAbsorbs(x: int, y: int)
    ensures Wrap64(Wrap64(x) + y) == Wrap64(x + y) && Wrap64(y - Wrap64(x)) == Wrap64(y - x)
  {
    var m := (x + TWO63) / TWO64;
    assert x == Wrap64(x) + m * TWO64;
    WrapsAlike(x + y, Wrap64(x) + y, m);
    WrapsAlike(y - x, y - Wrap64(x), -m);
  }

  /** The opposite of a number wraps to nothing positive exactly when the number is in the lower half of its turn. */
  lemma OppositeWraps(x: int)
    ensures Wrap64(-x) <= 0 <==> x % TWO64 <= TWO63
  {
    var turns, rest := x / TWO64, x % TWO64;
    assert x == turns * TWO64 + rest;
    WrapsAlike(-x, -rest, -turns);
  }
}
