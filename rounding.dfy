/** Bin rounding of a fragment midpoint (`roundPosition`). */
module Rounding {

  /** The multiple of `binSize` a midpoint is binned to: unchanged when it
      already is one, down when the remainder is below `binSize / 2`, up
      otherwise (so a remainder of exactly `binSize / 2` rounds up). */
  function RoundPosition(x: int, binSize: int): (r: int)
    requires 0 <= x && 0 < binSize
    ensures x - binSize / 2 <= r <= x + (binSize - binSize / 2)
    ensures 2 <= binSize ==> x - binSize / 2 < r
    ensures binSize == 1 ==> r == x
    ensures 0 <= r
  {
    var half := binSize / 2;
    var remainder := x % binSize;
    if remainder == 0 then x
    else if remainder < half then x - remainder
    else x + binSize - remainder
  }

  lemma {:induction false} MulAtLeast(k: int, b: int)
    requires 1 <= k && 0 < b
    ensures k * b >= b
    decreases k
  {
    if k > 1 {
      MulAtLeast(k - 1, b);
      assert k * b == (k - 1) * b + b;
    }
  }

  lemma SmallMultipleIsZero(k: int, b: int)
    requires 0 < b && -b < k * b < b
    ensures k == 0
  {
    if k >= 1 {
      MulAtLeast(k, b);
    } else if k <= -1 {
      assert (-k) * b == -(k * b);
      MulAtLeast(-k, b);
    }
  }

  lemma MultipleOfMod(q: int, b: int)
    requires 0 < b
    ensures (q * b) % b == 0
  {
    var m := (q * b) % b;
    var d := (q * b) / b;
    assert q * b == d * b + m;
    assert (q - d) * b == m;
    SmallMultipleIsZero(q - d, b);
  }

  /** The result is always a multiple of the bin size. */
  lemma RoundPositionIsMultiple(x: int, binSize: int)
    requires 0 <= x && 0 < binSize
    ensures RoundPosition(x, binSize) % binSize == 0
  {
    var q := x / binSize;
    var remainder := x % binSize;
    assert x == q * binSize + remainder;
    if remainder == 0 {
    } else if remainder < binSize / 2 {
      assert x - remainder == q * binSize;
      MultipleOfMod(q, binSize);
    } else {
      assert x + binSize - remainder == (q + 1) * binSize;
      MultipleOfMod(q + 1, binSize);
    }
  }

  /** Two multiples of `b` less than `b` apart are equal. */
  lemma CloseMultiplesEqual(m: int, n: int, b: int)
    requires 0 < b && m % b == 0 && n % b == 0
    requires m - b < n < m + b
    ensures m == n
  {
    var p, q := m / b, n / b;
    assert m == p * b && n == q * b;
    assert (p - q) * b == m - n;
    SmallMultipleIsZero(p - q, b);
  }

  /** For a bin size of at least 2, the result is the one multiple of the
      bin size in the window `(x - binSize/2, x + binSize - binSize/2]`.
      For an even bin size that is the nearest multiple, a tie going up;
      for an odd one see `RoundPositionOddHalfGoesFarther`. */
  lemma RoundPositionUnique(x: int, binSize: int, m: int)
    requires 0 <= x && 2 <= binSize
    requires m % binSize == 0
    requires x - binSize / 2 < m <= x + (binSize - binSize / 2)
    ensures m == RoundPosition(x, binSize)
  {
    var r := RoundPosition(x, binSize);
    RoundPositionIsMultiple(x, binSize);
    assert x - binSize / 2 < r;
    CloseMultiplesEqual(m, r, binSize);
  }

  /** A remainder of exactly half the bin size rounds up. */
  lemma RoundPositionTieRoundsUp(x: int, binSize: int)
    requires 0 <= x && 2 <= binSize && x % binSize == binSize / 2
    ensures RoundPosition(x, binSize) == x + (binSize - binSize / 2)
    ensures RoundPosition(x, binSize) > x
  {
  }

  /** With an odd bin size, a remainder of `binSize / 2` (rounded down)
      still rounds up, although the multiple below is nearer. */
  lemma RoundPositionOddHalfGoesFarther(x: int, binSize: int)
    requires 0 <= x && 3 <= binSize && binSize % 2 == 1 && x % binSize == binSize / 2
    ensures (x - x % binSize) % binSize == 0 && 0 <= x - x % binSize
    ensures RoundPosition(x, binSize) - x > x - (x - x % binSize)
  {
    assert x - x % binSize == binSize * (x / binSize);
    MultipleOfMod(x / binSize, binSize);
  }

  /** A position already on a bin boundary stays where it is, so rounding
      an already rounded value changes nothing. */
  lemma RoundPositionIdempotent(x: int, binSize: int)
    requires 0 <= x && 0 < binSize
    ensures x % binSize == 0 ==> RoundPosition(x, binSize) == x
    ensures RoundPosition(RoundPosition(x, binSize), binSize) == RoundPosition(x, binSize)
  {
    RoundPositionIsMultiple(x, binSize);
  }

  /** The behaviour with the default bin size of 50, and with odd bin
      sizes, where half a bin rounded down still goes up: 1 to 3 with bin
      size 3, and 25 to 51 with bin size 51. */
  lemma RoundPositionExamples()
    ensures RoundPosition(1, 3) == 3
    ensures RoundPosition(25, 51) == 51
    ensures RoundPosition(124, 50) == 100
    ensures RoundPosition(125, 50) == 150
    ensures RoundPosition(126, 50) == 150
    ensures RoundPosition(100, 50) == 100
    ensures RoundPosition(0, 50) == 0
  {
  }
}
