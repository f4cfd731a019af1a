/** Bitwise masking of ring indices: `i & (size - 1)` is `i % size` when size is a power of two. */
module Bits {
  function Pow2(k: nat): (r: nat)
    ensures r >= 1
  {
    if k == 0 then 1 else 2 * Pow2(k - 1)
  }

  ghost predicate IsPow2(n: int) {
    exists k: nat :: n == Pow2(k)
  }

  /** The C operator & on naturals, one binary digit at a time. */
  function And(x: nat, y: nat): nat {
    if x == 0 || y == 0 then 0
    else 2 * And(x / 2, y / 2) + (if x % 2 == 1 && y % 2 == 1 then 1 else 0)
  }

  lemma {:induction false} MaskIsRemainder(x: nat, k: nat)
    ensures And(x, Pow2(k) - 1) == x % Pow2(k)
    decreases k
  {
    hide And;
    if k == 0 {
      AndZero(x);
    } else {
      var half := Pow2(k - 1);
      MaskIsRemainder(x / 2, k - 1);
      AndOdd(x, half);
      DoubleRemainder(x, half);
    }
  }

  lemma AndZero(x: nat)
    ensures And(x, 0) == 0
  {
  }

  lemma AndOdd(x: nat, half: nat)
    requires half > 0
    ensures And(x, 2 * half - 1) == 2 * And(x / 2, half - 1) + x % 2
  {
    assert (2 * half - 1) / 2 == half - 1 && (2 * half - 1) % 2 == 1;
  }

  lemma DoubleRemainder(x: nat, half: nat)
    requires half > 0
    ensures x % (2 * half) == 2 * ((x / 2) % half) + x % 2
  {
    var q, r := (x / 2) / half, (x / 2) % half;
    assert x == 2 * (q * half + r) + x % 2;
    assert x == q * (2 * half) + (2 * r + x % 2);
    RemainderUnique(x, 2 * half, q, 2 * r + x % 2);
  }

  lemma RemainderUnique(x: nat, d: nat, q: nat, r: nat)
    requires r < d && x == q * d + r
    ensures x % d == r
  {
    var q', r' := x / d, x % d;
    assert x == q' * d + r' && 0 <= r' < d;
    SmallMultiple(q' - q, d, r - r') by { assert (q' - q) * d == q' * d - q * d; }
  }

  lemma SmallMultiple(m: int, d: nat, diff: int)
    requires d > 0 && m * d == diff && 0 < diff + d && diff < d
    ensures diff == 0
  {
    if m >= 1 { AtLeastOnce(m, d); }
    if m <= -1 { AtLeastOnce(-m, d); }
  }

  lemma AtLeastOnce(m: int, d: nat)
    requires m >= 1
    ensures m * d >= d
  {
    assert m * d == d + (m - 1) * d;
  }

  /** The masked successor or offset of an index: at most one turn round the ring. */
  function Masked(i: nat, size: nat): (r: nat)
    requires size > 0
  {
    And(i, size - 1)
  }

  lemma MaskedTurn(i: nat, size: nat)
    requires IsPow2(size) && size > 0 && i < 2 * size
    ensures Masked(i, size) == if i < size then i else i - size
  {
    var k: nat :| size == Pow2(k);
    MaskIsRemainder(i, k);
    if i < size { RemainderUnique(i, size, 0, i); } else { RemainderUnique(i, size, 1, i - size); }
  }
}
