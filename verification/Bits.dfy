/** The bitwise operators of C on unsigned words, written over the naturals, and what
    masking and field packing mean in terms of division and remainder. */
module Bits {

  /** x & y */
  function And(x: nat, y: nat): nat {
    if x == 0 || y == 0 then 0
    else 2 * And(x / 2, y / 2) + (if x % 2 == 1 && y % 2 == 1 then 1 else 0)
  }

  /** x | y */
  function Or(x: nat, y: nat): nat {
    if x == 0 then y
    else if y == 0 then x
    else 2 * Or(x / 2, y / 2) + (if x % 2 == 1 || y % 2 == 1 then 1 else 0)
  }

  /** x & ~y */
  function AndNot(x: nat, y: nat): nat {
    if x == 0 then 0
    else if y == 0 then x
    else 2 * AndNot(x / 2, y / 2) + (if x % 2 == 1 && y % 2 == 0 then 1 else 0)
  }

  /** Bit k of x. */
  predicate Bit(x: nat, k: nat) {
    if k == 0 then x % 2 == 1 else Bit(x / 2, k - 1)
  }

  function Pow2(n: nat): (p: nat)
    ensures p > 0
  {
    if n == 0 then 1 else 2 * Pow2(n - 1)
  }

  /** x >> n */
  function Shr(x: nat, n: nat): nat {
    if n == 0 then x else Shr(x / 2, n - 1)
  }

  /** The n low bits of x. */
  function Low(x: nat, n: nat): nat {
    if n == 0 then 0 else x % 2 + 2 * Low(x / 2, n - 1)
  }

  lemma BitZero(k: nat)
    ensures !Bit(0, k)
  {
    if k > 0 { BitZero(k - 1); }
  }

  lemma {:induction false} BitAnd(x: nat, y: nat, k: nat)
    ensures Bit(And(x, y), k) == (Bit(x, k) && Bit(y, k))
  {
    BitZero(k);
    if x != 0 && y != 0 && k > 0 { BitAnd(x / 2, y / 2, k - 1); }
  }

  lemma {:induction false} BitOr(x: nat, y: nat, k: nat)
    ensures Bit(Or(x, y), k) == (Bit(x, k) || Bit(y, k))
  {
    BitZero(k);
    if x != 0 && y != 0 && k > 0 { BitOr(x / 2, y / 2, k - 1); }
  }

  lemma {:induction false} BitAndNot(x: nat, y: nat, k: nat)
    ensures Bit(AndNot(x, y), k) == (Bit(x, k) && !Bit(y, k))
  {
    BitZero(k);
    if x != 0 && y != 0 && k > 0 { BitAndNot(x / 2, y / 2, k - 1); }
  }

  /** A single-bit mask has exactly that bit. */
  lemma {:induction false} BitPow2(j: nat, k: nat)
    ensures Bit(Pow2(j), k) == (j == k)
  {
    if j == 0 {
      if k > 0 { BitZero(k - 1); }
    } else if k > 0 {
      BitPow2(j - 1, k - 1);
    }
  }

  /** x & (1 << k) is non-zero exactly when bit k of x is set. */
  lemma {:induction false} TestBit(x: nat, k: nat)
    ensures And(x, Pow2(k)) != 0 <==> Bit(x, k)
  {
    BitZero(k);
    if x != 0 && k > 0 { TestBit(x / 2, k - 1); }
  }

  lemma {:induction false} ShrOr(x: nat, y: nat, n: nat)
    ensures Shr(Or(x, y), n) == Or(Shr(x, n), Shr(y, n))
  {
    if n > 0 { ShrOr(x / 2, y / 2, n - 1); }
  }

  lemma {:induction false} ShrAndNot(x: nat, y: nat, n: nat)
    ensures Shr(AndNot(x, y), n) == AndNot(Shr(x, n), Shr(y, n))
  {
    if n > 0 { ShrAndNot(x / 2, y / 2, n - 1); }
  }

  lemma OrStep(x: nat, y: nat)
    ensures Or(x, y) == 2 * Or(x / 2, y / 2) + (if x % 2 == 1 || y % 2 == 1 then 1 else 0)
  {
  }

  lemma {:induction false} LowOr(x: nat, y: nat, n: nat)
    ensures Low(Or(x, y), n) == Or(Low(x, n), Low(y, n))
  {
    if n > 0 {
      LowOr(x / 2, y / 2, n - 1);
      OrStep(x, y);
      OrStep(Low(x, n), Low(y, n));
      assert Low(x, n) / 2 == Low(x / 2, n - 1) && Low(y, n) / 2 == Low(y / 2, n - 1);
      assert Or(x, y) / 2 == Or(x / 2, y / 2);
    }
  }

  lemma {:induction false} LowAndNotOnes(x: nat, n: nat)
    ensures Low(AndNot(x, Pow2(n) - 1), n) == 0
  {
    if n > 0 { LowAndNotOnes(x / 2, n - 1); }
  }

  /** Masking with 2^n - 1 keeps the n low bits, that is, the remainder modulo 2^n. */
  lemma {:induction false} MaskIsLow(x: nat, n: nat)
    ensures And(x, Pow2(n) - 1) == Low(x, n)
  {
    if n > 0 { MaskIsLow(x / 2, n - 1); }
  }

  lemma {:induction false} LowIsMod(x: nat, n: nat)
    ensures Low(x, n) == x % Pow2(n)
  {
    if n > 0 {
      LowIsMod(x / 2, n - 1);
      ModOfDouble(x, Pow2(n - 1));
    }
  }

  lemma ModOfDouble(x: nat, m: nat)
    requires m > 0
    ensures x % (2 * m) == 2 * ((x / 2) % m) + x % 2
  {
    var q, r := (x / 2) / m, (x / 2) % m;
    DivideBack(x / 2, m);
    DoubleProduct(m, q);
    ModUnique(x, 2 * m, q, 2 * r + x % 2);
  }

  lemma DoubleProduct(m: nat, q: nat)
    ensures (2 * m) * q == 2 * (m * q)
  {
  }

  lemma DivideBack(x: nat, m: nat)
    requires m > 0
    ensures x == m * (x / m) + x % m
  {
  }

  lemma MulAtLeast(m: nat, k: nat)
    requires k > 0
    ensures m * k >= m
  {
  }

  lemma ModUnique(x: nat, m: nat, q: nat, r: nat)
    requires m > 0 && r < m && x == m * q + r
    ensures x % m == r
  {
    var q', r' := x / m, x % m;
    DivideBack(x, m);
    if q > q' { MulAtLeast(m, q - q'); }
    if q < q' { MulAtLeast(m, q' - q); }
  }

  /** Shifting right divides, rounding down. */
  lemma {:induction false} ShrIsDiv(x: nat, n: nat)
    ensures Shr(x, n) == x / Pow2(n)
  {
    if n > 0 {
      ShrIsDiv(x / 2, n - 1);
      DivTwice(x, Pow2(n - 1));
    }
  }

  lemma DivTwice(x: nat, m: nat)
    requires m > 0
    ensures x / 2 / m == x / (2 * m)
  {
    var q, r := x / 2 / m, x / 2 % m;
    DivideBack(x / 2, m);
    DoubleProduct(m, q);
    DivUnique(x, 2 * m, q, 2 * r + x % 2);
  }

  lemma DivUnique(x: nat, m: nat, q: nat, r: nat)
    requires m > 0 && r < m && x == m * q + r
    ensures x / m == q
  {
    DivideBack(x, m);
    if q > x / m { MulAtLeast(m, q - x / m); }
    if q < x / m { MulAtLeast(m, x / m - q); }
  }

  /** A word that is not zero has a bit set. */
  lemma {:induction false} SomeBit(x: nat) returns (k: nat)
    requires x != 0
    ensures Bit(x, k)
  {
    if x % 2 == 1 {
      k := 0;
    } else {
      k := SomeBit(x / 2);
      k := k + 1;
    }
  }

  lemma ShrZero(n: nat)
    ensures Shr(0, n) == 0
  {
  }

  lemma {:induction false} ShrTimes(c: nat, n: nat)
    ensures Shr(c * Pow2(n), n) == c
  {
    if n > 0 {
      assert c * Pow2(n) == 2 * (c * Pow2(n - 1));
      ShrTimes(c, n - 1);
    }
  }

  /** Bits of a shifted-in field. */
  lemma {:induction false} BitShr(x: nat, n: nat, k: nat)
    ensures Bit(Shr(x, n), k) == Bit(x, k + n)
  {
    if n > 0 { BitShr(x / 2, n - 1, k); }
  }
}
