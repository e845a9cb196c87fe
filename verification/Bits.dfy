/** 64-bit masking, bit by bit, and what the source's rounding expressions compute with it. */
module Bits {

  function Pow2(k: nat): (r: nat)
    ensures r > 0
  {
    if k == 0 then 1 else 2 * Pow2(k - 1)
  }

  /** Bitwise and. */
  function And(x: nat, y: nat): nat {
    if x == 0 || y == 0 then 0
    else (if x % 2 == 1 && y % 2 == 1 then 1 else 0) + 2 * And(x / 2, y / 2)
  }

  const WORD: nat := 0x1_0000_0000_0000_0000

  /** Bitwise complement of a 64-bit word. */
  function Not64(x: nat): nat
    requires x < WORD
  {
    WORD - 1 - x
  }

  /** The rounding expression of the source, `(x + n - 1) & !(n - 1)` on 64-bit words. */
  function MaskUp(x: nat, n: nat): nat
    requires n > 0 && x + n - 1 < WORD
  {
    And(x + n - 1, Not64(n - 1))
  }

  /** What it is meant to compute. */
  function RoundUp(x: nat, n: nat): nat
    requires n > 0
  {
    x + n - 1 - (x + n - 1) % n
  }

  lemma {:induction false} PowMonotone(j: nat, k: nat)
    requires j <= k
    ensures Pow2(j) <= Pow2(k)
    decreases k
  {
    if j < k { PowMonotone(j, k - 1); }
  }

  lemma {:induction false} AndOnes(x: nat, w: nat)
    requires x < Pow2(w)
    ensures And(x, Pow2(w) - 1) == x
    decreases w
  {
    if x != 0 {
      assert w > 0 && (Pow2(w) - 1) / 2 == Pow2(w - 1) - 1;
      AndOnes(x / 2, w - 1);
    }
  }

  /** Halving a number halves its multiple of 2^k below. */
  lemma ModHalf(x: nat, m: nat)
    requires m > 0
    ensures x % (2 * m) == 2 * ((x / 2) % m) + x % 2
  {
    var y := x / 2;
    var q := y / m;
    var r := 2 * (y % m) + x % 2;
    assert y == m * q + y % m;
    assert x == (2 * m) * q + r && 0 <= r < 2 * m;
    ModUnique(x, 2 * m, q, r);
  }

  lemma ModUnique(x: nat, m: nat, q: nat, r: nat)
    requires 0 <= r < m && x == m * q + r
    ensures x % m == r && x / m == q
  {
    var d := x / m - q;
    assert m * (x / m) + x % m == x;
    assert m * d == r - x % m by { assert m * d == m * (x / m) - m * q; }
    assert d >= 1 ==> m * d >= m;
    assert d <= -1 ==> m * d <= 0 - m;
  }

  lemma AndEven(x: nat, m: nat)
    ensures And(x, 2 * m) == 2 * And(x / 2, m)
  {
    if x != 0 && m != 0 { assert (2 * m) / 2 == m && (2 * m) % 2 == 0; }
  }

  lemma AndMaskStep(x: nat, m: nat, n: nat)
    requires n > 0 && And(x / 2, m) == x / 2 - (x / 2) % n
    ensures And(x, 2 * m) == x - x % (2 * n)
  {
    AndEven(x, m);
    ModHalf(x, n);
  }

  /** Masking off the low k bits subtracts the remainder modulo 2^k. */
  lemma {:induction false} AndMask(x: nat, k: nat, w: nat)
    requires k <= w && x < Pow2(w)
    ensures Pow2(k) <= Pow2(w)
    ensures And(x, Pow2(w) - Pow2(k)) == x - x % Pow2(k)
    decreases k
  {
    PowMonotone(k, w);
    if k == 0 {
      AndOnes(x, w);
    } else {
      var m := Pow2(w - 1) - Pow2(k - 1);
      AndMask(x / 2, k - 1, w - 1);
      AndMaskStep(x, m, Pow2(k - 1));
      assert Pow2(w) - Pow2(k) == 2 * m;
    }
  }

  lemma MultipleBelow(y: nat, n: nat)
    requires n > 0
    ensures (y - y % n) % n == 0
  {
    ModUnique(y - y % n, n, y / n, 0);
  }

  /** Two different multiples of n are at least n apart. */
  lemma MultiplesApart(a: nat, b: nat, n: nat)
    requires n > 0 && a % n == 0 && b % n == 0
    ensures a < b ==> a + n <= b
  {
    var i, j := a / n, b / n;
    assert a == n * i && b == n * j;
    assert i < j ==> n * (i + 1) <= n * j;
    assert i >= j ==> n * i >= n * j;
  }

  /** Rounding up yields the least multiple of n at or above x. */
  lemma RoundUpIsLeast(x: nat, n: nat)
    requires n > 0
    ensures RoundUp(x, n) % n == 0 && x <= RoundUp(x, n) < x + n
    ensures forall m: nat :: m % n == 0 && x <= m ==> RoundUp(x, n) <= m
  {
    MultipleBelow(x + n - 1, n);
    forall m: nat | m % n == 0 && x <= m ensures RoundUp(x, n) <= m {
      MultiplesApart(m, RoundUp(x, n), n);
    }
  }

  lemma WordIsPower()
    ensures Pow2(64) == WORD
  {
    assert Pow2(12) == 4096;
    assert Pow2(21) == 512 * Pow2(12);
    assert Pow2(32) == 2048 * Pow2(21);
    assert Pow2(43) == 2048 * Pow2(32);
    assert Pow2(54) == 2048 * Pow2(43);
    assert Pow2(64) == 1024 * Pow2(54);
  }

  /** For a power of two the masking expression rounds up. */
  lemma MaskIsRoundUp(x: nat, n: nat, k: nat)
    requires k <= 64 && n == Pow2(k) && x + n - 1 < WORD
    ensures MaskUp(x, n) == RoundUp(x, n)
  {
    WordIsPower();
    AndMask(x + n - 1, k, 64);
  }

  /** The three granularities in use are powers of two. */
  lemma Granularities()
    ensures Pow2(3) == 8 && Pow2(12) == 4096 && Pow2(21) == 2 * 1024 * 1024
  {
    assert Pow2(12) == 4096;
    assert Pow2(21) == 512 * Pow2(12);
  }

  method AlignUp(x: nat, n: nat, ghost k: nat) returns (r: nat)
    requires k <= 64 && n == Pow2(k) && x + n - 1 < WORD
    ensures r == RoundUp(x, n)
  {
    MaskIsRoundUp(x, n, k);
    r := MaskUp(x, n);
  }
}
