/** Bitwise operations on naturals, and the masks and shifts the runtime uses. */
module Bits {
  import opened Arithmetic

  function Pow2(k: nat): (p: nat)
    ensures p >= 1
  {
    if k == 0 then 1 else 2 * Pow2(k - 1)
  }

  function And(x: nat, y: nat): nat
    decreases x
  {
    if x == 0 || y == 0 then 0
    else 2 * And(x / 2, y / 2) + (if x % 2 == 1 && y % 2 == 1 then 1 else 0)
  }

  function Or(x: nat, y: nat): nat
    decreases x + y
  {
    if x == 0 then y
    else if y == 0 then x
    else 2 * Or(x / 2, y / 2) + (if x % 2 == 1 || y % 2 == 1 then 1 else 0)
  }

  lemma HalfOfShifted(h: nat, l: nat, k: nat)
    requires k > 0
    ensures (h * Pow2(k) + l) / 2 == h * Pow2(k - 1) + l / 2 && (h * Pow2(k) + l) % 2 == l % 2
  {
    assert h * Pow2(k) == 2 * (h * Pow2(k - 1));
  }

  /** Or-ing into cleared low bits is addition. */
  lemma {:induction false} OrIsSum(h: nat, l: nat, k: nat)
    requires l < Pow2(k)
    ensures Or(h * Pow2(k), l) == h * Pow2(k) + l
    decreases k
  {
    if k == 0 || h == 0 || l == 0 {
      assert k == 0 ==> l == 0;
      OrZero(h * Pow2(k));
    } else {
      HalfOfShifted(h, 0, k);
      assert h * Pow2(k) > 0 by { MulMonotone(1, h, Pow2(k)); }
      OrIsSum(h, l / 2, k - 1);
      HalfOfShifted(h, l, k);
    }
  }

  lemma OrZero(x: nat)
    ensures Or(x, 0) == x && Or(0, x) == x
  {
  }

  /** Remainder by 2p, from the remainder of the half by p. */
  lemma RemainderDoubles(x: nat, p: nat)
    requires p > 0
    ensures x % (2 * p) == 2 * ((x / 2) % p) + x % 2
  {
    var h := x / 2;
    DivMod(h, p);
    var q, r := h / p, h % p;
    assert q * (2 * p) == 2 * (q * p);
    DivModUnique(x, 2 * p, q, 2 * r + x % 2);
  }

  /** And with a low mask is the remainder. */
  lemma {:induction false} AndLowMask(x: nat, k: nat)
    ensures And(x, Pow2(k) - 1) == x % Pow2(k)
    decreases k
  {
    if k == 0 {
      assert x % 1 == 0;
    } else {
      var p := Pow2(k - 1);
      AndLowMask(x / 2, k - 1);
      assert (2 * p - 1) / 2 == p - 1 && (2 * p - 1) % 2 == 1;
      RemainderDoubles(x, p);
    }
  }

  lemma RoundingDoubles(x: nat, b: nat)
    requires b > 0
    ensures 2 * (x / 2 - x / 2 % b) == x - x % (2 * b)
  {
    RemainderDoubles(x, b);
  }

  lemma HighMaskStep(x: nat, y: nat, b: nat)
    requires b > 0 && And(x / 2, y) == x / 2 - x / 2 % b
    ensures And(x, 2 * y) == x - x % (2 * b)
  {
    RoundingDoubles(x, b);
    AndEven(x, y);
  }

  /** And with a mask whose low j bits are clear rounds down to a multiple. */
  lemma {:induction false} AndHighMask(x: nat, j: nat, n: nat)
    requires j <= n && x < Pow2(n)
    ensures Pow2(j) <= Pow2(n) && And(x, Pow2(n) - Pow2(j)) == x - x % Pow2(j)
    decreases j
  {
    if j == 0 {
      AndLowMask(x, n);
      DivModUnique(x, Pow2(n), 0, x);
      assert x % 1 == 0;
    } else {
      var a, b := Pow2(n - 1), Pow2(j - 1);
      assert Pow2(n) == 2 * a && Pow2(j) == 2 * b;
      AndHighMask(x / 2, j - 1, n - 1);
      HighMaskStep(x, a - b, b);
      assert 2 * (a - b) == Pow2(n) - Pow2(j);
    }
  }

  lemma AndEven(x: nat, y: nat)
    ensures And(x, 2 * y) == 2 * And(x / 2, y)
  {
    if x == 0 || y == 0 {
      assert And(x / 2, y) == 0;
    } else {
      assert 2 * y / 2 == y && 2 * y % 2 == 0;
    }
  }

  lemma AndMask(x: nat, mask: nat, k: nat)
    requires mask + 1 == Pow2(k)
    ensures And(x, mask) == x % (mask + 1)
  {
    AndLowMask(x, k);
  }

  /** A power of two other than 1 is twice a power of two. */
  lemma HalvePower(x: nat)
    requires x > 1
    ensures IsPowerOfTwo(x) <==> x % 2 == 0 && IsPowerOfTwo(x / 2)
  {
    if IsPowerOfTwo(x) {
      var k: nat :| IsLog(k, x);
      assert k > 0 && Pow2(k) == 2 * Pow2(k - 1);
      assert IsLog(k - 1, x / 2);
    }
    if x % 2 == 0 && IsPowerOfTwo(x / 2) {
      var k: nat :| IsLog(k, x / 2);
      assert IsLog(k + 1, x);
    }
  }

  ghost predicate IsPowerOfTwo(x: nat) { exists k: nat {:trigger IsLog(k, x)} :: IsLog(k, x) }

  predicate IsLog(k: nat, x: nat) { Pow2(k) == x }

  /** x & (x - 1) is zero exactly for the powers of two. */
  lemma {:induction false} PowerOfTwoTest(x: nat)
    requires x > 0
    ensures And(x, x - 1) == 0 <==> IsPowerOfTwo(x)
    decreases x
  {
    if x == 1 {
      assert IsLog(0, 1);
    } else {
      HalvePower(x);
      if x % 2 == 1 {
        assert (x - 1) / 2 == x / 2 > 0 && (x - 1) % 2 == 0;
        AndSelf(x / 2);
      } else {
        assert (x - 1) / 2 == x / 2 - 1 && (x - 1) % 2 == 1;
        PowerOfTwoTest(x / 2);
      }
    }
  }

  lemma {:induction false} AndSelf(x: nat)
    ensures And(x, x) == x
    decreases x
  {
    if x > 0 {
      AndSelf(x / 2);
    }
  }

  lemma Pow2Values()
    ensures Pow2(8) == 256 && Pow2(24) == 0x100_0000 && Pow2(32) == 0x1_0000_0000
  {
    assert Pow2(4) == 16;
    assert Pow2(8) == 256;
    assert Pow2(12) == 4096;
    assert Pow2(16) == 65536;
    assert Pow2(20) == 0x10_0000;
    assert Pow2(24) == 0x100_0000;
    assert Pow2(28) == 0x1000_0000;
    assert Pow2(32) == 0x1_0000_0000;
  }
}
