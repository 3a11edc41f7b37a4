/** Division and remainder facts shared by the clock, timer and calendar models. */
module Arithmetic {
  function Min(a: int, b: int): (m: int)
    ensures m <= a && m <= b && (m == a || m == b)
  {
    if a <= b then a else b
  }

  /** Quotient and remainder are determined by their defining equation. */
  lemma DivModUnique(a: int, m: int, q: int, r: int)
    requires m > 0 && a == q * m + r && 0 <= r < m
    ensures a / m == q && a % m == r
  {
    var d := q - a / m;
    assert a == (a / m) * m + a % m;
    assert d * m == a % m - r by {
      assert d * m == q * m - (a / m) * m;
    }
    if d >= 1 {
      MulMonotone(1, d, m);
    } else if d <= -1 {
      MulMonotone(d, -1, m);
    }
  }

  lemma MulMonotone(a: int, b: int, m: int)
    requires a <= b && m >= 0
    ensures a * m <= b * m
  {
    assert (b - a) * m >= 0;
    assert (b - a) * m == b * m - a * m;
  }

  lemma DivMod(a: int, m: int)
    requires m > 0
    ensures a == (a / m) * m + a % m && 0 <= a % m < m
  {
  }

  /** Adding k multiples of m shifts the quotient by k. */
  lemma AddMultiple(a: int, k: int, m: int)
    requires m > 0
    ensures (a + k * m) / m == a / m + k && (a + k * m) % m == a % m
  {
    DivMod(a, m);
    assert (a / m + k) * m == (a / m) * m + k * m;
    DivModUnique(a + k * m, m, a / m + k, a % m);
  }

  /** A quotient is the largest multiple that fits. */
  lemma DivLower(a: int, m: int, q: int)
    requires m > 0
    ensures q * m <= a <==> q <= a / m
  {
    DivMod(a, m);
    if q <= a / m {
      MulMonotone(q, a / m, m);
    } else {
      MulMonotone(a / m + 1, q, m);
      assert (a / m + 1) * m == (a / m) * m + m;
    }
  }

  lemma DivMonotone(a: int, b: int, m: int)
    requires m > 0 && a <= b
    ensures a / m <= b / m
  {
    DivMod(a, m);
    DivLower(b, m, a / m);
  }

  function CeilDiv(a: int, m: int): int
    requires m > 0
  {
    (a + m - 1) / m
  }

  /** A rounded-up quotient is the smallest multiple that covers. */
  lemma CeilUpper(a: int, m: int, q: int)
    requires m > 0
    ensures a <= q * m <==> CeilDiv(a, m) <= q
  {
    DivLower(a + m - 1, m, q + 1);
    assert (q + 1) * m == q * m + m;
  }

  /** Dividing a scaled sum: the whole part can be taken out first.  For the
      seconds and the rest of a duration this is how the runtime avoids wide
      products. */
  lemma SplitScale(x: int, unit: int, f: int)
    requires unit > 0
    ensures (x * f) / unit == (x / unit) * f + ((x % unit) * f) / unit
  {
    DivMod(x, unit);
    var s, r := x / unit, x % unit;
    assert x * f == (s * unit + r) * f == r * f + (s * f) * unit by {
      assert (s * unit + r) * f == s * unit * f + r * f;
      assert s * unit * f == (s * f) * unit;
    }
    AddMultiple(r * f, s * f, unit);
  }

  lemma SplitScaleCeil(x: int, unit: int, f: int)
    requires unit > 0
    ensures CeilDiv(x * f, unit) == (x / unit) * f + CeilDiv((x % unit) * f, unit)
  {
    DivMod(x, unit);
    var s, r := x / unit, x % unit;
    assert x * f + unit - 1 == (r * f + unit - 1) + (s * f) * unit by {
      assert (s * unit + r) * f == s * unit * f + r * f;
      assert s * unit * f == (s * f) * unit;
    }
    AddMultiple(r * f + unit - 1, s * f, unit);
  }

  lemma ModOfSum(a: int, b: int, m: int)
    requires m > 0
    ensures (a % m + b) % m == (a + b) % m && (a % m + b % m) % m == (a + b) % m
  {
    DivMod(a, m);
    DivMod(b, m);
    AddMultiple(a % m + b, a / m, m);
    AddMultiple(a % m + b % m, b / m, m);
    AddMultiple(a % m + b % m + (b / m) * m, a / m, m);
  }

  lemma ModOfProduct(a: int, b: int, m: int)
    requires m > 0
    ensures ((a % m) * (b % m)) % m == (a * b) % m
  {
    var x, y, q, p := a % m, b % m, a / m, b / m;
    assert a == q * m + x && b == p * m + y by {
      DivMod(a, m);
      DivMod(b, m);
    }
    ProductIdentity(q, x, p, y, m);
    AddMultiple(x * y, x * p + q * (p * m + y), m);
  }

  lemma ProductIdentity(q: int, x: int, p: int, y: int, m: int)
    ensures (q * m + x) * (p * m + y) == x * y + (x * p + q * (p * m + y)) * m
  {
    var b := p * m + y;
    assert (q * m + x) * b == q * m * b + x * b;
    assert x * b == x * (p * m) + x * y;
    assert x * (p * m) == (x * p) * m && q * m * b == (q * b) * m;
    assert (x * p + q * b) * m == (x * p) * m + (q * b) * m;
  }
}
