/** Division facts shared by the fixed-point and error-term proofs. */
module Arithmetic {

  lemma MulAtLeast(k: int, m: int)
    requires m > 0
    ensures k >= 1 ==> k * m >= m
    ensures k <= -1 ==> k * m <= -m
  {
    if k >= 1 {
      MulNonNegative(k - 1, m);
    } else if k <= -1 {
      MulNonNegative(-1 - k, m);
    }
  }

  lemma MulNonNegative(x: int, y: int)
    requires x >= 0 && y >= 0
    ensures x * y >= 0
  {
  }

  /** Quotient and remainder are determined by their defining equation. */
  lemma DivModUnique(x: int, m: int, q: int, r: int)
    requires m > 0 && x == q * m + r && 0 <= r < m
    ensures x / m == q && x % m == r
  {
    var q', r' := x / m, x % m;
    assert x == q' * m + r';
    MulAtLeast(q' - q, m);
    assert (q' - q) * m == q' * m - q * m;
  }

  lemma ModSmall(x: int, m: int)
    requires 0 <= x < m
    ensures x % m == x && x / m == 0
  {
    DivModUnique(x, m, 0, x);
  }

  lemma DivModShift(x: int, k: int, m: int)
    requires m > 0
    ensures (x + k * m) / m == x / m + k && (x + k * m) % m == x % m
  {
    DivModUnique(x + k * m, m, x / m + k, x % m);
  }

  lemma ModAdd(x: int, y: int, m: int)
    requires m > 0
    ensures (x % m + y) % m == (x + y) % m
  {
    DivModShift(x % m + y, x / m, m);
  }

  /** The integer division is monotone. */
  lemma DivMonotone(x: int, y: int, m: int)
    requires m > 0 && x <= y
    ensures x / m <= y / m
  {
    var d := x / m - y / m;
    assert x == (x / m) * m + x % m && y == (y / m) * m + y % m;
    MulAtLeast(d, m);
    assert d * m == (x / m) * m - (y / m) * m;
  }

  lemma MulCancel(x: int, y: int, m: int)
    requires m > 0 && x * m <= y * m
    ensures x <= y
  {
    MulAtLeast(x - y, m);
    assert (x - y) * m == x * m - y * m;
  }

  /** The quotient is the greatest number that fits. */
  lemma DivGreatest(x: int, m: int, p: int)
    requires m > 0 && p * m <= x
    ensures p <= x / m
  {
    var q := x / m;
    assert x == q * m + x % m;
    MulAtLeast(p - q, m);
    assert (p - q) * m == p * m - q * m;
  }

  /** Comparing two quotients by cross multiplication. */
  lemma DivCrossMonotone(a: int, d: int, b: int, e: int)
    requires d > 0 && e > 0 && a * e <= b * d
    ensures a / d <= b / e
  {
    var p := a / d;
    assert p * d <= a by { assert a == p * d + a % d; }
    MulNonNegative(a - p * d, e);
    assert (a - p * d) * e == a * e - (p * e) * d;
    MulCancel(p * e, b, d);
    DivGreatest(b, e, p);
  }

  /** C's division and remainder, which truncate towards zero. */
  function CDiv(a: int, b: int): int
    requires b != 0
  {
    if a >= 0 then (if b > 0 then a / b else -(a / -b))
    else (if b > 0 then -((-a) / b) else (-a) / -b)
  }

  function CMod(a: int, b: int): int
    requires b != 0
  {
    a - CDiv(a, b) * b
  }

  /** For a number that is not negative the remainder is not either. */
  lemma Truncated(a: nat, b: int)
    requires b != 0
    ensures 0 <= CMod(a, b) < (if b > 0 then b else -b)
  {
    if b > 0 {
      assert a == a / b * b + a % b;
    } else {
      assert a == a / -b * -b + a % -b;
      assert -(a / -b) * b == a / -b * -b;
    }
  }

  /** FloorDivMod of gl/CDDA.cpp and CDDA::set of kernel/kernel/2dRenderer.cpp:
      the floor of the quotient, from truncating operators. */
  method FloorDivMod(numerator: int, denominator: int) returns (floor: int, mod: int)
    requires denominator != 0
    ensures denominator > 0 ==> floor == numerator / denominator && mod == numerator % denominator
    ensures floor * denominator + mod == numerator
    ensures denominator > 0 ==> 0 <= mod < denominator
    ensures denominator < 0 ==> if numerator >= 0 then 0 <= mod < -denominator
                                else mod == 0 || 2 * denominator < mod < denominator
  {
    if numerator >= 0 {
      floor := CDiv(numerator, denominator);
      mod := CMod(numerator, denominator);
    } else {
      floor := -CDiv(-numerator, denominator);
      mod := CMod(-numerator, denominator);
      if mod != 0 {
        floor := floor - 1;
        mod := denominator - mod;
      }
    }
    Truncated(if numerator >= 0 then numerator else -numerator, denominator);
    assert (floor - 1) * denominator == floor * denominator - denominator;
    assert (floor + 1) * denominator == floor * denominator + denominator;
    assert -CDiv(-numerator, denominator) * denominator == -(CDiv(-numerator, denominator) * denominator);
    if denominator > 0 {
      DivModUnique(numerator, denominator, floor, mod);
    }
  }
}
