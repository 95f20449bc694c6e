/**
 Decimal arithmetic as the ledger performs it: results of a product or a quotient keep
 20 significant digits and round half up, stored columns round half to even.

 A value is a real number; an amount in minor units (cents, 1e-4 money, 1e-9 grams) is an
 integer.  Round20 commutes with powers of ten (Round20ScaleTen), so computing in minor
 units rounds at the same digit as computing in whole units.
 */
module Decimals {

  /** Rounds a non-negative value to 20 significant digits, half up. */
  function Round20(x: real): (r: real)
    requires 0.0 <= x
    decreases if 1e20 <= x then x.Floor else if 0.0 < x < 1e19 then (1e20 / x).Floor else 0
  {
    if x == 0.0 then
      0.0
    else if 1e20 <= x then
      10.0 * Round20(x / 10.0)
    else if x < 1e19 then
      ScaleUpShrinks(x);
      Round20(x * 10.0) / 10.0
    else
      (x + 0.5).Floor as real
  }

  lemma ScaleUpShrinks(x: real)
    requires 0.0 < x < 1e19
    ensures (1e20 / (x * 10.0)).Floor < (1e20 / x).Floor
    ensures 0 <= (1e20 / (x * 10.0)).Floor
  {
    var y := 1e20 / x;
    assert y * x == 1e20;
    assert 1e20 / (x * 10.0) == y / 10.0 by {
      assert (y / 10.0) * (x * 10.0) == 1e20;
    }
    QuotientAbove(1e20, x, 10.0);
  }

  lemma QuotientAbove(a: real, b: real, c: real)
    requires 0.0 < b && c * b < a
    ensures c < a / b
  {
    assert (a / b - c) * b == a - c * b;
  }

  /** The rounding error is at most half a unit of the twentieth digit. */
  lemma {:induction false} Round20Error(x: real)
    requires 0.0 <= x
    ensures (2.0 * 1e19 - 1.0) * x <= 2.0 * 1e19 * Round20(x) <= (2.0 * 1e19 + 1.0) * x
    decreases if 1e20 <= x then x.Floor else if 0.0 < x < 1e19 then (1e20 / x).Floor else 0
  {
    if x == 0.0 {
    } else if 1e20 <= x {
      Round20Error(x / 10.0);
    } else if x < 1e19 {
      ScaleUpShrinks(x);
      Round20Error(x * 10.0);
    }
  }

  lemma {:induction false} Round20Range(x: real)
    requires 0.0 <= x
    ensures 0.0 <= Round20(x)
    ensures x < 1e20 ==> Round20(x) <= 1e20
    ensures 1e19 <= x ==> 1e19 <= Round20(x)
    ensures 1e20 <= x ==> 1e20 <= Round20(x)
    ensures x < 1e19 ==> Round20(x) <= 1e19
    decreases if 1e20 <= x then x.Floor else if 0.0 < x < 1e19 then (1e20 / x).Floor else 0
  {
    if x == 0.0 {
    } else if 1e20 <= x {
      Round20Range(x / 10.0);
    } else if x < 1e19 {
      ScaleUpShrinks(x);
      Round20Range(x * 10.0);
    }
  }

  /** Rounding never reorders two values. */
  lemma {:induction false} Round20Monotone(x: real, y: real)
    requires 0.0 <= x <= y
    ensures Round20(x) <= Round20(y)
    decreases if 1e20 <= x then x.Floor else if 0.0 < x < 1e19 then (1e20 / x).Floor else 0
  {
    if x == 0.0 || (x < 1e20 <= y) || (x < 1e19 <= y) {
      Round20Across(x, y);
    } else if 1e20 <= x {
      assert Round20(x) == 10.0 * Round20(x / 10.0) && Round20(y) == 10.0 * Round20(y / 10.0);
      Round20Monotone(x / 10.0, y / 10.0);
    } else if x < 1e19 {
      ScaleUpShrinks(x);
      assert Round20(x) == Round20(x * 10.0) / 10.0 && Round20(y) == Round20(y * 10.0) / 10.0;
      Round20Monotone(x * 10.0, y * 10.0);
    } else {
      assert x + 0.5 <= y + 0.5;
      assert (x + 0.5).Floor <= (y + 0.5).Floor;
    }
  }

  lemma Round20Across(x: real, y: real)
    requires 0.0 <= x <= y
    requires x == 0.0 || (x < 1e20 <= y) || (x < 1e19 <= y)
    ensures Round20(x) <= Round20(y)
  {
    Round20Range(x);
    Round20Range(y);
  }

  lemma Round20ScaleTen(x: real)
    requires 0.0 <= x
    ensures Round20(x * 10.0) == 10.0 * Round20(x)
  {
    if x != 0.0 {
      assert x * 10.0 / 10.0 == x;
    }
  }

  function Pow10(k: nat): (p: real)
    ensures 1.0 <= p
  {
    if k == 0 then 1.0 else 10.0 * Pow10(k - 1)
  }

  /** A value of k decimals with at most 20 digits in all is not changed by rounding. */
  lemma {:induction false} Round20Exact(x: real, k: nat, n: int)
    requires 0.0 <= x
    requires x * Pow10(k) == n as real && n < 1_0000_0000_0000_0000_0000
    ensures Round20(x) == x
    decreases if 1e20 <= x then x.Floor else if 0.0 < x < 1e19 then (1e20 / x).Floor else 0
  {
    if x == 0.0 {
    } else if 1e19 <= x {
      TwentyDigitsWhole(x, k, n);
    } else {
      ScaleUpShrinks(x);
      assert Round20(x) == Round20(x * 10.0) / 10.0;
      if k == 0 {
        Round20Exact(x * 10.0, 0, n * 10);
      } else {
        ShiftDigit(x, k);
        Round20Exact(x * 10.0, k - 1, n);
      }
    }
  }

  lemma TwentyDigitsWhole(x: real, k: nat, n: int)
    requires 1e19 <= x
    requires x * Pow10(k) == n as real && n < 1_0000_0000_0000_0000_0000
    ensures Round20(x) == x
  {
    if 0 < k {
      ManyDigits(x, k);
      assert false;
    }
    assert x == n as real;
    assert (x + 0.5).Floor == n;
  }

  lemma ShiftDigit(x: real, k: nat)
    requires 0 < k
    ensures (x * 10.0) * Pow10(k - 1) == x * Pow10(k)
  {
    var p := Pow10(k - 1);
    assert (x * 10.0) * p == x * (10.0 * p);
  }

  lemma ManyDigits(x: real, k: nat)
    requires 1e19 <= x && 0 < k
    ensures 1e20 <= x * Pow10(k)
  {
    var p := Pow10(k - 1);
    assert x * (p - 1.0) >= 0.0;
    assert x * Pow10(k) == 10.0 * (x * p);
  }

  /** Whole numbers below 10^20 are exact. */
  lemma Round20Whole(n: int)
    requires 0 <= n < 1_0000_0000_0000_0000_0000
    ensures Round20(n as real) == n as real
  {
    Round20Exact(n as real, 0, n);
  }

  lemma ProductLe(x: real, y: real, v: real)
    requires x <= y && 0.0 <= v
    ensures x * v <= y * v
  {
  }

  lemma PartOf(c: real, s: real, y: real)
    requires 0.0 <= c && 0.0 <= s <= 1.0 && y == c * s
    ensures 0.0 <= y <= c
  {
    var rest := c * (1.0 - s);
    assert rest == c - y;
    assert 0.0 <= rest;
  }

  lemma CancelFactor(x: real, y: real, v: real, c: real)
    requires v != 0.0 && x * v == c && y * v == c
    ensures x == y
  {
    assert x == c / v && y == c / v;
  }

  /** Rounding to the nearest integer, ties to the even neighbour. */
  function HalfEven(x: real): (r: int)
    requires 0.0 <= x
    ensures 0 <= r
    ensures r as real - 0.5 <= x <= r as real + 0.5
    ensures (r as real - 0.5 == x || x == r as real + 0.5) ==> r % 2 == 0
  {
    var f := x.Floor;
    var d := x - f as real;
    if d < 0.5 then f
    else if d > 0.5 then f + 1
    else if f % 2 == 0 then f else f + 1
  }

  lemma HalfEvenMonotone(x: real, y: real)
    requires 0.0 <= x <= y
    ensures HalfEven(x) <= HalfEven(y)
  {
    if x.Floor == y.Floor {
    } else {
      assert x.Floor < y.Floor;
    }
  }

  lemma HalfEvenWhole(n: nat)
    ensures HalfEven(n as real) == n
  {
  }

  /** Among values of twenty digits before the point: the nearest whole one, halves up. */
  lemma Round20HalfUp(x: real, n: int)
    requires 1e19 <= x < 1e20 && n as real - 0.5 <= x < n as real + 0.5
    ensures Round20(x) == n as real
  {
    assert (x + 0.5).Floor == n;
  }
}
