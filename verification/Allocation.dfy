/**
 Cost allocation (packages/shared/src/allocation.ts).  Amounts are whole cents; basis values
 are arbitrary non-negative decimals, and every product, quotient and sum of them is rounded
 to 20 significant digits, as the decimal library does.
 */
module Allocation {
  import opened Decimals
  import opened Money
  import opened Quotas

  const MAX_ITEMS: int := 100

  // ---- The quotas as computed, and as they would be without rounding -------------------

  ghost predicate NonNegative(b: seq<real>) {
    forall i | 0 <= i < |b| :: 0.0 <= b[i]
  }

  /** A left fold in which every addition is rounded. */
  function RoundedSum(b: seq<real>): (s: real)
    requires NonNegative(b)
    ensures 0.0 <= s
  {
    if b == [] then 0.0
    else
      var s := RoundedSum(b[..|b| - 1]) + b[|b| - 1];
      Round20Range(s);
      Round20(s)
  }

  function RoundedQuota(total: int, b: real, sum: real): (q: real)
    requires 0 <= total && 0.0 <= b && 0.0 < sum
    ensures 0.0 <= q
  {
    var p := total as real * b;
    Round20Range(p);
    Round20Range(Round20(p) / sum);
    Round20(Round20(p) / sum)
  }

  function RoundedQuotas(total: int, b: seq<real>, sum: real): (q: seq<real>)
    requires 0 <= total && NonNegative(b) && 0.0 < sum
    ensures |q| == |b|
    ensures forall i | 0 <= i < |q| :: q[i] == RoundedQuota(total, b[i], sum)
  {
    seq(|b|, i requires 0 <= i < |b| => RoundedQuota(total, b[i], sum))
  }

  function ExactQuotas(total: int, b: seq<real>, sum: real): (q: seq<real>)
    requires sum != 0.0
    ensures |q| == |b|
    ensures forall i | 0 <= i < |q| :: q[i] == ExactQuota(total, b[i], sum)
  {
    seq(|b|, i requires 0 <= i < |b| => ExactQuota(total, b[i], sum))
  }

  function ExactQuota(total: int, b: real, sum: real): real
    requires sum != 0.0
  {
    total as real * b / sum
  }

  // ---- How far rounding moves a sum ----------------------------------------------------

  lemma {:induction false} SumNonNegative(b: seq<real>)
    requires NonNegative(b)
    ensures 0.0 <= SumReal(b)
    ensures forall i | 0 <= i < |b| :: b[i] <= SumReal(b)
  {
    if b != [] {
      var n := |b| - 1;
      SumNonNegative(b[..n]);
      assert forall i | 0 <= i < n :: b[..n][i] == b[i];
    }
  }

  /** n times z, one addition at a time. */
  ghost function Slack(n: nat, z: real): real {
    if n == 0 then 0.0 else Slack(n - 1, z) + z
  }

  lemma {:induction false} SlackBound(n: nat, m: nat, z: real)
    requires 0.0 <= z && n <= m
    ensures 0.0 <= Slack(n, z) <= m as real * z
  {
    if 0 < n {
      SlackBound(n - 1, m - 1, z);
      assert m as real * z == (m - 1) as real * z + z;
    } else {
      assert m as real * z >= 0.0;
    }
  }

  lemma {:induction false} RoundedSumError(b: seq<real>, z: real)
    requires NonNegative(b) && |b| <= 100 && SumReal(b) <= z
    ensures -2.0 * Slack(|b|, z) <= 2e19 * (RoundedSum(b) - SumReal(b)) <= 2.0 * Slack(|b|, z)
  {
    SumNonNegative(b);
    if b != [] {
      var n := |b| - 1;
      SumNonNegative(b[..n]);
      RoundedSumError(b[..n], z);
      SlackBound(n, 100, z);
      var s := RoundedSum(b[..n]) + b[n];
      Round20Error(s);
      StepError(s, Round20(s), SumReal(b), Slack(n, z), z);
    }
  }

  lemma StepError(s: real, r: real, exact: real, w: real, z: real)
    requires 0.0 <= exact <= z && 0.0 <= w <= 100.0 * z && 0.0 <= s
    requires -2.0 * w <= 2e19 * (s - exact) <= 2.0 * w
    requires (2e19 - 1.0) * s <= 2e19 * r <= (2e19 + 1.0) * s
    ensures -2.0 * (w + z) <= 2e19 * (r - exact) <= 2.0 * (w + z)
  {
  }

  /** The rounded sum of at most 100 values is off by at most 200 / 2e19 of the exact one. */
  lemma RoundedSumClose(b: seq<real>)
    requires NonNegative(b) && |b| <= 100
    ensures (2e19 - 200.0) * SumReal(b) <= 2e19 * RoundedSum(b) <= (2e19 + 200.0) * SumReal(b)
  {
    SumNonNegative(b);
    RoundedSumError(b, SumReal(b));
    SlackBound(|b|, 100, SumReal(b));
    OpenBounds(RoundedSum(b), SumReal(b), Slack(|b|, SumReal(b)));
  }

  lemma OpenBounds(r: real, x: real, w: real)
    requires -2.0 * w <= 2e19 * (r - x) <= 2.0 * w && w <= 100.0 * x
    ensures (2e19 - 200.0) * x <= 2e19 * r <= (2e19 + 200.0) * x
  {
  }

  lemma RoundedSumPositive(b: seq<real>)
    requires NonNegative(b) && |b| <= 100
    ensures 0.0 < RoundedSum(b) <==> 0.0 < SumReal(b)
  {
    RoundedSumClose(b);
    SumNonNegative(b);
  }

  // ---- How far rounding moves a quota --------------------------------------------------

  /** One rounding is off by at most 1 / 2e19 of the value; here are two, of the product and of the quotient. */
  lemma QuotaTimesSum(total: int, b: real, sum: real)
    requires 0 <= total && 0.0 <= b && 0.0 < sum
    ensures (2e19 - 1.0) * (2e19 - 1.0) * (total as real * b)
         <= 2e19 * 2e19 * (RoundedQuota(total, b, sum) * sum)
         <= (2e19 + 1.0) * (2e19 + 1.0) * (total as real * b)
  {
    var t := total as real * b;
    Round20Error(t);
    var p := Round20(t);
    Round20Range(t);
    Round20Error(p / sum);
    TwoRoundings(t, p, p / sum, Round20(p / sum), sum);
  }

  lemma TwoRoundings(t: real, p: real, z: real, q: real, sum: real)
    requires 0.0 < sum && 0.0 <= p && z == p / sum
    requires (2e19 - 1.0) * t <= 2e19 * p <= (2e19 + 1.0) * t
    requires (2e19 - 1.0) * z <= 2e19 * q <= (2e19 + 1.0) * z
    ensures (2e19 - 1.0) * (2e19 - 1.0) * t <= 2e19 * 2e19 * (q * sum) <= (2e19 + 1.0) * (2e19 + 1.0) * t
  {
    TimesSum(q, z, sum);
    assert z * sum == p;
  }

  lemma TimesSum(q: real, z: real, sum: real)
    requires 0.0 < sum
    requires (2e19 - 1.0) * z <= 2e19 * q <= (2e19 + 1.0) * z
    ensures (2e19 - 1.0) * (z * sum) <= 2e19 * (q * sum) <= (2e19 + 1.0) * (z * sum)
  {
    assert (2e19 * q - (2e19 - 1.0) * z) * sum >= 0.0;
    assert ((2e19 + 1.0) * z - 2e19 * q) * sum >= 0.0;
  }

  /** One computed quota is off by at most 204 / 2e19 of the exact one. */
  lemma QuotaClose(total: int, b: real, sum: real, exactSum: real, e: real)
    requires 0 <= total && 0.0 <= b && 0.0 < sum && 0.0 < exactSum
    requires (2e19 - 200.0) * exactSum <= 2e19 * sum <= (2e19 + 200.0) * exactSum
    requires e * exactSum == total as real * b && 0.0 <= e
    ensures 2e19 * Abs(RoundedQuota(total, b, sum) - e) <= 204.0 * e
  {
    var q := RoundedQuota(total, b, sum);
    QuotaTimesSum(total, b, sum);
    CancelSum(q, e, sum, exactSum, total as real * b);
  }

  lemma CancelSum(q: real, e: real, sum: real, x: real, t: real)
    requires 0.0 <= q && 0.0 <= e && 0.0 < x && e * x == t
    requires (2e19 - 200.0) * x <= 2e19 * sum <= (2e19 + 200.0) * x
    requires (2e19 - 1.0) * (2e19 - 1.0) * t <= 2e19 * 2e19 * (q * sum) <= (2e19 + 1.0) * (2e19 + 1.0) * t
    ensures 2e19 * Abs(q - e) <= 204.0 * e
  {
    var qx := q * x;
    assert (2e19 - 200.0) * qx <= 2e19 * (q * sum) <= (2e19 + 200.0) * qx by {
      assert q * (2e19 * sum - (2e19 - 200.0) * x) >= 0.0;
      assert q * ((2e19 + 200.0) * x - 2e19 * sum) >= 0.0;
    }
    Bounds(qx, q * sum, t);
    assert (204.0 * e - 2e19 * (q - e)) * x >= 0.0;
    assert (204.0 * e - 2e19 * (e - q)) * x >= 0.0;
    PositiveFactor(204.0 * e - 2e19 * (q - e), x);
    PositiveFactor(204.0 * e - 2e19 * (e - q), x);
  }

  lemma Bounds(qx: real, qs: real, t: real)
    requires 0.0 <= t && 0.0 <= qx
    requires (2e19 - 200.0) * qx <= 2e19 * qs <= (2e19 + 200.0) * qx
    requires (2e19 - 1.0) * (2e19 - 1.0) * t <= 2e19 * 2e19 * qs <= (2e19 + 1.0) * (2e19 + 1.0) * t
    ensures 2e19 * (qx - t) <= 204.0 * t && 2e19 * (t - qx) <= 204.0 * t
  {
  }

  lemma PositiveFactor(a: real, x: real)
    requires 0.0 < x && 0.0 <= a * x
    ensures 0.0 <= a
  {
    assert a == a * x / x;
  }

  // ---- The remainder -------------------------------------------------------------------

  lemma {:induction false} ScaledSum(e: seq<real>, b: seq<real>, t: real, sum: real)
    requires |e| == |b|
    requires forall i | 0 <= i < |e| :: e[i] * sum == t * b[i]
    ensures SumReal(e) * sum == t * SumReal(b)
  {
    if e != [] {
      var n := |e| - 1;
      ScaledSum(e[..n], b[..n], t, sum);
      AddProducts(SumReal(e[..n]), e[n], sum, t, SumReal(b[..n]), b[n]);
    }
  }

  lemma AddProducts(x: real, y: real, sum: real, t: real, b: real, c: real)
    requires x * sum == t * b && y * sum == t * c
    ensures (x + y) * sum == t * (b + c)
  {
  }

  lemma ExactQuotaAt(total: int, b: real, sum: real)
    requires 0.0 < sum
    ensures ExactQuota(total, b, sum) * sum == total as real * b
    ensures 0 <= total && 0.0 <= b ==> 0.0 <= ExactQuota(total, b, sum)
  {
    if 0 <= total && 0.0 <= b {
      PositiveQuotient(total as real * b, sum);
    }
  }

  lemma PositiveQuotient(t: real, sum: real)
    requires 0.0 <= t && 0.0 < sum
    ensures 0.0 <= t / sum
  {
  }

  lemma ExactQuotasSum(total: int, b: seq<real>)
    requires 0.0 < SumReal(b)
    ensures SumReal(IdealQuotas(total, b)) == total as real
  {
    var sum := SumReal(b);
    var e := IdealQuotas(total, b);
    forall i | 0 <= i < |e|
      ensures e[i] * sum == total as real * b[i]
    {
      ExactQuotaAt(total, b[i], sum);
    }
    ScaledSum(e, b, total as real, sum);
    CancelFactor(SumReal(e), total as real, sum, total as real * sum);
  }

  lemma {:induction false} SpreadFromPointwise(q: seq<real>, e: seq<real>)
    requires |q| == |e|
    requires forall i | 0 <= i < |q| :: 2e19 * Abs(q[i] - e[i]) <= 204.0 * e[i]
    ensures 2e19 * Spread(q, e) <= 204.0 * SumReal(e)
  {
    if q != [] {
      SpreadFromPointwise(q[..|q| - 1], e[..|e| - 1]);
    }
  }

  lemma {:induction false} SpreadBoundsSum(q: seq<real>, e: seq<real>)
    requires |q| == |e|
    ensures -Spread(q, e) <= SumReal(q) - SumReal(e) <= Spread(q, e)
  {
    if q != [] {
      SpreadBoundsSum(q[..|q| - 1], e[..|e| - 1]);
    }
  }

  /** A request largestRemainderSplit is called with. */
  ghost predicate Splittable(total: int, basis: seq<real>) {
    0 <= total <= MAX_MONEY && |basis| <= MAX_ITEMS && NonNegative(basis) && 0.0 < SumReal(basis)
  }

  function CodeQuotas(total: int, basis: seq<real>): (q: seq<real>)
    requires Splittable(total, basis)
    ensures |q| == |basis|
  {
    RoundedSumPositive(basis);
    RoundedQuotas(total, basis, RoundedSum(basis))
  }

  function IdealQuotas(total: int, basis: seq<real>): (q: seq<real>)
    requires 0.0 < SumReal(basis)
    ensures |q| == |basis|
  {
    ExactQuotas(total, basis, SumReal(basis))
  }

  lemma CodeQuotaClose(total: int, basis: seq<real>, i: nat)
    requires Splittable(total, basis) && i < |basis|
    ensures 2e19 * Abs(CodeQuotas(total, basis)[i] - IdealQuotas(total, basis)[i])
         <= 204.0 * IdealQuotas(total, basis)[i]
  {
    RoundedSumClose(basis);
    RoundedSumPositive(basis);
    ExactQuotaAt(total, basis[i], SumReal(basis));
    QuotaClose(total, basis[i], RoundedSum(basis), SumReal(basis), IdealQuotas(total, basis)[i]);
  }

  /** All the rounding together moves the quotas by less than 0.103 of a cent. */
  lemma CodeQuotasClose(total: int, basis: seq<real>)
    requires Splittable(total, basis)
    ensures SumReal(IdealQuotas(total, basis)) == total as real
    ensures Spread(CodeQuotas(total, basis), IdealQuotas(total, basis)) <= 0.103
    ensures -0.103 <= SumReal(CodeQuotas(total, basis)) - total as real <= 0.103
  {
    var q, e := CodeQuotas(total, basis), IdealQuotas(total, basis);
    ExactQuotasSum(total, basis);
    forall i | 0 <= i < |q|
      ensures 2e19 * Abs(q[i] - e[i]) <= 204.0 * e[i]
    {
      CodeQuotaClose(total, basis, i);
    }
    SpreadFromPointwise(q, e);
    SpreadBoundsSum(q, e);
  }

  /** The units left after flooring never run below zero or beyond the number of items. */
  lemma RemainderInRange(total: int, basis: seq<real>)
    requires Splittable(total, basis)
    ensures 0 <= total - Sum(Floors(CodeQuotas(total, basis))) <= |basis|
  {
    var q := CodeQuotas(total, basis);
    CodeQuotasClose(total, basis);
    FloorSum(q);
    assert basis != [];
  }

  // ---- The order of the remainder units ------------------------------------------------

  ghost predicate InOrder(q: seq<real>, s: seq<nat>) {
    && (forall a | 0 <= a < |s| :: s[a] < |q|)
    && (forall a, b | 0 <= a < b < |s| :: Beats(q, s[a], s[b]))
  }

  function Insert(q: seq<real>, x: nat, s: seq<nat>): (r: seq<nat>)
    requires x < |q| && (forall a | 0 <= a < |s| :: s[a] < |q|)
    ensures forall k: nat :: k in r <==> k == x || k in s
    ensures |r| == |s| + 1
  {
    if s == [] then [x]
    else if Beats(q, x, s[0]) then [x] + s
    else [s[0]] + Insert(q, x, s[1..])
  }

  /** Indexes sorted by fraction, largest first, ties by ascending index. */
  function RemainderOrder(q: seq<real>, n: nat): (s: seq<nat>)
    requires n <= |q|
    ensures |s| == n && (forall k: nat :: k in s <==> k < n)
    ensures forall a | 0 <= a < n :: s[a] in s
  {
    if n == 0 then [] else Insert(q, n - 1, RemainderOrder(q, n - 1))
  }

  lemma ConsInOrder(q: seq<real>, h: nat, t: seq<nat>)
    requires InOrder(q, t) && h < |q|
    requires forall b | 0 <= b < |t| :: Beats(q, h, t[b])
    ensures InOrder(q, [h] + t)
  {
  }

  lemma {:induction false} InsertKeepsOrder(q: seq<real>, x: nat, s: seq<nat>)
    requires InOrder(q, s) && x < |q| && x !in s
    ensures InOrder(q, Insert(q, x, s))
  {
    if s == [] {
    } else if Beats(q, x, s[0]) {
      ConsInOrder(q, x, s);
    } else {
      InsertKeepsOrder(q, x, s[1..]);
      var t := Insert(q, x, s[1..]);
      forall b | 0 <= b < |t|
        ensures Beats(q, s[0], t[b])
      {
        assert t[b] in t;
      }
      ConsInOrder(q, s[0], t);
    }
  }

  lemma {:induction false} RemainderOrderSorted(q: seq<real>, n: nat)
    requires n <= |q|
    ensures InOrder(q, RemainderOrder(q, n))
  {
    hide Insert, Beats;
    if 0 < n {
      RemainderOrderSorted(q, n - 1);
      InsertKeepsOrder(q, n - 1, RemainderOrder(q, n - 1));
    }
  }

  // ---- largestRemainderSplit -----------------------------------------------------------

  method LargestRemainderSplit(total: int, basis: seq<real>) returns (units: seq<int>, remainder: int)
    requires Splittable(total, basis)
    ensures IsHamilton(total, CodeQuotas(total, basis), units)
    ensures 0 <= remainder <= |basis|
    ensures remainder == total - Sum(Floors(CodeQuotas(total, basis)))
  {
    var quotas := CodeQuotas(total, basis);
    RemainderInRange(total, basis);
    units, remainder := HandOut(total, quotas);
  }

  /** The order of the items and the loop that hands one unit to each item in it. */
  method HandOut(total: int, quotas: seq<real>) returns (units: seq<int>, remainder: int)
    requires 0 <= total - Sum(Floors(quotas)) <= |quotas|
    ensures IsHamilton(total, quotas, units)
    ensures remainder == total - Sum(Floors(quotas))
  {
    var floors := Floors(quotas);
    remainder := total - Sum(floors);
    var unitsToDistribute := remainder;
    var order := RemainderOrder(quotas, |quotas|);
    RemainderOrderSorted(quotas, |quotas|);
    units := floors;
    var i := 0;
    while 0 < unitsToDistribute && i < |order|
      invariant 0 <= i <= |order| && 0 <= unitsToDistribute == remainder - i
      invariant HandedOut(quotas, units, order, i)
      invariant Sum(units) == Sum(floors) + i
    {
      var target := order[i];
      RaiseOne(quotas, units, order, i);
      units := units[target := units[target] + 1];
      unitsToDistribute := unitsToDistribute - 1;
      i := i + 1;
    }
    PrefixRaised(total, quotas, units, order, i);
  }

  /** The first i items of the order have received their unit, the others not. */
  ghost predicate HandedOut(q: seq<real>, units: seq<int>, order: seq<nat>, i: nat) {
    && |units| == |q| && InOrder(q, order) && i <= |order|
    && (forall a | 0 <= a < i :: Raised(q, units, order[a]))
    && (forall a | i <= a < |order| :: Floored(q, units, order[a]))
  }

  lemma RaiseOne(q: seq<real>, units: seq<int>, order: seq<nat>, i: nat)
    requires HandedOut(q, units, order, i) && i < |order|
    ensures HandedOut(q, units[order[i] := units[order[i]] + 1], order, i + 1)
    ensures Sum(units[order[i] := units[order[i]] + 1]) == Sum(units) + 1
  {
    SumUpdate(units, order[i], units[order[i]] + 1);
    forall a | 0 <= a < |order| && a != i
      ensures order[a] != order[i]
    {
      assert if a < i then Beats(q, order[a], order[i]) else Beats(q, order[i], order[a]);
    }
  }

  lemma PrefixRaised(total: int, q: seq<real>, units: seq<int>, order: seq<nat>, i: nat)
    requires HandedOut(q, units, order, i)
    requires forall k: nat :: k in order <==> k < |q|
    requires Sum(units) == total
    ensures IsHamilton(total, q, units)
  {
    forall k: nat | k < |q|
      ensures Floored(q, units, k) || Raised(q, units, k)
    {
      assert k in order;
    }
    forall k: nat, j: nat | k < |q| && j < |q| && Raised(q, units, k) && Floored(q, units, j)
      ensures Beats(q, k, j)
    {
      assert k in order && j in order;
      var a :| 0 <= a < |order| && order[a] == k;
      var b :| 0 <= b < |order| && order[b] == j;
      assert a < i <= b;
    }
  }

  // ---- What the split promises ---------------------------------------------------------

  /** The total is met exactly, nothing is negative, and the split is the closest one to the
      computed quotas; to the exact quotas it is within 0.206 of a cent of the closest one. */
  lemma SplitIsClosest(total: int, basis: seq<real>, units: seq<int>, other: seq<int>)
    requires Splittable(total, basis) && IsHamilton(total, CodeQuotas(total, basis), units)
    requires |other| == |basis| && Sum(other) == total
    ensures Sum(units) == total && (forall i | 0 <= i < |units| :: 0 <= units[i])
    ensures Distance(units, CodeQuotas(total, basis)) <= Distance(other, CodeQuotas(total, basis))
    ensures Distance(units, IdealQuotas(total, basis)) <= Distance(other, IdealQuotas(total, basis)) + 0.206
  {
    var q, e := CodeQuotas(total, basis), IdealQuotas(total, basis);
    HamiltonOptimal(total, q, units, other);
    HamiltonNearlyOptimal(total, q, e, units, other);
    CodeQuotasClose(total, basis);
    forall i | 0 <= i < |units|
      ensures 0 <= units[i]
    {
      EachShare(total, q, units, i);
      CodeQuotaNonNegative(total, basis, i);
    }
  }

  lemma CodeQuotaNonNegative(total: int, basis: seq<real>, i: nat)
    requires Splittable(total, basis) && i < |basis|
    ensures 0.0 <= CodeQuotas(total, basis)[i]
  {
    RoundedSumPositive(basis);
  }

  /** When no rounding happens the split is the closest one to the exact quotas. */
  lemma ExactSplitIsClosest(total: int, basis: seq<real>, units: seq<int>, other: seq<int>)
    requires Splittable(total, basis) && IsHamilton(total, CodeQuotas(total, basis), units)
    requires CodeQuotas(total, basis) == IdealQuotas(total, basis)
    requires |other| == |basis| && Sum(other) == total
    ensures Distance(units, IdealQuotas(total, basis)) <= Distance(other, IdealQuotas(total, basis))
  {
    HamiltonOptimal(total, CodeQuotas(total, basis), units, other);
  }

  lemma ZeroQuota(total: int, b: real, sum: real)
    requires 0 <= total && 0.0 < sum && 0.0 <= b && total as real * b == 0.0
    ensures RoundedQuota(total, b, sum) == 0.0
  {
    assert Round20(0.0) / sum == 0.0;
  }

  lemma NothingWithoutQuota(total: int, basis: seq<real>, units: seq<int>, i: nat)
    requires Splittable(total, basis) && IsHamilton(total, CodeQuotas(total, basis), units)
    requires i < |basis| && CodeQuotas(total, basis)[i] == 0.0
    ensures units[i] == 0
  {
    CodeQuotasClose(total, basis);
    WholeQuotaKept(total, CodeQuotas(total, basis), units, i);
  }

  /** An item without basis gets nothing, however the quotas are rounded. */
  lemma ZeroBasisGetsNothing(total: int, basis: seq<real>, units: seq<int>, i: nat)
    requires Splittable(total, basis) && IsHamilton(total, CodeQuotas(total, basis), units)
    requires i < |basis| && basis[i] == 0.0
    ensures units[i] == 0
  {
    RoundedSumPositive(basis);
    ZeroQuota(total, basis[i], RoundedSum(basis));
    NothingWithoutQuota(total, basis, units, i);
  }

  /** With at most 18 digits per basis value (m and n multiples of the smallest step u), the
      rounding keeps distinct quotas distinct, so a larger basis never gets less. */
  lemma LargerBasisNeverLess(total: int, basis: seq<real>, units: seq<int>, i: nat, j: nat, m: int, n: int, u: real)
    requires Splittable(total, basis) && IsHamilton(total, CodeQuotas(total, basis), units)
    requires i < |basis| && j < |basis| && 0.0 < u
    requires basis[i] == m as real * u && basis[j] == n as real * u
    requires 0 <= n < m <= 1_000_000_000_000_000_000
    ensures units[j] <= units[i]
  {
    RoundedSumPositive(basis);
    var sum := RoundedSum(basis);
    if total == 0 {
      ZeroQuota(total, basis[i], sum);
      ZeroQuota(total, basis[j], sum);
      NothingWithoutQuota(total, basis, units, i);
      NothingWithoutQuota(total, basis, units, j);
    } else {
      LargerBasisLargerQuota(total, basis[i], basis[j], sum, m, n, u);
      LargerQuotaNeverLess(total, CodeQuotas(total, basis), units, i, j);
    }
  }

  lemma QuotaOf(total: int, b: real, sum: real, x: real, p: real)
    requires 0 <= total && 0.0 <= b && 0.0 < sum && 0.0 <= x == total as real * b && p == Round20(x)
    ensures 0.0 <= p / sum && RoundedQuota(total, b, sum) == Round20(p / sum)
  {
    Round20Range(x);
    hide Round20;
    QuotientsInOrder(0.0, p, sum);
  }

  lemma RoundedQuotaMonotone(total: int, b: real, c: real, sum: real)
    requires 0 <= total && 0.0 <= b <= c && 0.0 < sum
    ensures RoundedQuota(total, b, sum) <= RoundedQuota(total, c, sum)
  {
    hide Round20, RoundedQuota;
    var x, y := total as real * b, total as real * c;
    ProductsInOrder(total as real, b, c);
    Round20Monotone(x, y);
    var p, q := Round20(x), Round20(y);
    Round20Range(x);
    QuotaOf(total, b, sum, x, p);
    QuotaOf(total, c, sum, y, q);
    QuotientsInOrder(p, q, sum);
    Round20Monotone(p / sum, q / sum);
  }

  lemma ProductsInOrder(t: real, b: real, c: real)
    requires 0.0 <= t && 0.0 <= b <= c
    ensures 0.0 <= t * b <= t * c
  {
    assert t * c - t * b == t * (c - b);
  }

  lemma QuotientsInOrder(p: real, q: real, d: real)
    requires 0.0 <= p <= q && 0.0 < d
    ensures 0.0 <= p / d <= q / d
  {
    assert q / d - p / d == (q - p) / d;
  }

  /** With more digits than that a larger basis can get less: one unit less, and exactly when an earlier
      item with the same rounded quota is the last of the two to be reached by the remainder. */
  lemma LargerBasisGetsLessIff(total: int, basis: seq<real>, units: seq<int>, i: nat, j: nat)
    requires Splittable(total, basis) && IsHamilton(total, CodeQuotas(total, basis), units)
    requires i < |basis| && j < |basis| && basis[j] < basis[i]
    ensures var q := CodeQuotas(total, basis);
      var remainder := total - Sum(Floors(q));
      && (units[i] < units[j] <==> j < i && q[i] == q[j] && Rank(q, j) < remainder <= Rank(q, i))
      && units[j] <= units[i] + 1
  {
    hide RoundedQuota, Beats, Rank;
    var q := CodeQuotas(total, basis);
    RoundedSumPositive(basis);
    RoundedQuotaMonotone(total, basis[j], basis[i], RoundedSum(basis));
    RaisedIffRanked(total, q, units, i);
    RaisedIffRanked(total, q, units, j);
    EachShare(total, q, units, i);
    EachShare(total, q, units, j);
    if q[j] < q[i] {
      LargerQuotaNeverLess(total, q, units, i, j);
    } else {
      EqualQuotasInOrder(total, q, units, i, j);
    }
  }

  /** One cent over two basis values that agree in their first twenty digits goes to the first. */
  lemma LargerBasisCanGetLess()
    ensures var basis := [1e19, 1e19 + 0.25];
      Splittable(1, basis) && IsHamilton(1, CodeQuotas(1, basis), [1, 0])
  {
    var basis := [1e19, 1e19 + 0.25];
    assert basis[..1] == [1e19] && [1e19][..0] == [];
    assert SumReal(basis) == 2e19 + 0.25;
    assert RoundedSum([1e19]) == 1e19;
    assert RoundedSum(basis) == 2e19;
    Round20Exact(0.5, 1, 5);
    assert Pow10(1) == 10.0;
    var q := CodeQuotas(1, basis);
    assert q[0] == 0.5 && q[1] == 0.5;
    assert [1, 0][..1] == [1] && [1][..0] == [];
    assert Sum([1]) == 1;
  }

  lemma LargerBasisLargerQuota(total: int, b: real, c: real, sum: real, m: int, n: int, u: real)
    requires 0 < total && 0.0 <= b && 0.0 <= c && 0.0 < sum && 0.0 < u
    requires b == m as real * u && c == n as real * u
    requires 0 <= n < m <= 1_000_000_000_000_000_000
    ensures RoundedQuota(total, c, sum) < RoundedQuota(total, b, sum)
  {
    ScaledBasis(total as real, m as real, n as real, u, b, c);
    QuotaGap(total, b, c, sum);
  }

  lemma QuotaGap(total: int, b: real, c: real, sum: real)
    requires 0 < total && 0.0 <= b && 0.0 <= c && 0.0 < sum
    requires (2e19 + 1.0) * (2e19 + 1.0) * (total as real * c) < (2e19 - 1.0) * (2e19 - 1.0) * (total as real * b)
    ensures RoundedQuota(total, c, sum) < RoundedQuota(total, b, sum)
  {
    hide *;
    var x, y := total as real * b, total as real * c;
    QuotaTimesSum(total, b, sum);
    QuotaTimesSum(total, c, sum);
    GapFromProducts(RoundedQuota(total, b, sum), RoundedQuota(total, c, sum), sum, x, y);
  }

  lemma GapFromProducts(p: real, q: real, sum: real, x: real, y: real)
    requires 0.0 < sum
    requires (2e19 - 1.0) * (2e19 - 1.0) * x <= 2e19 * 2e19 * (p * sum)
    requires 2e19 * 2e19 * (q * sum) <= (2e19 + 1.0) * (2e19 + 1.0) * y
    requires (2e19 + 1.0) * (2e19 + 1.0) * y < (2e19 - 1.0) * (2e19 - 1.0) * x
    ensures q < p
  {
    assert q * sum < p * sum;
    LessByFactor(q, p, sum);
  }

  lemma ScaledBasis(t: real, m: real, n: real, u: real, b: real, c: real)
    requires 1.0 <= t && 0.0 < u && 0.0 <= n <= m - 1.0 && m <= 1e18
    requires b == m * u && c == n * u
    ensures (2e19 + 1.0) * (2e19 + 1.0) * (t * c) < (2e19 - 1.0) * (2e19 - 1.0) * (t * b)
  {
    var v := t * u;
    assert 0.0 < v;
    assert t * b == m * v && t * c == n * v;
    ProductLe(n, m - 1.0, v);
    ProductLe(m, 1e18, v);
    assert (m - 1.0) * v == m * v - v;
    SmallRounding(m * v, n * v, v);
  }

  lemma SmallRounding(mv: real, nv: real, v: real)
    requires 0.0 < v && nv <= mv - v && mv <= 1e18 * v
    ensures (2e19 + 1.0) * (2e19 + 1.0) * nv < (2e19 - 1.0) * (2e19 - 1.0) * mv
  {
  }

  lemma LessByFactor(a: real, b: real, sum: real)
    requires 0.0 < sum && a * sum < b * sum
    ensures a < b
  {
    assert a == a * sum / sum && b == b * sum / sum;
  }

  /** As long as the rounded quotas do not add up to less than the total, the remainder is below the
      number of items. */
  lemma RemainderBelowCount(total: int, basis: seq<real>)
    requires Splittable(total, basis) && total as real <= SumReal(CodeQuotas(total, basis))
    ensures total - Sum(Floors(CodeQuotas(total, basis))) < |basis|
  {
    assert basis != [];
    FloorSum(CodeQuotas(total, basis));
  }

  /** Otherwise it can be as large as that: one line of 10069 cents under the
      largest total leaves one unit, because the rounded quota falls below the total. */
  lemma RemainderReachesCount()
    ensures Splittable(MAX_MONEY, [10069.0])
    ensures MAX_MONEY - Sum(Floors(CodeQuotas(MAX_MONEY, [10069.0]))) == 1
  {
    var basis := [10069.0];
    assert basis[..0] == [];
    assert SumReal(basis) == 10069.0;
    Round20Whole(10069);
    assert RoundedSum(basis) == 10069.0;
    var q := CodeQuotas(MAX_MONEY, basis);
    OddQuota();
    assert q[0].Floor == 9999999999999998;
    var f := Floors(q);
    assert f == [9999999999999998];
    assert f[..0] == [];
    assert Sum(f) == 9999999999999998;
  }

  lemma OddQuota()
    ensures RoundedQuota(MAX_MONEY, 10069.0, 10069.0) == 9999999999999998.9999
  {
    var p := 100689999999999989931.0;
    assert MAX_MONEY as real * 10069.0 == p;
    assert Round20(p) == 10.0 * Round20(p / 10.0) == 100689999999999989930.0;
    var z := 100689999999999989930.0 / 10069.0;
    assert (z * 10.0 * 10.0 * 10.0 * 10.0 + 0.5).Floor == 99999999999999989999;
    Round20ScaleTen(z);
    Round20ScaleTen(z * 10.0);
    Round20ScaleTen(z * 10.0 * 10.0);
    Round20ScaleTen(z * 10.0 * 10.0 * 10.0);
  }

  // ---- Each share on its own -----------------------------------------------------------

  /** Every amount is the item's proportional part of the total, to little more than a cent. */
  ghost predicate SharedOut(total: int, basis: seq<real>, amounts: seq<int>)
    requires 0.0 < SumReal(basis)
  {
    && |amounts| == |basis|
    && forall i | 0 <= i < |amounts| :: IsShare(amounts[i] as real, total as real, basis[i], SumReal(basis))
  }

  predicate IsShare(amount: real, total: real, b: real, sum: real)
    requires 0.0 < sum
  {
    -1.11 <= amount - total * b / sum <= 1.11
  }

  lemma SplitSharesOut(total: int, basis: seq<real>, units: seq<int>)
    requires Splittable(total, basis) && IsHamilton(total, CodeQuotas(total, basis), units)
    ensures SharedOut(total, basis, units)
  {
    var q, e := CodeQuotas(total, basis), IdealQuotas(total, basis);
    CodeQuotasClose(total, basis);
    forall i | 0 <= i < |units|
      ensures IsShare(units[i] as real, total as real, basis[i], SumReal(basis))
    {
      SpreadAt(q, e, i);
      EachShare(total, q, units, i);
      assert e[i] == ExactQuota(total, basis[i], SumReal(basis));
    }
  }

  /** Among equals the earlier ones get the cents that are left over. */
  predicate Even(amounts: seq<int>) {
    forall i, j | 0 <= i < j < |amounts| :: amounts[j] <= amounts[i] <= amounts[j] + 1
  }

  lemma EqualBasisEven(total: int, basis: seq<real>, units: seq<int>)
    requires Splittable(total, basis) && IsHamilton(total, CodeQuotas(total, basis), units)
    requires forall i | 0 <= i < |basis| :: basis[i] == basis[0]
    ensures Even(units)
  {
    RoundedSumPositive(basis);
    var q := CodeQuotas(total, basis);
    forall i, j | 0 <= i < j < |units|
      ensures units[j] <= units[i] <= units[j] + 1
    {
      assert basis[i] == basis[j];
      EqualQuotasEven(total, q, units, i, j);
    }
  }
}
