/**
 Largest-remainder (Hamilton) apportionment over arbitrary quotas: what a split is, that it
 is unique, that it is optimal, and how it treats small and large quotas.
 */
module Quotas {

  function Sum(s: seq<int>): int {
    if s == [] then 0 else Sum(s[..|s| - 1]) + s[|s| - 1]
  }

  function SumReal(s: seq<real>): real {
    if s == [] then 0.0 else SumReal(s[..|s| - 1]) + s[|s| - 1]
  }

  function Abs(x: real): real {
    if x < 0.0 then -x else x
  }

  /** The part of a quota above its floor, in [0, 1). */
  function Frac(x: real): real {
    x - x.Floor as real
  }

  /** Item i takes a remainder unit before item j: larger fraction first, then lower index. */
  predicate Beats(q: seq<real>, i: nat, j: nat)
    requires i < |q| && j < |q|
  {
    Frac(q[i]) > Frac(q[j]) || (Frac(q[i]) == Frac(q[j]) && i < j)
  }

  predicate Floored(q: seq<real>, units: seq<int>, i: nat)
    requires i < |q| == |units|
  {
    units[i] == q[i].Floor
  }

  predicate Raised(q: seq<real>, units: seq<int>, i: nat)
    requires i < |q| == |units|
  {
    units[i] == q[i].Floor + 1
  }

  /** Every share is its floor or one more, the raised items come first in the order, and
      the shares add up to the total. */
  ghost predicate IsHamilton(total: int, q: seq<real>, units: seq<int>) {
    && |units| == |q|
    && (forall i: nat | i < |q| :: Floored(q, units, i) || Raised(q, units, i))
    && (forall i: nat, j: nat | i < |q| && j < |q| && Raised(q, units, i) && Floored(q, units, j) :: Beats(q, i, j))
    && Sum(units) == total
  }

  lemma EachShare(total: int, q: seq<real>, units: seq<int>, i: nat)
    requires IsHamilton(total, q, units) && i < |q|
    ensures Floored(q, units, i) || Raised(q, units, i)
  {
  }

  lemma BeatsAsymmetric(q: seq<real>, i: nat, j: nat)
    requires i < |q| && j < |q|
    ensures !(Beats(q, i, j) && Beats(q, j, i))
  {
  }

  // ---- Sums --------------------------------------------------------------------------

  lemma {:induction false} SumUpdate(s: seq<int>, k: nat, v: int)
    requires k < |s|
    ensures Sum(s[k := v]) == Sum(s) - s[k] + v
  {
    var n := |s| - 1;
    if k == n {
      assert s[k := v][..n] == s[..n];
    } else {
      assert s[k := v][..n] == s[..n][k := v];
      SumUpdate(s[..n], k, v);
    }
  }

  /** If no entry of y exceeds the one of x and the sums agree, the sequences agree. */
  lemma {:induction false} SumDominated(x: seq<int>, y: seq<int>)
    requires |x| == |y| && (forall i | 0 <= i < |x| :: y[i] <= x[i])
    ensures Sum(y) <= Sum(x)
    ensures Sum(y) == Sum(x) ==> x == y
  {
    if x != [] {
      var n := |x| - 1;
      SumDominated(x[..n], y[..n]);
      if Sum(y) == Sum(x) {
        assert x == x[..n] + [x[n]] && y == y[..n] + [y[n]];
      }
    }
  }

  // ---- Uniqueness --------------------------------------------------------------------

  /** The rule leaves no freedom: one total and one list of quotas have at most one split. */
  lemma HamiltonUnique(total: int, q: seq<real>, x: seq<int>, y: seq<int>)
    requires IsHamilton(total, q, x) && IsHamilton(total, q, y)
    ensures x == y
  {
    if i: nat :| i < |q| && y[i] < x[i] {
      EachShare(total, q, x, i);
      EachShare(total, q, y, i);
      forall j: nat | j < |q|
        ensures y[j] <= x[j]
      {
        if x[j] < y[j] {
          EachShare(total, q, x, j);
          EachShare(total, q, y, j);
          BeatsAsymmetric(q, i, j);
          assert false;
        }
      }
      SumDominated(x, y);
    } else {
      SumDominated(y, x);
    }
  }

  // ---- Who is raised -----------------------------------------------------------------

  function Floors(q: seq<real>): (f: seq<int>)
    ensures |f| == |q|
    ensures forall i | 0 <= i < |q| :: f[i] == q[i].Floor
  {
    seq(|q|, i requires 0 <= i < |q| => q[i].Floor)
  }

  lemma {:induction false} FloorSum(q: seq<real>)
    ensures Sum(Floors(q)) as real <= SumReal(q)
    ensures q != [] ==> SumReal(q) < Sum(Floors(q)) as real + |q| as real
  {
    if q != [] {
      var n := |q| - 1;
      assert Floors(q)[..n] == Floors(q[..n]);
      FloorSum(q[..n]);
    }
  }

  /** How many items take a remainder unit before item i. */
  function Rank(q: seq<real>, i: nat): nat
    requires i < |q|
  {
    |Ahead(q, i)|
  }

  function Ahead(q: seq<real>, i: nat): set<nat>
    requires i < |q|
  {
    set k: nat | k < |q| && Beats(q, k, i)
  }

  function RaisedItems(q: seq<real>, units: seq<int>, n: nat): set<nat>
    requires n <= |q| == |units|
  {
    set k: nat | k < n && Raised(q, units, k)
  }

  /** What flooring left over is the number of raised items. */
  lemma {:induction false} RaisedCount(q: seq<real>, units: seq<int>, n: nat)
    requires n <= |q| == |units|
    requires forall i: nat | i < |q| :: Floored(q, units, i) || Raised(q, units, i)
    ensures |RaisedItems(q, units, n)| == Sum(units[..n]) - Sum(Floors(q)[..n])
  {
    if n == 0 {
      assert RaisedItems(q, units, 0) == {};
    } else {
      var m := n - 1;
      RaisedCount(q, units, m);
      assert units[..n][..m] == units[..m] && Floors(q)[..n][..m] == Floors(q)[..m];
      assert Floored(q, units, m) || Raised(q, units, m);
      assert RaisedItems(q, units, n)
          == RaisedItems(q, units, m) + if Raised(q, units, m) then {m} else {};
    }
  }

  lemma {:induction false} SubsetSize(a: set<nat>, b: set<nat>)
    requires a <= b
    ensures |a| <= |b|
  {
    if x :| x in a {
      SubsetSize(a - {x}, b - {x});
    }
  }

  /** The remainder reaches exactly the items with fewer items ahead of them. */
  lemma RaisedIffRanked(total: int, q: seq<real>, units: seq<int>, i: nat)
    requires IsHamilton(total, q, units) && i < |q|
    ensures Raised(q, units, i) <==> Rank(q, i) < total - Sum(Floors(q))
  {
    hide Beats, Raised, Floored;
    var raised := RaisedItems(q, units, |q|);
    RaisedCount(q, units, |q|);
    assert units[..|q|] == units && Floors(q)[..|q|] == Floors(q);
    if Raised(q, units, i) {
      forall k | k in Ahead(q, i)
        ensures k in raised && k != i
      {
        EachShare(total, q, units, k);
        BeatsAsymmetric(q, k, i);
      }
      SubsetSize(Ahead(q, i), raised - {i});
    } else {
      EachShare(total, q, units, i);
      forall k | k in raised
        ensures k in Ahead(q, i)
      {
      }
      SubsetSize(raised, Ahead(q, i));
    }
  }

  /** Of two equal quotas the later one never gets more, and gets less exactly when the remainder ends
      between the two. */
  lemma EqualQuotasInOrder(total: int, q: seq<real>, units: seq<int>, i: nat, j: nat)
    requires IsHamilton(total, q, units) && i < |q| && j < |q| && q[i] == q[j]
    ensures var remainder := total - Sum(Floors(q));
      units[i] < units[j] <==> j < i && Rank(q, j) < remainder <= Rank(q, i)
  {
    hide Rank;
    RaisedIffRanked(total, q, units, i);
    RaisedIffRanked(total, q, units, j);
    EachShare(total, q, units, i);
    EachShare(total, q, units, j);
  }

  // ---- Optimality --------------------------------------------------------------------

  function Distance(y: seq<int>, q: seq<real>): real
    requires |y| == |q|
  {
    if y == [] then 0.0
    else Distance(y[..|y| - 1], q[..|q| - 1]) + Abs(y[|y| - 1] as real - q[|y| - 1])
  }

  /** With price c per unit, |m - q| - c * m is least at the chosen share x. */
  predicate BestAtPrice(c: real, q: real, x: int) {
    || (x == q.Floor && 2.0 * Frac(q) <= 1.0 - c)
    || (x == q.Floor + 1 && 1.0 - c <= 2.0 * Frac(q))
  }

  lemma BestShare(c: real, q: real, x: int, m: int)
    requires -1.0 <= c <= 1.0 && BestAtPrice(c, q, x)
    ensures ItemPriced(c, q, x) <= ItemPriced(c, q, m)
  {
    var d := (m - x) as real;
    assert m as real == x as real + d;
    assert c * m as real == c * x as real + c * d;
    if x < m {
      Scaled(c, d);
    } else if m < x {
      Scaled(-c, -d);
      assert (-c) * (-d) == c * d;
    }
  }

  lemma Scaled(c: real, d: real)
    requires c <= 1.0 && 1.0 <= d
    ensures 1.0 - c <= d - c * d
  {
    assert (1.0 - c) * (d - 1.0) >= 0.0;
    assert (1.0 - c) * (d - 1.0) == d - 1.0 - c * d + c;
  }

  /** The distance to the quotas after paying c for every unit. */
  function Priced(c: real, q: seq<real>, y: seq<int>): real
    requires |y| == |q|
  {
    if y == [] then 0.0
    else Priced(c, q[..|q| - 1], y[..|y| - 1]) + ItemPriced(c, q[|q| - 1], y[|y| - 1])
  }

  function ItemPriced(c: real, q: real, m: int): real {
    Abs(m as real - q) - c * m as real
  }

  lemma {:induction false} PricedBest(c: real, q: seq<real>, x: seq<int>, y: seq<int>)
    requires -1.0 <= c <= 1.0 && |q| == |x| == |y|
    requires forall i | 0 <= i < |q| :: BestAtPrice(c, q[i], x[i])
    ensures Priced(c, q, x) <= Priced(c, q, y)
  {
    if q != [] {
      var n := |q| - 1;
      PricedBest(c, q[..n], x[..n], y[..n]);
      BestShare(c, q[n], x[n], y[n]);
    }
  }

  lemma {:induction false} PricedSplit(c: real, q: seq<real>, y: seq<int>)
    requires |y| == |q|
    ensures Priced(c, q, y) == Distance(y, q) - c * Sum(y) as real
  {
    if y == [] {
      assert c * Sum(y) as real == 0.0;
    } else {
      var n := |y| - 1;
      PricedSplit(c, q[..n], y[..n]);
      Distribute(c, Sum(y[..n]), y[n], Sum(y));
    }
  }

  lemma Distribute(c: real, a: int, b: int, sum: int)
    requires sum == a + b
    ensures c * sum as real == c * a as real + c * b as real
  {
    assert sum as real == a as real + b as real;
  }

  /** A price per unit at which every chosen share is the best one: it is set by the lowest
      fraction that was raised. */
  lemma CutoffPrice(total: int, q: seq<real>, x: seq<int>) returns (c: real)
    requires IsHamilton(total, q, x)
    ensures -1.0 <= c <= 1.0
    ensures forall i | 0 <= i < |q| :: BestAtPrice(c, q[i], x[i])
  {
    if i: nat :| i < |q| && Raised(q, x, i) {
      var low := LowestRaised(q, x, i, |q|);
      c := 1.0 - 2.0 * Frac(q[low]);
      forall j | 0 <= j < |q|
        ensures BestAtPrice(c, q[j], x[j])
      {
        EachShare(total, q, x, j);
        if Floored(q, x, j) {
          assert Beats(q, low, j);
        }
      }
    } else {
      c := -1.0;
      forall j | 0 <= j < |q|
        ensures BestAtPrice(c, q[j], x[j])
      {
        EachShare(total, q, x, j);
      }
    }
  }

  lemma {:induction false} LowestRaised(q: seq<real>, x: seq<int>, i: nat, n: nat) returns (low: nat)
    requires |x| == |q| && n <= |q| && i < |q| && Raised(q, x, i)
    ensures low < |q| && Raised(q, x, low)
    ensures Frac(q[low]) <= Frac(q[i])
    ensures forall j: nat | j < n && Raised(q, x, j) :: Frac(q[low]) <= Frac(q[j])
    decreases n
  {
    if n == 0 {
      low := i;
    } else {
      low := LowestRaised(q, x, i, n - 1);
      if Raised(q, x, n - 1) && Frac(q[n - 1]) < Frac(q[low]) {
        low := n - 1;
      }
    }
  }

  lemma CheaperIsCloser(c: real, q: seq<real>, x: seq<int>, y: seq<int>)
    requires |x| == |y| == |q| && Sum(x) == Sum(y)
    requires Priced(c, q, x) <= Priced(c, q, y)
    ensures Distance(x, q) <= Distance(y, q)
  {
    hide Priced, Distance, Sum;
    var s := Sum(x) as real;
    PricedAt(c, q, x, s, c * s);
    PricedAt(c, q, y, s, c * s);
  }

  lemma PricedAt(c: real, q: seq<real>, y: seq<int>, s: real, p: real)
    requires |y| == |q| && s == Sum(y) as real && p == c * s
    ensures Priced(c, q, y) == Distance(y, q) - p
  {
    hide Priced, Distance, Sum;
    PricedSplit(c, q, y);
  }

  /** No other integer split of the same total is closer to the quotas. */
  lemma HamiltonOptimal(total: int, q: seq<real>, x: seq<int>, y: seq<int>)
    requires IsHamilton(total, q, x)
    requires |y| == |q| && Sum(y) == total
    ensures Distance(x, q) <= Distance(y, q)
  {
    var c := CutoffPrice(total, q, x);
    PricedBest(c, q, x, y);
    CheaperIsCloser(c, q, x, y);
  }

  // ---- Fairness ----------------------------------------------------------------------

  /** A larger quota never gets the smaller share. */
  lemma LargerQuotaNeverLess(total: int, q: seq<real>, x: seq<int>, i: nat, j: nat)
    requires IsHamilton(total, q, x)
    requires i < |q| && j < |q| && q[j] < q[i]
    ensures x[j] <= x[i]
  {
    EachShare(total, q, x, i);
    EachShare(total, q, x, j);
    if q[i].Floor == q[j].Floor && Floored(q, x, i) && Raised(q, x, j) {
      assert false;
    }
  }

  function Excess(x: seq<int>, q: seq<real>): real
    requires |x| == |q|
  {
    if x == [] then 0.0
    else Excess(x[..|x| - 1], q[..|q| - 1]) + (x[|x| - 1] as real - q[|x| - 1])
  }

  lemma {:induction false} ExcessIsDifference(x: seq<int>, q: seq<real>)
    requires |x| == |q|
    ensures Excess(x, q) == Sum(x) as real - SumReal(q)
  {
    if x != [] {
      ExcessIsDifference(x[..|x| - 1], q[..|q| - 1]);
    }
  }

  lemma {:induction false} ExcessAtLeastOne(x: seq<int>, q: seq<real>, i: nat)
    requires i < |x| == |q|
    requires forall j | 0 <= j < |x| :: q[j] <= x[j] as real
    requires q[i] + 1.0 <= x[i] as real
    ensures 1.0 <= Excess(x, q)
    decreases |x|
  {
    var n := |x| - 1;
    if i == n {
      ExcessNonNegative(x[..n], q[..n]);
    } else {
      ExcessAtLeastOne(x[..n], q[..n], i);
    }
  }

  lemma {:induction false} ExcessNonNegative(x: seq<int>, q: seq<real>)
    requires |x| == |q|
    requires forall j | 0 <= j < |x| :: q[j] <= x[j] as real
    ensures 0.0 <= Excess(x, q)
  {
    if x != [] {
      ExcessNonNegative(x[..|x| - 1], q[..|q| - 1]);
    }
  }

  /** While the quotas add up to more than one unit below the total, an item whose quota is
      already whole is never raised; in particular a zero quota gets nothing. */
  lemma WholeQuotaKept(total: int, q: seq<real>, x: seq<int>, i: nat)
    requires IsHamilton(total, q, x)
    requires total as real - 1.0 < SumReal(q)
    requires i < |q| && Frac(q[i]) == 0.0
    ensures x[i] as real == q[i]
  {
    if Raised(q, x, i) {
      forall j: nat | j < |q|
        ensures q[j] <= x[j] as real
      {
        if Floored(q, x, j) {
          assert Beats(q, i, j);
        }
      }
      ExcessAtLeastOne(x, q, i);
      ExcessIsDifference(x, q);
      assert false;
    }
  }

  // ---- Quotas that differ a little -----------------------------------------------------

  /** The distance to two lists of quotas differs by at most what the lists differ. */
  lemma {:induction false} DistanceShift(x: seq<int>, q: seq<real>, e: seq<real>)
    requires |x| == |q| == |e|
    ensures Distance(x, e) <= Distance(x, q) + Spread(q, e)
    ensures Distance(x, q) <= Distance(x, e) + Spread(q, e)
  {
    if x != [] {
      DistanceShift(x[..|x| - 1], q[..|q| - 1], e[..|e| - 1]);
    }
  }

  function Spread(q: seq<real>, e: seq<real>): real
    requires |q| == |e|
  {
    if q == [] then 0.0
    else Spread(q[..|q| - 1], e[..|e| - 1]) + Abs(q[|q| - 1] - e[|q| - 1])
  }

  /** Optimal for the computed quotas means optimal for the exact ones up to twice their spread. */
  lemma HamiltonNearlyOptimal(total: int, q: seq<real>, e: seq<real>, x: seq<int>, y: seq<int>)
    requires IsHamilton(total, q, x)
    requires |y| == |q| == |e| && Sum(y) == total
    ensures Distance(x, e) <= Distance(y, e) + 2.0 * Spread(q, e)
  {
    HamiltonOptimal(total, q, x, y);
    DistanceShift(x, q, e);
    DistanceShift(y, q, e);
  }

  /** Of two equal quotas the earlier one gets the same, or one more. */
  lemma EqualQuotasEven(total: int, q: seq<real>, x: seq<int>, i: nat, j: nat)
    requires IsHamilton(total, q, x) && i < j < |q| && q[i] == q[j]
    ensures x[j] <= x[i] <= x[j] + 1
  {
    EachShare(total, q, x, i);
    EachShare(total, q, x, j);
    if Raised(q, x, j) && Floored(q, x, i) {
      assert false;
    }
  }

  lemma {:induction false} SpreadAt(q: seq<real>, e: seq<real>, i: nat)
    requires i < |q| == |e|
    ensures 0.0 <= Spread(q, e) && Abs(q[i] - e[i]) <= Spread(q, e)
    decreases |q|
  {
    var n := |q| - 1;
    SpreadNonNegative(q[..n], e[..n]);
    if i < n {
      SpreadAt(q[..n], e[..n], i);
    }
  }

  lemma {:induction false} SpreadNonNegative(q: seq<real>, e: seq<real>)
    requires |q| == |e|
    ensures 0.0 <= Spread(q, e)
  {
    if q != [] {
      SpreadNonNegative(q[..|q| - 1], e[..|e| - 1]);
    }
  }
}
