/**
 Splitting a lot (apps/api/src/movements/movement-domain.ts).  Weights are in units of 1e-9
 gram, money in units of 1e-4; a stored column holds at most 18 digits.
 */
module Disposal {
  import opened Decimals
  import opened Weights
  import opened Results

  const MAX_STORED: int := 999_999_999_999_999_999
  const MAX_SAFE_INTEGER: int := 9_007_199_254_740_991

  datatype Balance = Balance(quantity: int, fine: int, gross: int, cost: int)

  datatype Split = Split(taken: Balance, remaining: Balance)

  datatype MovementError = BadQuantity | NothingLeft | TooMany | NegativeAmount

  predicate Stored(b: Balance) {
    && 0 <= b.fine <= MAX_STORED && 0 <= b.gross <= MAX_STORED && 0 <= b.cost <= MAX_STORED
    && b.quantity <= MAX_SAFE_INTEGER
  }

  const EMPTY := Balance(0, 0, 0, 0)

  function Add(a: Balance, b: Balance): Balance {
    Balance(a.quantity + b.quantity, a.fine + b.fine, a.gross + b.gross, a.cost + b.cost)
  }

  /** q / Q to 20 significant digits. */
  function Share(quantity: int, held: int): (s: real)
    requires 0 < quantity <= held
    ensures 0.0 <= s <= 1.0
  {
    var x := quantity as real / held as real;
    ShareAtMostOne(quantity, held);
    Round20(x)
  }

  lemma ShareAtMostOne(quantity: int, held: int)
    requires 0 < quantity <= held
    ensures 0.0 <= quantity as real / held as real <= 1.0
    ensures 0.0 <= Round20(quantity as real / held as real) <= 1.0
  {
    var x := quantity as real / held as real;
    QuotientAtMostOne(quantity as real, held as real);
    Round20Range(x);
    Round20Monotone(x, 1.0);
    Round20Whole(1);
  }

  lemma QuotientAtMostOne(a: real, b: real)
    requires 0.0 <= a <= b && 0.0 < b
    ensures 0.0 <= a / b <= 1.0
  {
  }

  /** The part of a stored amount that leaves: rounded product, then the stored scale. */
  function Portion(x: int, share: real): (p: int)
    requires 0 <= x <= MAX_STORED && 0.0 <= share <= 1.0
    ensures 0 <= p <= x
  {
    var y := x as real * share;
    PortionWithin(x, share, y);
    HalfEven(Round20(y))
  }

  lemma PortionWithin(x: int, share: real, y: real)
    requires 0 <= x <= MAX_STORED && 0.0 <= share <= 1.0 && y == x as real * share
    ensures 0.0 <= y <= x as real
    ensures 0.0 <= Round20(y)
    ensures HalfEven(Round20(y)) <= x
  {
    PartOf(x as real, share, y);
    RoundedWithin(x, y);
  }

  lemma RoundedWithin(x: int, y: real)
    requires 0 <= x <= MAX_STORED && 0.0 <= y <= x as real
    ensures 0.0 <= Round20(y)
    ensures HalfEven(Round20(y)) <= x
  {
    Round20Range(y);
    Round20Monotone(y, x as real);
    Round20Whole(x);
    HalfEvenMonotone(Round20(y), x as real);
  }

  function SplitForDisposal(b: Balance, quantity: int): (r: Result<Split, MovementError>)
    requires Stored(b)
  {
    if quantity <= 0 || MAX_SAFE_INTEGER < quantity then Err(BadQuantity)
    else if b.quantity <= 0 then Err(NothingLeft)
    else if b.quantity < quantity then Err(TooMany)
    else if quantity == b.quantity then Ok(Split(b, EMPTY))
    else
      var share := Share(quantity, b.quantity);
      var fine := Portion(b.fine, share);
      var gross := Portion(b.gross, share);
      var cost := Portion(b.cost, share);
      Ok(Split(Balance(quantity, fine, gross, cost),
               Balance(b.quantity - quantity, b.fine - fine, b.gross - gross, b.cost - cost)))
  }

  /** The parts add up to the whole, neither is negative, and nothing stays on an empty lot. */
  lemma SplitConserves(b: Balance, quantity: int)
    requires Stored(b) && SplitForDisposal(b, quantity).Ok?
    ensures var s := SplitForDisposal(b, quantity).value;
      && Add(s.taken, s.remaining) == b
      && Stored(s.taken) && Stored(s.remaining)
      && s.taken.quantity == quantity > 0 && 0 <= s.remaining.quantity
      && (s.remaining.quantity == 0 <==> quantity == b.quantity)
      && (s.remaining.quantity == 0 ==> s.remaining == EMPTY)
  {
  }

  // ---- Fine weight stays within gross weight -------------------------------------------

  /** Fine and gross weight are equal, or so far apart that the rounding of the products cannot reorder
      what remains of them. */
  predicate Spaced(f: int, g: int, held: int) {
    f == g || held * (2 * g + (g - f)) <= 20_000_000_000_000_000_000 * (g - f)
  }

  /** What remains of a larger weight is never less. */
  lemma RemainderMonotone(f: int, g: int, quantity: int, held: int)
    requires 0 <= f <= g <= MAX_STORED && 0 < quantity < held && Spaced(f, g, held)
    ensures f - Portion(f, Share(quantity, held)) <= g - Portion(g, Share(quantity, held))
  {
    if f < g {
      ShareBelowOne(quantity, held);
      var s, d := Share(quantity, held), (g - f) as real;
      RoomInShare(f, g, held, d, 1.0 - s, (1.0 - s) * d);
      PortionsClose(f, g, s);
    }
  }

  lemma PortionsClose(f: int, g: int, s: real)
    requires 0 <= f < g <= MAX_STORED && 0.0 <= s < 1.0
    requires 2.0 * g as real <= 2e19 * ((1.0 - s) * (g - f) as real)
    ensures Portion(g, s) <= Portion(f, s) + (g - f)
  {
    hide Round20, HalfEven;
    var x, y := f as real * s, g as real * s;
    PortionWithin(f, s, x);
    PortionWithin(g, s, y);
    RoundedClose(f as real, g as real, s, x, y);
    HalfEvenLipschitz(Round20(x), Round20(y), g - f);
  }

  lemma RoundedClose(f: real, g: real, s: real, x: real, y: real)
    requires 0.0 <= f < g && 0.0 <= s < 1.0
    requires 0.0 <= x == f * s && 0.0 <= y == g * s
    requires 2.0 * g <= 2e19 * ((1.0 - s) * (g - f))
    ensures Round20(y) < Round20(x) + (g - f)
  {
    Round20Error(x);
    Round20Error(y);
    CloseProducts(f, g, s, x, y, Round20(x), Round20(y));
  }

  /** The share of a proper part leaves at least one piece, up to its own rounding. */
  lemma ShareBelowOne(quantity: int, held: int)
    requires 0 < quantity < held
    ensures 2e19 - held as real <= 2e19 * ((1.0 - Share(quantity, held)) * held as real)
    ensures held < 20_000_000_000_000_000_000 ==> Share(quantity, held) < 1.0
  {
    var x, h := quantity as real / held as real, held as real;
    ShareAtMostOne(quantity, held);
    Round20Error(x);
    ShareLeaves(quantity as real, h, x, Round20(x));
    if Share(quantity, held) >= 1.0 {
      ProductLe(1.0 - Share(quantity, held), 0.0, h);
    }
  }

  lemma ShareLeaves(q: real, h: real, x: real, s: real)
    requires 0.0 <= q <= h - 1.0 && 0.0 < h && x == q / h && 0.0 <= x <= 1.0
    requires 2e19 * s <= (2e19 + 1.0) * x
    ensures 2e19 - h <= 2e19 * ((1.0 - s) * h)
  {
    assert x * h == q;
    ProductLe(2e19 * s, 2e19 * x + 1.0, h);
    assert (2e19 * x + 1.0) * h == 2e19 * (x * h) + h;
    assert 2e19 * s * h == 2e19 * (s * h);
    assert (1.0 - s) * h == h - s * h;
  }

  lemma RoomInShare(f: int, g: int, held: int, d: real, r: real, rd: real)
    requires 0 <= f < g && 0 < held && Spaced(f, g, held)
    requires d == (g - f) as real && rd == r * d
    requires 2e19 - held as real <= 2e19 * (r * held as real)
    ensures held < 20_000_000_000_000_000_000
    ensures 2.0 * g as real <= 2e19 * rd
  {
    var h, w := held as real, 2.0 * g as real;
    assert h * (w + d) <= 2e19 * d by {
      assert (held * (2 * g + (g - f))) as real == h * (w + d);
      assert (20_000_000_000_000_000_000 * (g - f)) as real == 2e19 * d;
    }
    FewPieces(h, w, d);
    ProductLe(2e19 - h, 2e19 * (r * h), d);
    assert (2e19 - h) * d == 2e19 * d - h * d;
    assert 2e19 * (r * h) * d == 2e19 * rd * h;
    assert h * (w + d) == w * h + h * d;
    assert (2e19 * rd - w) * h == 2e19 * rd * h - w * h;
    NonNegativeFactor(2e19 * rd - w, h);
  }

  lemma FewPieces(h: real, w: real, d: real)
    requires 0.0 < h && 0.0 < d && d <= w && h * (w + d) <= 2e19 * d
    ensures h < 2e19
  {
    ProductLe(2.0 * d, w + d, h);
    if 2e19 <= h {
      ProductLe(2e19, h, d);
    }
  }

  lemma NonNegativeFactor(a: real, h: real)
    requires 0.0 < h && 0.0 <= a * h
    ensures 0.0 <= a
  {
    assert a == a * h / h;
  }

  lemma CloseProducts(f: real, g: real, s: real, x: real, y: real, a: real, b: real)
    requires 0.0 <= f < g && 0.0 <= s < 1.0 && x == f * s && y == g * s
    requires 2.0 * g <= 2e19 * ((1.0 - s) * (g - f))
    requires (2e19 - 1.0) * x <= 2e19 * a <= (2e19 + 1.0) * x
    requires (2e19 - 1.0) * y <= 2e19 * b <= (2e19 + 1.0) * y
    ensures b < a + (g - f)
  {
    ProductLe(s, 1.0, f);
    var d := g - f;
    assert y - x == d * s;
    assert y < g by {
      assert g - y == g * (1.0 - s);
      PositiveProduct(g, 1.0 - s);
    }
    assert (1.0 - s) * d == d - d * s;
    LinearGap(f, g, d - (y - x), x, y, a, b);
  }

  /** left is what the share leaves of the difference. */
  lemma LinearGap(f: real, g: real, left: real, x: real, y: real, a: real, b: real)
    requires 0.0 <= f < g && x <= f && y < g
    requires 2.0 * g <= 2e19 * left && left == g - f - (y - x)
    requires (2e19 - 1.0) * x <= 2e19 * a
    requires 2e19 * b <= (2e19 + 1.0) * y
    ensures b < a + (g - f)
  {
  }

  lemma PositiveProduct(a: real, b: real)
    requires 0.0 < a && 0.0 < b
    ensures 0.0 < a * b
  {
  }

  /** Rounding to even moves two values less than d apart by at most d. */
  lemma HalfEvenLipschitz(a: real, b: real, d: int)
    requires 0.0 <= a && 0.0 <= b < a + d as real
    ensures HalfEven(b) <= HalfEven(a) + d
  {
  }

  /** Were the product of weight and share exact, the remainder would keep fine within gross for every
      weight: only the rounding of the product to 20 digits can reorder them. */
  lemma ExactRemainderMonotone(f: int, g: int, s: real)
    requires 0 <= f <= g && 0.0 <= s < 1.0
    ensures 0.0 <= f as real * s && 0.0 <= g as real * s
    ensures f - HalfEven(f as real * s) <= g - HalfEven(g as real * s)
  {
    hide HalfEven;
    var x, y := f as real * s, g as real * s;
    PartOf(f as real, s, x);
    PartOf(g as real, s, y);
    if f < g {
      SharesClose(f as real, g as real, s, x, y);
      HalfEvenLipschitz(x, y, g - f);
    } else {
      assert f == g && x == y;
    }
  }

  lemma SharesClose(f: real, g: real, s: real, x: real, y: real)
    requires f < g && 0.0 <= s < 1.0 && x == f * s && y == g * s
    ensures y < x + (g - f)
  {
    var d := g - f;
    var left := d * (1.0 - s);
    PositiveProduct(d, 1.0 - s);
    assert left == d - (y - x);
  }

  // ---- The order of the weights lasts ----------------------------------------------------

  /** What every balance the ledger can hold satisfies: fine weight enters as gross weight times a purity
      of seven decimals, and each piece taken since can have shifted the two by little. */
  predicate Ordered(b: Balance) {
    && 0 <= b.fine <= b.gross && b.quantity <= MAX_PIECES
    && (b.fine == b.gross || b.gross <= 10_000_000 * (b.gross - b.fine) + 12_000_000 * (MAX_PIECES + 1 - b.quantity))
  }

  lemma OrderedSpaced(b: Balance)
    requires Ordered(b) && 0 < b.quantity
    ensures Spaced(b.fine, b.gross, b.quantity)
  {
    if b.fine < b.gross {
      RoomForAll(b.quantity, b.gross, b.gross - b.fine, MAX_PIECES + 1 - b.quantity);
    }
  }

  lemma RoomForAll(q: int, g: int, d: int, rest: int)
    requires 0 < q <= MAX_PIECES && 0 < d && rest == MAX_PIECES + 1 - q
    requires g <= 10_000_000 * d + 12_000_000 * rest
    ensures q * (2 * g + d) <= 20_000_000_000_000_000_000 * d
  {
    var qd, qr := q * d, q * rest;
    FactorsOfSum(q, rest, MAX_PIECES + 1);
    ProductUpTo(2 * g + d, 20_000_001 * d + 24_000_000 * rest, q);
    assert (20_000_001 * d + 24_000_000 * rest) * q == 20_000_001 * qd + 24_000_000 * qr;
    ProductUpTo(q, MAX_PIECES, d);
  }

  lemma FactorsOfSum(a: int, b: int, n: int)
    requires a + b == n
    ensures 4 * (a * b) <= n * n
  {
    var c := a - b;
    assert n * n == c * c + 4 * (a * b);
  }

  lemma ProductUpTo(x: int, y: int, v: int)
    requires x <= y && 0 <= v
    ensures x * v <= y * v
  {
  }

  /** A portion leaves its proportional remainder, up to little more than half a unit. */
  lemma RemainderNear(x: int, s: real, left: real)
    requires 0 <= x <= MAX_STORED && 0.0 <= s <= 1.0 && left == (1.0 - s) * x as real
    ensures -0.55 <= (x - Portion(x, s)) as real - left <= 0.55
  {
    hide Portion;
    var y := x as real * s;
    PortionWithin(x, s, y);
    assert left == x as real - y;
    Round20Error(y);
    PortionNear(x, s, y);
  }

  lemma PortionNear(x: int, s: real, y: real)
    requires 0 <= x <= MAX_STORED && 0.0 <= s <= 1.0 && y == x as real * s
    requires 0.0 <= y <= x as real
    requires 0.0 <= Round20(y) && (2e19 - 1.0) * y <= 2e19 * Round20(y) <= (2e19 + 1.0) * y
    ensures -0.55 <= Portion(x, s) as real - y <= 0.55
  {
    assert -0.05 <= Round20(y) - y <= 0.05;
    assert Portion(x, s) == HalfEven(Round20(y));
  }

  /** No disposal disturbs the order: not one, and so not any number of them. */
  lemma SplitKeepsOrdered(b: Balance, quantity: int)
    requires Stored(b) && Ordered(b) && SplitForDisposal(b, quantity).Ok?
    ensures Ordered(SplitForDisposal(b, quantity).value.remaining)
  {
    hide Portion, Share, Spaced;
    if quantity < b.quantity {
      var s := Share(quantity, b.quantity);
      OrderedSpaced(b);
      RemainderMonotone(b.fine, b.gross, quantity, b.quantity);
      if b.fine < b.gross {
        var fine, gross, r := b.fine - Portion(b.fine, s), b.gross - Portion(b.gross, s), 1.0 - s;
        RemainderNear(b.fine, s, r * b.fine as real);
        RemainderNear(b.gross, s, r * b.gross as real);
        SpacingLasts(b, fine, gross, quantity, r, r * b.fine as real, r * b.gross as real);
      }
    }
  }

  lemma SpacingLasts(b: Balance, fine: int, gross: int, quantity: int, r: real, rf: real, rg: real)
    requires 0 < quantity < b.quantity <= MAX_PIECES && 0.0 <= r <= 1.0
    requires rf == r * b.fine as real && rg == r * b.gross as real
    requires -0.55 <= fine as real - rf <= 0.55 && -0.55 <= gross as real - rg <= 0.55
    requires b.gross <= 10_000_000 * (b.gross - b.fine) + 12_000_000 * (MAX_PIECES + 1 - b.quantity)
    ensures gross <= 10_000_000 * (gross - fine) + 12_000_000 * (MAX_PIECES + 1 - (b.quantity - quantity))
  {
    var slack := 12_000_000 * (MAX_PIECES + 1 - b.quantity);
    ScaledSpacing(b.fine as real, b.gross as real, slack as real, r, rf, rg);
    assert gross as real <= 1e7 * (gross as real - fine as real) + slack as real + 12e6;
  }

  lemma ScaledSpacing(f: real, g: real, slack: real, r: real, rf: real, rg: real)
    requires 0.0 <= r <= 1.0 && 0.0 <= slack && rf == r * f && rg == r * g
    requires g <= 1e7 * (g - f) + slack
    ensures rg <= 1e7 * (rg - rf) + slack
  {
    var rs, x := slack * r, 1e7 * (g - f) + slack - g;
    var rx := x * r;
    PartOf(slack, r, rs);
    ProductLe(0.0, x, r);
    assert 0.0 <= rx;
    Distributed(f, g, slack, r, rf, rg, rs, x, rx);
  }

  lemma Distributed(f: real, g: real, slack: real, r: real, rf: real, rg: real, rs: real, x: real, rx: real)
    requires rf == r * f && rg == r * g && rs == slack * r && rx == x * r
    requires x == 1e7 * (g - f) + slack - g
    ensures rx == 1e7 * (rg - rf) + rs - rg
  {
    assert (g - f) * r == rg - rf;
    var y := 1e7 * (g - f);
    assert y * r == 1e7 * (rg - rf);
    assert x * r == y * r + slack * r - g * r;
  }

  // ---- Drift of the remaining cost -----------------------------------------------------

  /** The cost left after a run of partial disposals and nothing else. */
  function CostAfter(cost: int, held: int, parts: seq<int>): (c: int)
    requires 0 <= cost <= MAX_STORED && Partial(held, parts)
    ensures 0 <= c <= cost
    decreases |parts|
  {
    if parts == [] then cost
    else CostAfter(cost - Portion(cost, Share(parts[0], held)), held - parts[0], parts[1..])
  }

  /** Every part is positive and something is left after all of them. */
  predicate Partial(held: int, parts: seq<int>)
    decreases |parts|
  {
    if parts == [] then 0 < held
    else 0 < parts[0] < held && Partial(held - parts[0], parts[1..])
  }

  function Left(held: int, parts: seq<int>): (l: int)
    requires Partial(held, parts)
    ensures 0 < l <= held
    decreases |parts|
  {
    if parts == [] then held else Left(held - parts[0], parts[1..])
  }

  /** Half a unit of 1e-4, plus what the two 20-digit roundings can add. */
  function OneStep(cost: int): real {
    0.5 + cost as real / 1e19
  }

  function Ideal(cost: int, left: int, held: int): real
    requires 0 < held
  {
    cost as real * (left as real / held as real)
  }

  /** After k partial disposals the remaining cost is within k steps of the proportional cost. */
  lemma {:induction false} CostDrift(cost: int, held: int, parts: seq<int>)
    requires 0 <= cost <= MAX_STORED && Partial(held, parts)
    ensures var drift := CostAfter(cost, held, parts) as real - Ideal(cost, Left(held, parts), held);
      -(|parts| as real * OneStep(cost)) <= drift <= |parts| as real * OneStep(cost)
    decreases |parts|
  {
    hide Portion, Share, Ideal, OneStep;
    if parts == [] {
      IdealWhole(cost, held);
    } else {
      var q, rest := parts[0], held - parts[0];
      var next := cost - Portion(cost, Share(q, held));
      CostDrift(next, rest, parts[1..]);
      OneDisposal(cost, held, q);
      var k, less, step := |parts[1..]| as real, OneStep(next), OneStep(cost);
      var few, before, all := k * less, k * step, |parts| as real * step;
      SmallerStep(next, cost);
      MoreSteps(k, less, step, few, before, all);
      Combine(cost, next, CostAfter(cost, held, parts), held, rest, Left(held, parts), before, step);
    }
  }

  lemma SmallerStep(less: int, cost: int)
    requires 0 <= less <= cost
    ensures 0.0 <= OneStep(less) <= OneStep(cost)
  {
  }

  lemma MoreSteps(k: real, less: real, step: real, few: real, before: real, all: real)
    requires 0.0 <= k && less <= step && few == k * less && before == k * step && all == (k + 1.0) * step
    ensures few <= before && all == before + step
  {
    ProductLe(less, step, k);
  }

  lemma IdealWhole(cost: int, held: int)
    requires 0 < held
    ensures Ideal(cost, held, held) == cost as real
  {
    assert held as real / held as real == 1.0;
  }

  /** The cost left by one disposal differs from the proportional one by at most one step. */
  lemma OneDisposal(cost: int, held: int, q: int)
    requires 0 <= cost <= MAX_STORED && 0 < q < held
    ensures var next := cost - Portion(cost, Share(q, held));
      -OneStep(cost) <= next as real - Ideal(cost, held - q, held) <= OneStep(cost)
  {
    var x := q as real / held as real;
    QuotientAtMostOne(q as real, held as real);
    IdealAfter(cost, held, q, x);
    var y := cost as real * Share(q, held);
    ShareError(cost as real, x, cost as real * x, y);
    OnePortion(cost, Share(q, held), y, cost as real * x);
  }

  lemma IdealAfter(cost: int, held: int, q: int, x: real)
    requires 0 < q < held && x == q as real / held as real
    ensures Ideal(cost, held - q, held) == cost as real - cost as real * x
  {
    ComplementaryQuotient(q as real, held as real);
    var c := cost as real;
    assert c * (1.0 - x) == c - c * x;
  }

  lemma ComplementaryQuotient(a: real, b: real)
    requires 0.0 <= a <= b && 0.0 < b
    ensures 0.0 <= a / b <= 1.0
    ensures (b - a) / b == 1.0 - a / b
  {
    var w, z := a / b, (b - a) / b;
    assert w * b == a && z * b == b - a;
    assert (1.0 - w) * b == b - w * b;
    CancelFactor(z, 1.0 - w, b, b - a);
  }

  lemma OnePortion(cost: int, s: real, y: real, exact: real)
    requires 0 <= cost <= MAX_STORED && 0.0 <= s <= 1.0 && y == cost as real * s
    requires -(cost as real) <= 2e19 * (y - exact) <= cost as real
    ensures -OneStep(cost) <= exact - Portion(cost, s) as real <= OneStep(cost)
  {
    PortionWithin(cost, s, cost as real * s);
    RoundedPortion(cost, cost as real * s, exact);
  }

  lemma ShareError(c: real, x: real, exact: real, y: real)
    requires 0.0 <= c && 0.0 <= x <= 1.0 && exact == c * x && y == c * Round20(x)
    ensures -c <= 2e19 * (y - exact) <= c
  {
    Round20Error(x);
    ProductNear(c, x, Round20(x), exact, y);
  }

  lemma RoundedPortion(cost: int, y: real, exact: real)
    requires 0.0 <= y <= cost as real
    requires -(cost as real) <= 2e19 * (y - exact) <= cost as real
    ensures 0.0 <= Round20(y)
    ensures -OneStep(cost) <= exact - HalfEven(Round20(y)) as real <= OneStep(cost)
  {
    Round20Range(y);
    Round20Error(y);
  }

  lemma ProductNear(c: real, x: real, s: real, exact: real, y: real)
    requires 0.0 <= c && 0.0 <= x <= 1.0 && exact == c * x && y == c * s
    requires (2e19 - 1.0) * x <= 2e19 * s <= (2e19 + 1.0) * x
    ensures -c <= 2e19 * (y - exact) <= c
  {
    var e := 2e19 * (s - x);
    assert -x <= e <= x;
    assert 2e19 * (y - exact) == c * e;
    assert c - c * e == c * (1.0 - e);
    assert c + c * e == c * (1.0 + e);
  }

  lemma Combine(cost: int, next: int, last: int, held: int, rest: int, left: int, more: real, step: real)
    requires 0 < left <= rest < held
    requires -more <= last as real - Ideal(next, left, rest) <= more
    requires -step <= next as real - Ideal(cost, rest, held) <= step && 0.0 <= step
    ensures -(more + step) <= last as real - Ideal(cost, left, held) <= more + step
  {
    var r := left as real / rest as real;
    QuotientAtMostOne(left as real, rest as real);
    ChainQuotient(left as real, rest as real, held as real);
    var d := next as real - Ideal(cost, rest, held);
    Distribute(cost as real, rest as real / held as real, r, next as real, d);
    Shrink(d, r, step);
  }

  lemma ChainQuotient(left: real, rest: real, held: real)
    requires 0.0 < rest && 0.0 < held
    ensures left / held == rest / held * (left / rest)
  {
    assert rest / held * (left / rest) * held == left;
    CancelFactor(left / held, rest / held * (left / rest), held, left);
  }

  lemma Distribute(c: real, p: real, r: real, next: real, d: real)
    requires d == next - c * p
    ensures next * r - c * (p * r) == d * r
  {
  }

  lemma Shrink(d: real, r: real, step: real)
    requires -step <= d <= step && 0.0 <= r <= 1.0
    ensures -step <= d * r <= step
  {
    var p := step * r;
    assert p <= step by {
      assert step - p == step * (1.0 - r);
    }
    ProductLe(d, step, r);
    ProductLe(-d, step, r);
    assert (-d) * r == -(d * r);
  }

  /** A column after one disposal: what was taken is its proportional share. */
  predicate InProportion(taken: int, x: int, quantity: int, held: int)
    requires 0 < held
  {
    var share := x as real * (quantity as real / held as real);
    -(0.5 + x as real / 1e19) <= taken as real - share <= 0.5 + x as real / 1e19
  }

  /** A partial disposal takes of every column the share of the pieces that leave. */
  lemma TakenInProportion(b: Balance, quantity: int)
    requires Stored(b) && SplitForDisposal(b, quantity).Ok? && quantity < b.quantity
    ensures var taken := SplitForDisposal(b, quantity).value.taken;
      && InProportion(taken.fine, b.fine, quantity, b.quantity)
      && InProportion(taken.gross, b.gross, quantity, b.quantity)
      && InProportion(taken.cost, b.cost, quantity, b.quantity)
  {
    hide Portion, Share, InProportion;
    PortionInProportion(b.fine, quantity, b.quantity);
    PortionInProportion(b.gross, quantity, b.quantity);
    PortionInProportion(b.cost, quantity, b.quantity);
  }

  lemma PortionInProportion(x: int, quantity: int, held: int)
    requires 0 <= x <= MAX_STORED && 0 < quantity < held
    ensures InProportion(Portion(x, Share(quantity, held)), x, quantity, held)
  {
    var q := quantity as real / held as real;
    QuotientAtMostOne(quantity as real, held as real);
    var exact, y := x as real * q, x as real * Share(quantity, held);
    ShareError(x as real, q, exact, y);
    OnePortion(x, Share(quantity, held), y, exact);
  }

  /** Half of the pieces take half of every column; of an odd amount the even neighbour of the half. */
  lemma HalfIsTaken(b: Balance, quantity: int)
    requires Stored(b) && 0 < quantity && b.quantity == 2 * quantity
    ensures SplitForDisposal(b, quantity).Ok?
    ensures var taken := SplitForDisposal(b, quantity).value.taken;
      IsHalf(taken.fine, b.fine) && IsHalf(taken.gross, b.gross) && IsHalf(taken.cost, b.cost)
  {
    hide Portion, Share;
    HalfShare(quantity);
    HalfPortion(b.fine);
    HalfPortion(b.gross);
    HalfPortion(b.cost);
  }

  predicate IsHalf(half: int, x: int) {
    if x % 2 == 0 then 2 * half == x else half % 2 == 0 && -1 <= 2 * half - x <= 1
  }

  lemma HalfShare(quantity: int)
    requires 0 < quantity
    ensures Share(quantity, 2 * quantity) == 0.5
  {
    var q := quantity as real;
    assert q / (2.0 * q) == 0.5;
    assert (2 * quantity) as real == 2.0 * q;
    HalfExact(1);
  }

  lemma HalfPortion(x: int)
    requires 0 <= x <= MAX_STORED
    ensures IsHalf(Portion(x, 0.5), x)
  {
    var y := x as real * 0.5;
    PortionWithin(x, 0.5, y);
    HalfExact(x);
    HalfRounds(x, y);
    hide HalfEven, Round20;
  }

  /** When a lot can be split: a positive number of pieces, no more than there are. */
  lemma SplitSucceedsIff(b: Balance, quantity: int)
    requires Stored(b)
    ensures SplitForDisposal(b, quantity).Ok? <==> 0 < quantity <= b.quantity
    ensures quantity == b.quantity && 0 < quantity ==> SplitForDisposal(b, quantity).value == Split(b, EMPTY)
  {
  }

  /** What is left of a lot after disposals of part of it, one after the other. */
  function RemainingAfter(b: Balance, parts: seq<int>): (r: Balance)
    requires Stored(b) && Partial(b.quantity, parts)
    decreases |parts|
  {
    if parts == [] then b
    else
      SplitConserves(b, parts[0]);
      RemainingAfter(SplitForDisposal(b, parts[0]).value.remaining, parts[1..])
  }

  lemma {:induction false} RemainingColumns(b: Balance, parts: seq<int>)
    requires Stored(b) && Partial(b.quantity, parts)
    ensures RemainingAfter(b, parts) == Balance(
      Left(b.quantity, parts), CostAfter(b.fine, b.quantity, parts), CostAfter(b.gross, b.quantity, parts),
      CostAfter(b.cost, b.quantity, parts))
    decreases |parts|
  {
    hide Portion, Share;
    if parts != [] {
      SplitConserves(b, parts[0]);
      RemainingColumns(SplitForDisposal(b, parts[0]).value.remaining, parts[1..]);
    }
  }

  predicate Drifted(now: int, x: int, left: int, held: int, steps: nat)
    requires 0 < held
  {
    var drift := now as real - x as real * (left as real / held as real);
    -(steps as real * (0.5 + x as real / 1e19)) <= drift <= steps as real * (0.5 + x as real / 1e19)
  }

  /** After k disposals every column of the lot is within k steps of its proportional part. */
  lemma RemainingDrift(b: Balance, parts: seq<int>)
    requires Stored(b) && Partial(b.quantity, parts)
    ensures var r := RemainingAfter(b, parts);
      && 0 < r.quantity <= b.quantity
      && Drifted(r.fine, b.fine, r.quantity, b.quantity, |parts|)
      && Drifted(r.gross, b.gross, r.quantity, b.quantity, |parts|)
      && Drifted(r.cost, b.cost, r.quantity, b.quantity, |parts|)
  {
    RemainingColumns(b, parts);
    ColumnDrifts(b.fine, b.quantity, parts);
    ColumnDrifts(b.gross, b.quantity, parts);
    ColumnDrifts(b.cost, b.quantity, parts);
  }

  lemma ColumnDrifts(x: int, held: int, parts: seq<int>)
    requires 0 <= x <= MAX_STORED && Partial(held, parts) && 0 < held
    ensures Drifted(CostAfter(x, held, parts), x, Left(held, parts), held, |parts|)
  {
    hide CostAfter, Left;
    CostDrift(x, held, parts);
  }

  // ---- The drift with an exact share ----------------------------------------------------

  function ExactPortion(cost: int, quantity: int, held: int): (p: int)
    requires 0 <= cost && 0 < quantity <= held
    ensures 0 <= p <= cost
  {
    var share := quantity as real / held as real;
    var y := cost as real * share;
    ExactPortionWithin(cost, quantity, held, share, y);
    HalfEven(y)
  }

  lemma ExactPortionWithin(cost: int, quantity: int, held: int, share: real, y: real)
    requires 0 <= cost && 0 < quantity <= held && share == quantity as real / held as real && y == cost as real * share
    ensures 0.0 <= y && 0 <= HalfEven(y) <= cost
  {
    QuotientAtMostOne(quantity as real, held as real);
    PartOf(cost as real, share, y);
    HalfEvenMonotone(y, cost as real);
    HalfEvenWhole(cost);
  }

  function CostAfterExact(cost: int, held: int, parts: seq<int>): (c: int)
    requires 0 <= cost && Partial(held, parts)
    ensures 0 <= c <= cost
    decreases |parts|
  {
    if parts == [] then cost
    else CostAfterExact(cost - ExactPortion(cost, parts[0], held), held - parts[0], parts[1..])
  }

  lemma OneExactDisposal(cost: int, held: int, q: int)
    requires 0 <= cost && 0 < q < held
    ensures -0.5 <= (cost - ExactPortion(cost, q, held)) as real - Ideal(cost, held - q, held) <= 0.5
  {
    var x := q as real / held as real;
    QuotientAtMostOne(q as real, held as real);
    IdealAfter(cost, held, q, x);
    ExactPortionWithin(cost, q, held, x, cost as real * x);
  }

  /** With share and product exact, only the stored scale rounds: k disposals drift by at most k halves. */
  lemma {:induction false} ExactCostDrift(cost: int, held: int, parts: seq<int>)
    requires 0 <= cost && Partial(held, parts)
    ensures var drift := CostAfterExact(cost, held, parts) as real - Ideal(cost, Left(held, parts), held);
      -(|parts| as real / 2.0) <= drift <= |parts| as real / 2.0
    decreases |parts|
  {
    hide ExactPortion, Ideal;
    if parts == [] {
      IdealWhole(cost, held);
    } else {
      var q, rest := parts[0], held - parts[0];
      var next := cost - ExactPortion(cost, q, held);
      ExactCostDrift(next, rest, parts[1..]);
      OneExactDisposal(cost, held, q);
      Combine(cost, next, CostAfterExact(cost, held, parts), held, rest, Left(held, parts),
              |parts[1..]| as real / 2.0, 0.5);
    }
  }
}
