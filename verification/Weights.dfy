/**
 Weights in units of 1e-9 gram (packages/shared/src/units.ts, purity.ts): conversion,
 quantisation to the stored scale, and fine weight from gross weight and purity.
 */
module Weights {
  import opened Decimals
  import opened Results

  /** 999999999.999999999 grams. */
  const MAX_WEIGHT: int := 999_999_999_999_999_999

  /** Every request schema limits a number of pieces to this. */
  const MAX_PIECES: int := 1_000_000

  datatype WeightUnit = Gram | Kilogram | TroyOunce | Qian

  function GramsPerUnit(u: WeightUnit): (f: real)
    ensures 0.0 < f
  {
    match u
    case Gram => 1.0
    case Kilogram => 1000.0
    case TroyOunce => 31.1034768
    case Qian => 3.75
  }

  /** Rounds a weight to the stored scale; refuses what the column cannot hold. */
  function QuantizeWeight(x: real): (r: Option<int>)
    ensures r.Some? ==> 0 <= r.value <= MAX_WEIGHT
    ensures r.Some? ==> -0.5 <= r.value as real - x <= 0.5
    ensures r.Some? && (r.value as real - x == 0.5 || r.value as real - x == -0.5) ==> r.value % 2 == 0
    ensures r.Some? <==> 0.0 <= x < MAX_WEIGHT as real + 0.5
  {
    if x < 0.0 then None
    else if MAX_WEIGHT < HalfEven(x) then None
    else Some(HalfEven(x))
  }

  /** The weight of one piece, from the magnitude and unit that were entered. */
  function UnitWeight(magnitude: real, unit: WeightUnit): (r: Option<int>)
    ensures r.Some? ==> 0 <= r.value <= MAX_WEIGHT
  {
    if magnitude < 0.0 then None
    else
      var x := magnitude * GramsPerUnit(unit) * 1e9;
      Round20Range(x);
      QuantizeWeight(Round20(x))
  }

  function GrossWeight(unitWeight: int, quantity: int): (r: Option<int>)
    requires 0 <= unitWeight && 0 <= quantity
    ensures r.Some? ==> 0 <= r.value <= MAX_WEIGHT
  {
    var x := (unitWeight * quantity) as real;
    Round20Range(x);
    QuantizeWeight(Round20(x))
  }

  /** More than 0, at most 1, and at most seven decimals. */
  predicate ValidPurity(p: real) {
    0.0 < p <= 1.0 && (p * 1e7).Floor as real == p * 1e7
  }

  function FineWeight(gross: int, purity: real): (r: int)
    requires 0 <= gross <= MAX_WEIGHT && 0.0 < purity <= 1.0
    ensures 0 <= r <= gross
  {
    FineWithinGross(gross, purity);
    HalfEven(Round20(gross as real * purity))
  }

  /** Neither rounding can carry the fine weight past the gross weight. */
  lemma FineWithinGross(gross: int, purity: real)
    requires 0 <= gross <= MAX_WEIGHT && 0.0 < purity <= 1.0
    ensures 0.0 <= gross as real * purity
    ensures 0.0 <= Round20(gross as real * purity)
    ensures HalfEven(Round20(gross as real * purity)) <= gross
  {
    var g := gross as real;
    var x := gross as real * purity;
    PartOf(g, purity, x);
    Round20Range(x);
    Round20Monotone(x, g);
    Round20Whole(gross);
    HalfEvenMonotone(Round20(x), g);
  }

  /** Seven decimals of purity: unless the metal is pure, fine weight is short of gross weight by a ten
      millionth of it, up to the two roundings. */
  lemma FineGap(gross: int, purity: real)
    requires 0 <= gross <= MAX_WEIGHT && ValidPurity(purity)
    ensures var fine := FineWeight(gross, purity);
      fine == gross || gross <= 10_000_000 * (gross - fine) + 6_000_000
  {
    var x := gross as real * purity;
    FineWithinGross(gross, purity);
    if purity == 1.0 {
      Round20Whole(gross);
      HalfEvenWhole(gross);
    } else {
      var tenMillionths := (purity * 1e7).Floor;
      assert tenMillionths as real <= 1e7 - 1.0;
      PartOf(gross as real, purity + 1e-7, gross as real * (purity + 1e-7));
      assert gross as real * (purity + 1e-7) == x + gross as real * 1e-7;
      Round20Error(x);
      FineShort(gross, x, Round20(x));
    }
  }

  lemma FineShort(gross: int, x: real, y: real)
    requires 0 <= gross <= MAX_WEIGHT && 0.0 <= x && x + gross as real * 1e-7 <= gross as real
    requires 0.0 <= y && 2e19 * y <= (2e19 + 1.0) * x
    ensures gross <= 10_000_000 * (gross - HalfEven(y)) + 6_000_000
  {
    assert y <= x + 0.05;
    assert HalfEven(y) as real <= y + 0.5;
  }

  // ---- What the weights are ------------------------------------------------------------

  /** Gross weight is the weight of one piece times the pieces, to the unit, and refused exactly when
      the column cannot hold that. */
  lemma GrossIsPieces(unitWeight: int, quantity: int)
    requires 0 <= unitWeight && 0 <= quantity
    ensures GrossWeight(unitWeight, quantity)
      == if unitWeight * quantity <= MAX_WEIGHT then Some(unitWeight * quantity) else None
  {
    var g := unitWeight * quantity;
    assert 0 <= g;
    Round20Range(g as real);
    if g <= MAX_WEIGHT {
      Round20Whole(g);
      HalfEvenWhole(g);
    } else {
      Round20Whole(MAX_WEIGHT + 1);
      Round20Monotone((MAX_WEIGHT + 1) as real, g as real);
    }
  }

  /** The weight of one piece is what was entered, in grams, to half a unit and the twentieth digit. */
  lemma UnitIsMagnitude(magnitude: real, unit: WeightUnit)
    requires UnitWeight(magnitude, unit).Some?
    ensures var grams := magnitude * (match unit case Gram => 1.0 case Kilogram => 1000.0 case TroyOunce => 31.1034768 case Qian => 3.75);
      -0.56 <= UnitWeight(magnitude, unit).value as real - grams * 1e9 <= 0.56
  {
    UnitRounded(magnitude, unit, magnitude * GramsPerUnit(unit) * 1e9);
  }

  lemma UnitRounded(magnitude: real, unit: WeightUnit, x: real)
    requires UnitWeight(magnitude, unit).Some? && x == magnitude * GramsPerUnit(unit) * 1e9
    ensures -0.56 <= UnitWeight(magnitude, unit).value as real - x <= 0.56
  {
    hide GramsPerUnit;
    Round20Range(x);
    Round20Error(x);
    NearEnough(x, Round20(x), UnitWeight(magnitude, unit).value);
  }

  lemma NearEnough(x: real, y: real, n: int)
    requires 0.0 <= x && -0.5 <= n as real - y <= 0.5 && n <= MAX_WEIGHT
    requires (2e19 - 1.0) * x <= 2e19 * y <= (2e19 + 1.0) * x
    ensures -0.56 <= n as real - x <= 0.56
  {
    assert y <= 1e18;
    assert x <= 1.1e18;
  }

  /** Fine weight is gross weight times purity, to half a unit and the twentieth digit. */
  lemma FineIsShare(gross: int, purity: real)
    requires 0 <= gross <= MAX_WEIGHT && 0.0 < purity <= 1.0
    ensures -0.56 <= FineWeight(gross, purity) as real - gross as real * purity <= 0.56
  {
    var x := gross as real * purity;
    FineWithinGross(gross, purity);
    PartOf(gross as real, purity, x);
    Round20Error(x);
    NearEnough(x, Round20(x), FineWeight(gross, purity));
  }

  lemma HalfExact(x: int)
    requires 0 <= x <= MAX_WEIGHT
    ensures Round20(x as real * 0.5) == x as real * 0.5
  {
    assert Pow10(1) == 10.0 * Pow10(0);
    Round20Exact(x as real * 0.5, 1, 5 * x);
  }

  /** Half of an odd weight goes to the even neighbour. */
  lemma HalfFine(gross: int)
    requires 0 <= gross <= MAX_WEIGHT
    ensures var fine := FineWeight(gross, 0.5);
      if gross % 2 == 0 then 2 * fine == gross else fine % 2 == 0 && -1 <= 2 * fine - gross <= 1
  {
    HalfExact(gross);
    HalfRounds(gross, gross as real * 0.5);
    FineWithinGross(gross, 0.5);
    hide Round20, HalfEven;
  }

  lemma HalfRounds(gross: int, x: real)
    requires 0 <= gross && x == gross as real * 0.5
    ensures if gross % 2 == 0 then 2 * HalfEven(x) == gross else HalfEven(x) % 2 == 0 && -1 <= 2 * HalfEven(x) - gross <= 1
  {
    var k := gross / 2;
    if gross % 2 == 0 {
      assert x == k as real;
      HalfEvenWhole(k);
    } else {
      assert gross == 2 * k + 1;
      HalfEvenTie(k, x);
    }
    hide HalfEven;
  }

  lemma HalfEvenTie(k: nat, x: real)
    requires x == k as real + 0.5
    ensures HalfEven(x) % 2 == 0 && k <= HalfEven(x) <= k + 1
  {
  }
}
