/**
 Allocation entry point (packages/shared/src/allocation.ts) and the purchase computation built
 on it (apps/api/src/purchases/purchase-domain.ts).  Money is in cents.
 */
module Purchase {
  import opened Results
  import opened Decimals
  import opened Money
  import opened Quotas
  import opened Allocation
  import opened Weights

  datatype Method = Manual | SubtotalProportional | WeightProportional | Equal

  datatype Error =
    | BadMoney | MissingAmounts | TooManyItems | CountMismatch | SumMismatch
    | BadCount | MissingBasis | NegativeBasis | TotalWithoutItems
    | BadCurrency | NoItems | BlankField | BadQuantity | BadWeight | BadPurity | SubtotalMismatch

  /** A request to allocate: a purchase always supplies what its method needs. */
  datatype AllocateInput = AllocateInput(
    how: Method,
    manualAmounts: Option<seq<real>>,
    basis: Option<seq<real>>,
    count: Option<int>,
    total: real)

  // ---- Money ---------------------------------------------------------------------------

  function QuantizeMoney(x: real): (r: Result<int, Error>)
    ensures r.Ok? <==> IsMoney(x)
    ensures r.Ok? ==> r.value == Cents(x)
  {
    if !IsMoney(x) then Err(BadMoney) else Ok(Cents(x))
  }

  ghost predicate AllMoney(s: seq<real>) {
    forall i | 0 <= i < |s| :: IsMoney(s[i])
  }

  function AllCents(s: seq<real>): (c: seq<int>)
    requires AllMoney(s)
    ensures |c| == |s| && (forall i | 0 <= i < |s| :: c[i] == Cents(s[i]) && 0 <= c[i])
  {
    seq(|s|, i requires 0 <= i < |s| => Cents(s[i]))
  }

  // ---- allocate ------------------------------------------------------------------------

  function Ones(n: nat): (b: seq<real>)
    ensures |b| == n && (forall i | 0 <= i < n :: b[i] == 1.0)
  {
    seq(n, i => 1.0)
  }

  lemma {:induction false} OnesSum(b: seq<real>)
    requires forall i | 0 <= i < |b| :: b[i] == 1.0
    ensures SumReal(b) == |b| as real
  {
    if b != [] {
      OnesSum(b[..|b| - 1]);
    }
  }

  /** The amounts of a manual allocation reconcile with the total. */
  ghost predicate ManualAccepted(input: AllocateInput, total: int) {
    && input.manualAmounts.Some?
    && var m := input.manualAmounts.value;
    && 0 < |m| <= MAX_ITEMS
    && (input.count.Some? ==> input.count.value == |m|)
    && AllMoney(m)
    && Sum(AllCents(m)) == total
  }

  ghost predicate ProportionalAccepted(input: AllocateInput, total: int) {
    && input.basis.Some?
    && var b := input.basis.value;
    && |b| <= MAX_ITEMS && NonNegative(b)
    && (b == [] ==> total == 0)
  }

  ghost predicate EqualAccepted(input: AllocateInput, total: int) {
    && input.count.Some? && 0 <= input.count.value <= MAX_ITEMS
    && (input.count.value == 0 ==> total == 0)
  }

  ghost predicate Accepted(input: AllocateInput) {
    && IsMoney(input.total)
    && var total := Cents(input.total);
    match input.how
    case Manual => ManualAccepted(input, total)
    case Equal => EqualAccepted(input, total)
    case _ => ProportionalAccepted(input, total)
  }

  /** The basis the split works with: equal parts when asked for, or when every basis is zero. */
  function EffectiveBasis(input: AllocateInput): (b: seq<real>)
    requires Accepted(input) && !input.how.Manual?
    ensures NonNegative(b) && |b| <= MAX_ITEMS
    ensures b != [] ==> 0.0 < SumReal(b)
  {
    if input.how.Equal? then
      OnesSum(Ones(input.count.value));
      Ones(input.count.value)
    else
      var b := input.basis.value;
      RoundedSumPositive(b);
      OnesSum(Ones(|b|));
      if RoundedSum(b) <= 0.0 then Ones(|b|) else b
  }

  /** What a successful allocation looks like. */
  ghost predicate Allocated(input: AllocateInput, amounts: seq<int>)
    requires Accepted(input)
  {
    var total := Cents(input.total);
    && Sum(amounts) == total
    && (forall i | 0 <= i < |amounts| :: 0 <= amounts[i])
    && if input.how.Manual? then
         amounts == AllCents(input.manualAmounts.value)
       else
         var b := EffectiveBasis(input);
         if b == [] then amounts == [] else IsHamilton(total, CodeQuotas(total, b), amounts)
  }

  /** No basis to tell the items apart. */
  ghost predicate NoBasis(input: AllocateInput) {
    input.how.Equal? || (!input.how.Manual? && input.basis.Some? && forall i | 0 <= i < |input.basis.value| :: input.basis.value[i] == 0.0)
  }

  /** What an item gets: equal parts without a basis, its proportional part with one. */
  ghost predicate Fair(input: AllocateInput, amounts: seq<int>)
    requires IsMoney(input.total)
  {
    && (input.how.Equal? && input.count.Some? ==> |amounts| == input.count.value)
    && (NoBasis(input) ==> Even(amounts))
    && (!input.how.Manual? && !input.how.Equal? && input.basis.Some? && 0.0 < SumReal(input.basis.value) ==>
          SharedOut(Cents(input.total), input.basis.value, amounts))
  }

  lemma {:induction false} ZeroSum(b: seq<real>)
    requires forall i | 0 <= i < |b| :: b[i] == 0.0
    ensures SumReal(b) == 0.0
  {
    if b != [] {
      ZeroSum(b[..|b| - 1]);
    }
  }

  lemma AllocatedFair(input: AllocateInput, amounts: seq<int>)
    requires Accepted(input) && Allocated(input, amounts)
    ensures Fair(input, amounts)
  {
    hide IsHamilton, CodeQuotas;
    if !input.how.Manual? {
      var total, b := Cents(input.total), EffectiveBasis(input);
      if b != [] {
        assert Splittable(total, b);
        if NoBasis(input) {
          if !input.how.Equal? {
            ZeroSum(input.basis.value);
            RoundedSumPositive(input.basis.value);
          }
          EqualBasisEven(total, b, amounts);
        }
        if !input.how.Equal? && 0.0 < SumReal(input.basis.value) {
          RoundedSumPositive(input.basis.value);
          SplitSharesOut(total, b, amounts);
        }
        AmountsPerItem(total, b, amounts);
      }
    }
  }

  lemma AmountsPerItem(total: int, b: seq<real>, amounts: seq<int>)
    requires Splittable(total, b) && IsHamilton(total, CodeQuotas(total, b), amounts)
    ensures |amounts| == |b|
  {
  }

  method AllocateManual(input: AllocateInput, total: int) returns (r: Result<seq<int>, Error>)
    ensures r.Ok? <==> ManualAccepted(input, total)
    ensures r.Ok? ==> r.value == AllCents(input.manualAmounts.value)
  {
    if input.manualAmounts.None? || |input.manualAmounts.value| == 0 {
      return Err(MissingAmounts);
    }
    var m := input.manualAmounts.value;
    if MAX_ITEMS < |m| {
      return Err(TooManyItems);
    }
    if input.count.Some? && input.count.value != |m| {
      return Err(CountMismatch);
    }
    var amounts: seq<int> := [];
    var sum := 0;
    for i := 0 to |m|
      invariant AllMoney(m[..i]) && amounts == AllCents(m[..i]) && sum == Sum(amounts)
    {
      var q := QuantizeMoney(m[i]);
      if q.Err? {
        assert !AllMoney(m);
        return Err(q.error);
      }
      assert m[..i + 1][..i] == m[..i];
      assert (amounts + [q.value])[..i] == amounts;
      amounts := amounts + [q.value];
      sum := sum + q.value;
    }
    assert m[..|m|] == m;
    var diff := sum - total;
    if diff <= -1 || 1 <= diff {
      return Err(SumMismatch);
    }
    // Amounts and total are whole cents, so a difference below one cent is none at all and
    // there is no dust left to reconcile.
    r := Ok(amounts);
  }

  method Allocate(input: AllocateInput) returns (r: Result<seq<int>, Error>)
    ensures r.Ok? <==> Accepted(input)
    ensures r.Ok? ==> Allocated(input, r.value)
    ensures r.Ok? ==> Fair(input, r.value)
  {
    var quantized := QuantizeMoney(input.total);
    if quantized.Err? {
      return Err(quantized.error);
    }
    var total := quantized.value;
    if input.how.Manual? {
      r := AllocateManual(input, total);
      if r.Ok? {
        AllocatedFair(input, r.value);
      }
      return;
    }
    var counted := ResolveCount(input);
    if counted.Err? {
      return Err(counted.error);
    }
    if counted.value == 0 {
      if total != 0 {
        return Err(TotalWithoutItems);
      }
      assert EffectiveBasis(input) == [];
      AllocatedFair(input, []);
      return Ok([]);
    }
    if !input.how.Equal? && (exists i | 0 <= i < counted.value :: input.basis.value[i] < 0.0) {
      return Err(NegativeBasis);
    }
    var basis := EffectiveBasis(input);
    var units, remainder := LargestRemainderSplit(total, basis);
    SplitIsClosest(total, basis, units, units);
    AllocatedFair(input, units);
    r := Ok(units);
  }

  method ResolveCount(input: AllocateInput) returns (r: Result<nat, Error>)
    requires !input.how.Manual?
    ensures r.Ok? <==>
      if input.how.Equal? then input.count.Some? && 0 <= input.count.value <= MAX_ITEMS
      else input.basis.Some? && |input.basis.value| <= MAX_ITEMS
    ensures r.Ok? ==> r.value == if input.how.Equal? then input.count.value else |input.basis.value|
  {
    var count;
    if input.how.Equal? {
      if input.count.None? || input.count.value < 0 {
        return Err(BadCount);
      }
      count := input.count.value;
    } else {
      if input.basis.None? {
        return Err(MissingBasis);
      }
      count := |input.basis.value|;
    }
    if MAX_ITEMS < count {
      return Err(TooManyItems);
    }
    r := Ok(count);
  }

  // ---- computePurchase -----------------------------------------------------------------

  datatype ItemInput = ItemInput(
    metalId: string, form: string, name: string, productDefinitionId: Option<string>,
    quantity: int, unitWeight: real, weightUnit: WeightUnit, purity: real,
    lineSubtotal: real, manualAmount: Option<real>)

  datatype PurchaseInput = PurchaseInput(
    currency: string, subtotal: real, premium: real, labor: real, tax: real, shipping: real,
    otherFees: real, discount: real, how: Method, items: seq<ItemInput>)

  /** Weights in 1e-9 gram, money in cents. */
  datatype ComputedItem = ComputedItem(
    input: ItemInput, unitWeight: int, grossWeight: int, fineWeight: int,
    lineSubtotal: int, allocatedCost: int)

  datatype ComputedPurchase = ComputedPurchase(
    subtotal: int, totalAmount: int, items: seq<ComputedItem>)

  predicate IsCurrencyCode(s: string) {
    |s| == 3 && (forall i | 0 <= i < 3 :: 'A' <= s[i] <= 'Z')
  }

  predicate IsBlank(s: string) {
    forall i | 0 <= i < |s| :: s[i] in {' ', '\t', '\n', '\r'}
  }

  ghost predicate HeaderMoney(p: PurchaseInput) {
    && IsMoney(p.subtotal) && IsMoney(p.premium) && IsMoney(p.labor) && IsMoney(p.tax)
    && IsMoney(p.shipping) && IsMoney(p.otherFees) && IsMoney(p.discount)
  }

  /** subtotal + premium + labor + tax + shipping + otherFees - discount, each in cents. */
  ghost function HeaderTotal(p: PurchaseInput): int
    requires HeaderMoney(p)
  {
    Cents(p.subtotal) + Cents(p.premium) + Cents(p.labor) + Cents(p.tax) + Cents(p.shipping)
    + Cents(p.otherFees) - Cents(p.discount)
  }

  /** The stored figures of one line, before its cost is known. */
  function ComputeItem(raw: ItemInput): (r: Result<ComputedItem, Error>)
    ensures r.Ok? ==>
      && r.value.input == raw && r.value.allocatedCost == 0
      && 1 <= raw.quantity && ValidPurity(raw.purity)
      && 0 < r.value.unitWeight
      && 0 <= r.value.fineWeight <= r.value.grossWeight <= MAX_WEIGHT
      && r.value.fineWeight == FineWeight(r.value.grossWeight, raw.purity)
      && IsMoney(raw.lineSubtotal) && r.value.lineSubtotal == Cents(raw.lineSubtotal)
  {
    if IsBlank(raw.metalId) || IsBlank(raw.form) || IsBlank(raw.name)
       || (raw.productDefinitionId.Some? && IsBlank(raw.productDefinitionId.value))
    then Err(BlankField)
    else if raw.quantity < 1 then Err(BadQuantity)
    else
      var unit := UnitWeight(raw.unitWeight, raw.weightUnit);
      if unit.None? || unit.value <= 0 then Err(BadWeight)
      else if !ValidPurity(raw.purity) then Err(BadPurity)
      else
        var gross := GrossWeight(unit.value, raw.quantity);
        if gross.None? then Err(BadWeight)
        else
          var line := QuantizeMoney(raw.lineSubtotal);
          if line.Err? then Err(line.error)
          else
            Ok(ComputedItem(raw, unit.value, gross.value, FineWeight(gross.value, raw.purity), line.value, 0))
  }

  function LineSubtotals(items: seq<ComputedItem>): (s: seq<int>)
    ensures |s| == |items| && (forall i | 0 <= i < |s| :: s[i] == items[i].lineSubtotal)
  {
    seq(|items|, i requires 0 <= i < |items| => items[i].lineSubtotal)
  }

  function AllocatedCosts(items: seq<ComputedItem>): (s: seq<int>)
    ensures |s| == |items| && (forall i | 0 <= i < |s| :: s[i] == items[i].allocatedCost)
  {
    seq(|items|, i requires 0 <= i < |items| => items[i].allocatedCost)
  }

  /** The request handed to allocate: cents and 1e-9 gram weights as decimals. */
  function AllocationRequest(how: Method, total: int, items: seq<ComputedItem>): (a: AllocateInput)
    requires how.Manual? ==> forall i | 0 <= i < |items| :: items[i].input.manualAmount.Some?
    ensures a.how == how && a.total == total as real / 100.0
  {
    var n := |items|;
    match how
    case Manual =>
      var amounts := seq(n, i requires 0 <= i < n => items[i].input.manualAmount.value);
      AllocateInput(how, Some(amounts), None, Some(n), total as real / 100.0)
    case SubtotalProportional =>
      var basis := seq(n, i requires 0 <= i < n => items[i].lineSubtotal as real / 100.0);
      AllocateInput(how, None, Some(basis), None, total as real / 100.0)
    case WeightProportional =>
      var basis := seq(n, i requires 0 <= i < n => items[i].fineWeight as real / 1e9);
      AllocateInput(how, None, Some(basis), None, total as real / 100.0)
    case Equal =>
      AllocateInput(how, None, None, Some(n), total as real / 100.0)
  }

  predicate ManualComplete(how: Method, items: seq<ComputedItem>) {
    how.Manual? ==> forall i | 0 <= i < |items| :: items[i].input.manualAmount.Some?
  }

  /** The costs on the items are exactly what allocate returns for the total. */
  ghost predicate CostsAllocated(how: Method, total: int, items: seq<ComputedItem>) {
    && ManualComplete(how, items)
    && Accepted(AllocationRequest(how, total, items))
    && Allocated(AllocationRequest(how, total, items), AllocatedCosts(items))
  }

  ghost predicate AllComputed(p: PurchaseInput) {
    forall i | 0 <= i < |p.items| :: ComputeItem(p.items[i]).Ok?
  }

  ghost function Computed(p: PurchaseInput): (c: seq<ComputedItem>)
    requires AllComputed(p)
    ensures |c| == |p.items| && (forall i | 0 <= i < |c| :: c[i] == ComputeItem(p.items[i]).value)
  {
    seq(|p.items|, i requires 0 <= i < |p.items| => ComputeItem(p.items[i]).value)
  }

  /** The purchases that are accepted. */
  ghost predicate Acceptable(p: PurchaseInput) {
    && IsCurrencyCode(p.currency)
    && 0 < |p.items| <= MAX_ITEMS
    && HeaderMoney(p) && AllComputed(p)
    && Sum(LineSubtotals(Computed(p))) == Cents(p.subtotal)
    && 0 <= HeaderTotal(p) <= MAX_MONEY
    && ManualComplete(p.how, Computed(p))
    && Accepted(AllocationRequest(p.how, HeaderTotal(p), Computed(p)))
  }

  /** What an accepted purchase looks like. */
  ghost predicate Reconciled(p: PurchaseInput, c: ComputedPurchase)
    requires Acceptable(p)
  {
    && c.subtotal == Cents(p.subtotal) == Sum(LineSubtotals(c.items))
    && c.totalAmount == HeaderTotal(p)
    && |c.items| == |p.items|
    && (forall i | 0 <= i < |c.items| :: c.items[i].(allocatedCost := 0) == Computed(p)[i])
    && CostsAllocated(p.how, c.totalAmount, c.items)
  }

  method ComputeItems(items: seq<ItemInput>) returns (r: Result<seq<ComputedItem>, Error>)
    ensures r.Ok? <==> forall i | 0 <= i < |items| :: ComputeItem(items[i]).Ok?
    ensures r.Ok? ==> |r.value| == |items|
                      && forall i | 0 <= i < |items| :: r.value[i] == ComputeItem(items[i]).value
  {
    var computed: seq<ComputedItem> := [];
    for i := 0 to |items|
      invariant |computed| == i
      invariant forall j | 0 <= j < i :: ComputeItem(items[j]).Ok? && computed[j] == ComputeItem(items[j]).value
    {
      var item := ComputeItem(items[i]);
      if item.Err? {
        return Err(item.error);
      }
      computed := computed + [item.value];
    }
    r := Ok(computed);
  }

  /** Writes each allocated amount into its item. */
  method AssignCosts(items: seq<ComputedItem>, amounts: seq<int>) returns (done: seq<ComputedItem>)
    requires |items| == |amounts|
    ensures |done| == |items| && AllocatedCosts(done) == amounts
    ensures forall i | 0 <= i < |items| :: done[i] == items[i].(allocatedCost := amounts[i])
  {
    done := items;
    for i := 0 to |items|
      invariant |done| == |items|
      invariant forall j | 0 <= j < i :: done[j] == items[j].(allocatedCost := amounts[j])
      invariant forall j | i <= j < |items| :: done[j] == items[j]
    {
      done := done[i := done[i].(allocatedCost := amounts[i])];
    }
  }

  method ComputePurchase(p: PurchaseInput) returns (r: Result<ComputedPurchase, Error>)
    ensures r.Ok? <==> Acceptable(p)
    ensures r.Ok? ==> Reconciled(p, r.value)
  {
    hide Accepted, Allocated, AllocationRequest, ComputeItem, HeaderTotal, IsCurrencyCode, Sum;
    if !IsCurrencyCode(p.currency) {
      return Err(BadCurrency);
    }
    if |p.items| == 0 {
      return Err(NoItems);
    }
    if MAX_ITEMS < |p.items| {
      return Err(TooManyItems);
    }
    var header := HeaderCents(p);
    if header.Err? {
      return Err(header.error);
    }
    var (subtotal, total) := header.value;
    var computed := ComputeItems(p.items);
    if computed.Err? {
      return Err(computed.error);
    }
    assert computed.value == Computed(p);
    if Sum(LineSubtotals(computed.value)) != subtotal {
      return Err(SubtotalMismatch);
    }
    if total < 0 || MAX_MONEY < total {
      return Err(BadMoney);
    }
    var priced := PriceItems(p.how, total, computed.value);
    if priced.Err? {
      return Err(priced.error);
    }
    assert LineSubtotals(priced.value) == LineSubtotals(computed.value);
    r := Ok(ComputedPurchase(subtotal, total, priced.value));
  }

  /** Allocates the total over the items and writes the result into them. */
  method PriceItems(how: Method, total: int, items: seq<ComputedItem>) returns (r: Result<seq<ComputedItem>, Error>)
    requires 0 < |items| && 0 <= total <= MAX_MONEY
    ensures r.Ok? <==> ManualComplete(how, items) && Accepted(AllocationRequest(how, total, items))
    ensures r.Ok? ==> |r.value| == |items| && CostsAllocated(how, total, r.value)
                      && forall i | 0 <= i < |items| :: r.value[i].(allocatedCost := items[i].allocatedCost) == items[i]
  {
    if how.Manual? && (exists i | 0 <= i < |items| :: items[i].input.manualAmount.None?) {
      return Err(MissingAmounts);
    }
    var request := AllocationRequest(how, total, items);
    var amounts := Allocate(request);
    if amounts.Err? {
      return Err(amounts.error);
    }
    AmountPerItem(how, total, items, amounts.value);
    var priced := AssignCosts(items, amounts.value);
    RequestIgnoresCosts(how, total, items, priced);
    r := Ok(priced);
  }

  lemma RequestIgnoresCosts(how: Method, total: int, items: seq<ComputedItem>, priced: seq<ComputedItem>)
    requires |items| == |priced| && ManualComplete(how, items)
    requires forall i | 0 <= i < |items| :: priced[i] == items[i].(allocatedCost := priced[i].allocatedCost)
    ensures ManualComplete(how, priced)
    ensures AllocationRequest(how, total, priced) == AllocationRequest(how, total, items)
  {
    var x, y := AllocationRequest(how, total, priced), AllocationRequest(how, total, items);
    assert x.basis.Some? ==> x.basis.value == y.basis.value;
    assert x.manualAmounts.Some? ==> x.manualAmounts.value == y.manualAmounts.value;
  }

  /** The header amounts in cents: the subtotal and the total before it is checked. */
  method HeaderCents(p: PurchaseInput) returns (r: Result<(int, int), Error>)
    ensures r.Ok? <==> HeaderMoney(p)
    ensures r.Ok? ==> r.value == (Cents(p.subtotal), HeaderTotal(p))
  {
    if !(IsMoney(p.subtotal) && IsMoney(p.premium) && IsMoney(p.labor) && IsMoney(p.tax)
         && IsMoney(p.shipping) && IsMoney(p.otherFees) && IsMoney(p.discount)) {
      return Err(BadMoney);
    }
    r := Ok((Cents(p.subtotal),
             Cents(p.subtotal) + Cents(p.premium) + Cents(p.labor) + Cents(p.tax)
             + Cents(p.shipping) + Cents(p.otherFees) - Cents(p.discount)));
  }

  lemma CentsOfCents(total: int)
    requires 0 <= total <= MAX_MONEY
    ensures IsMoney(total as real / 100.0) && Cents(total as real / 100.0) == total
  {
    assert total as real / 100.0 * 100.0 == total as real;
    HalfEvenWhole(total);
  }

  lemma AmountPerItem(how: Method, total: int, items: seq<ComputedItem>, amounts: seq<int>)
    requires ManualComplete(how, items) && 0 < |items|
    requires Accepted(AllocationRequest(how, total, items))
    requires Allocated(AllocationRequest(how, total, items), amounts)
    ensures |amounts| == |items|
  {
    var request := AllocationRequest(how, total, items);
    if !how.Manual? {
      assert |EffectiveBasis(request)| == |items|;
    }
  }

  // ---- What a purchase promises --------------------------------------------------------

  /** For all four methods the item costs add up to the header total, to the cent, and none is
      negative; every item keeps 0 <= fine <= gross. */
  lemma CostsReconcile(p: PurchaseInput, c: ComputedPurchase)
    requires Acceptable(p) && Reconciled(p, c)
    ensures Sum(AllocatedCosts(c.items)) == c.totalAmount
    ensures forall i | 0 <= i < |c.items| :: 0 <= c.items[i].allocatedCost
    ensures forall i | 0 <= i < |c.items| :: 0 <= c.items[i].fineWeight <= c.items[i].grossWeight
  {
    CentsOfCents(c.totalAmount);
    forall i | 0 <= i < |c.items|
      ensures 0 <= c.items[i].allocatedCost
      ensures 0 <= c.items[i].fineWeight <= c.items[i].grossWeight
    {
      assert 0 <= AllocatedCosts(c.items)[i];
      assert c.items[i].(allocatedCost := 0) == Computed(p)[i];
      assert ComputeItem(p.items[i]).Ok?;
    }
  }

  /** Only a manual allocation can be refused once header and items are in order: the three
      computed methods reconcile every total in range. */
  lemma ComputedMethodsNeverRefuse(how: Method, total: int, items: seq<ComputedItem>)
    requires !how.Manual? && 0 < |items| <= MAX_ITEMS && 0 <= total <= MAX_MONEY
    requires forall i | 0 <= i < |items| :: 0 <= items[i].lineSubtotal && 0 <= items[i].fineWeight
    ensures Accepted(AllocationRequest(how, total, items))
  {
    CentsOfCents(total);
    var request := AllocationRequest(how, total, items);
    if !how.Equal? {
      assert NonNegative(request.basis.value);
    }
  }

  /** What the chosen method weighs an item by. */
  function Weight(how: Method, item: ComputedItem): int
    requires how.SubtotalProportional? || how.WeightProportional?
  {
    if how.SubtotalProportional? then item.lineSubtotal else item.fineWeight
  }

  /** One step of that weight, as allocate sees it. */
  function WeightStep(how: Method): (u: real)
    ensures 0.0 < u
  {
    if how.SubtotalProportional? then 0.01 else 0.000000001
  }

  /** Subtotals and weights have at most 18 digits, few enough for the larger one never to cost less. */
  lemma LargerItemNeverCheaper(p: PurchaseInput, c: ComputedPurchase, i: nat, j: nat)
    requires Acceptable(p) && Reconciled(p, c) && i < |c.items| && j < |c.items|
    requires p.how.SubtotalProportional? || p.how.WeightProportional?
    requires Weight(p.how, c.items[j]) < Weight(p.how, c.items[i])
    ensures c.items[j].allocatedCost <= c.items[i].allocatedCost
  {
    hide Acceptable, Reconciled, IsHamilton, CodeQuotas, Splittable, CostsAllocated, AllocationRequest;
    var basis, u := BasisOf(p.how, c.items), WeightStep(p.how);
    ItemWeight(p, c, i);
    ItemWeight(p, c, j);
    TotalInRange(p, c);
    var m, n := Weight(p.how, c.items[i]), Weight(p.how, c.items[j]);
    assert basis[i] == m as real * u && basis[j] == n as real * u;
    SplitByBasis(p.how, c.totalAmount, c.items, i);
    LargerBasisNeverLess(c.totalAmount, basis, AllocatedCosts(c.items), i, j, m, n, u);
  }

  function BasisOf(how: Method, items: seq<ComputedItem>): (b: seq<real>)
    requires how.SubtotalProportional? || how.WeightProportional?
    ensures |b| == |items| && forall i | 0 <= i < |b| :: b[i] == Weight(how, items[i]) as real * WeightStep(how)
  {
    seq(|items|, i requires 0 <= i < |items| => Weight(how, items[i]) as real * WeightStep(how))
  }

  lemma RequestBasis(how: Method, total: int, items: seq<ComputedItem>)
    requires how.SubtotalProportional? || how.WeightProportional?
    ensures AllocationRequest(how, total, items).basis == Some(BasisOf(how, items))
  {
    var b := AllocationRequest(how, total, items).basis.value;
    forall i | 0 <= i < |items|
      ensures b[i] == BasisOf(how, items)[i]
    {
      var x := Weight(how, items[i]) as real;
      assert x / 100.0 == x * 0.01 && x / 1e9 == x * 0.000000001;
    }
    assert b == BasisOf(how, items);
  }

  /** Once some weight is positive the costs are the split by those weights. */
  lemma SplitByBasis(how: Method, total: int, items: seq<ComputedItem>, i: nat)
    requires (how.SubtotalProportional? || how.WeightProportional?) && CostsAllocated(how, total, items)
    requires 0 <= total <= MAX_MONEY && i < |items| && 0 < Weight(how, items[i])
    ensures Splittable(total, BasisOf(how, items))
    ensures IsHamilton(total, CodeQuotas(total, BasisOf(how, items)), AllocatedCosts(items))
  {
    hide IsHamilton, CodeQuotas, EffectiveBasis, AllocatedCosts, BasisOf;
    var request, basis := AllocationRequest(how, total, items), BasisOf(how, items);
    RequestBasis(how, total, items);
    CentsOfCents(total);
    assert 0.0 < basis[i] by {
      PositiveWeight(how, items, i);
    }
    ItemsGiveBasis(request, i);
  }

  lemma PositiveWeight(how: Method, items: seq<ComputedItem>, i: nat)
    requires (how.SubtotalProportional? || how.WeightProportional?) && i < |items| && 0 < Weight(how, items[i])
    ensures 0.0 < BasisOf(how, items)[i]
  {
  }

  lemma ItemWeight(p: PurchaseInput, c: ComputedPurchase, i: nat)
    requires Acceptable(p) && Reconciled(p, c) && i < |c.items|
    requires p.how.SubtotalProportional? || p.how.WeightProportional?
    ensures 0 <= Weight(p.how, c.items[i]) <= 1_000_000_000_000_000_000
  {
    assert c.items[i].(allocatedCost := 0) == Computed(p)[i];
    assert ComputeItem(p.items[i]).Ok?;
  }

  /** Some basis is positive, so the split works with the basis given. */
  lemma ItemsGiveBasis(request: AllocateInput, i: nat)
    requires Accepted(request) && (request.how.SubtotalProportional? || request.how.WeightProportional?)
    requires i < |request.basis.value| && 0.0 < request.basis.value[i]
    ensures EffectiveBasis(request) == request.basis.value
    ensures 0.0 < SumReal(request.basis.value)
  {
    SumNonNegative(request.basis.value);
    RoundedSumPositive(request.basis.value);
  }

  lemma TotalInRange(p: PurchaseInput, c: ComputedPurchase)
    requires Acceptable(p) && Reconciled(p, c)
    ensures 0 <= c.totalAmount <= MAX_MONEY && CostsAllocated(p.how, c.totalAmount, c.items)
  {
  }

  /** Without a basis, by request or because all subtotals or weights are zero, no two costs of a purchase
      differ by more than a cent, and the earlier item never costs less. */
  lemma EqualCostsEven(p: PurchaseInput, c: ComputedPurchase)
    requires Acceptable(p) && Reconciled(p, c) && !p.how.Manual?
    requires p.how.Equal? || forall i | 0 <= i < |c.items| :: Weight(p.how, c.items[i]) == 0
    ensures forall i, j | 0 <= i < j < |c.items| ::
      c.items[j].allocatedCost <= c.items[i].allocatedCost <= c.items[j].allocatedCost + 1
  {
    hide Acceptable, Reconciled, Allocated, Even, AllocatedCosts;
    var request, costs := AllocationRequest(p.how, c.totalAmount, c.items), AllocatedCosts(c.items);
    TotalInRange(p, c);
    if !p.how.Equal? {
      RequestBasis(p.how, c.totalAmount, c.items);
    }
    AllocatedFair(request, costs);
    EvenCosts(c.items);
  }

  lemma EvenCosts(items: seq<ComputedItem>)
    requires Even(AllocatedCosts(items))
    ensures forall i, j | 0 <= i < j < |items| :: items[j].allocatedCost <= items[i].allocatedCost <= items[j].allocatedCost + 1
  {
    var costs := AllocatedCosts(items);
    forall i, j | 0 <= i < j < |items|
      ensures items[j].allocatedCost <= items[i].allocatedCost <= items[j].allocatedCost + 1
    {
      assert costs[j] <= costs[i] <= costs[j] + 1;
    }
  }

  function ItemWeights(how: Method, items: seq<ComputedItem>): (s: seq<int>)
    requires how.SubtotalProportional? || how.WeightProportional?
    ensures |s| == |items| && forall i | 0 <= i < |s| :: s[i] == Weight(how, items[i])
  {
    seq(|items|, i requires 0 <= i < |items| => Weight(how, items[i]))
  }

  lemma {:induction false} ScaledSumOf(b: seq<real>, s: seq<int>, u: real)
    requires |b| == |s| && forall i | 0 <= i < |b| :: Multiple(b[i], s[i] as real, u)
    ensures Multiple(SumReal(b), Sum(s) as real, u)
  {
    if b == [] {
      assert 0.0 * u == 0.0;
    } else {
      var n := |b| - 1;
      ScaledSumOf(b[..n], s[..n], u);
      assert Multiple(b[n], s[n] as real, u);
      var x, y := Sum(s[..n]) as real, s[n] as real;
      assert (x + y) * u == x * u + y * u;
    }
  }

  /** An amount is the part w of all of the total, to little more than a cent. */
  predicate IsPart(amount: real, total: real, w: real, all: real) {
    0.0 < all && -1.11 * all <= amount * all - total * w <= 1.11 * all
  }

  /** A cost is the item's part of the total by subtotal or by fine weight. */
  lemma CostInProportion(p: PurchaseInput, c: ComputedPurchase, i: nat)
    requires Acceptable(p) && Reconciled(p, c) && i < |c.items|
    requires (p.how.SubtotalProportional? || p.how.WeightProportional?) && 0 < Weight(p.how, c.items[i])
    ensures IsPart(c.items[i].allocatedCost as real, c.totalAmount as real, Weight(p.how, c.items[i]) as real,
                   Sum(ItemWeights(p.how, c.items)) as real)
  {
    hide Acceptable, Reconciled, IsHamilton, CodeQuotas, Splittable, CostsAllocated, AllocationRequest, Weight, IsPart;
    TotalInRange(p, c);
    SplitByBasis(p.how, c.totalAmount, c.items, i);
    SplitInProportion(p.how, c.totalAmount, c.items, i);
  }

  lemma SplitInProportion(how: Method, total: int, items: seq<ComputedItem>, i: nat)
    requires (how.SubtotalProportional? || how.WeightProportional?) && i < |items| && Splittable(total, BasisOf(how, items))
    requires IsHamilton(total, CodeQuotas(total, BasisOf(how, items)), AllocatedCosts(items))
    ensures IsPart(items[i].allocatedCost as real, total as real, Weight(how, items[i]) as real, Sum(ItemWeights(how, items)) as real)
  {
    hide IsHamilton, CodeQuotas, Weight, IsPart, IsShare, Multiple, WeightStep;
    var basis, u, costs := BasisOf(how, items), WeightStep(how), AllocatedCosts(items);
    SplitSharesOut(total, basis, costs);
    forall k | 0 <= k < |basis|
      ensures Multiple(basis[k], ItemWeights(how, items)[k] as real, u)
    {
      BasisAt(how, items, k);
    }
    ScaledSumOf(basis, ItemWeights(how, items), u);
    assert IsShare(costs[i] as real, total as real, basis[i], SumReal(basis));
    PartWithoutStep(items[i].allocatedCost as real, total as real, basis[i], Weight(how, items[i]) as real,
                    Sum(ItemWeights(how, items)) as real, u, SumReal(basis));
  }

  predicate Multiple(x: real, n: real, u: real) {
    x == n * u
  }

  lemma BasisAt(how: Method, items: seq<ComputedItem>, i: nat)
    requires (how.SubtotalProportional? || how.WeightProportional?) && i < |items|
    ensures Multiple(BasisOf(how, items)[i], Weight(how, items[i]) as real, WeightStep(how))
  {
  }

  lemma PartWithoutStep(n: real, total: real, b: real, w: real, all: real, u: real, sum: real)
    requires 0.0 < u && 0.0 < sum && Multiple(sum, all, u) && Multiple(b, w, u) && IsShare(n, total, b, sum)
    ensures IsPart(n, total, w, all)
  {
    var part := total * b / sum;
    if all <= 0.0 {
      ProductLe(all, 0.0, u);
    }
    var bt, pa, tw, na := total * b, part * all, total * w, n * all;
    assert part * sum == bt;
    assert pa * u == part * sum;
    assert tw * u == bt;
    CancelFactor(pa, tw, u, bt);
    var d := n - part;
    var da := d * all;
    assert da == na - pa;
    ProductLe(d, 1.11, all);
    ProductLe(-1.11, d, all);
  }

  /** The header total is what the header says, and to the cent when its amounts are whole cents. */
  lemma TotalIsHeader(p: PurchaseInput, c: ComputedPurchase)
    requires Acceptable(p) && Reconciled(p, c)
    ensures var sum := p.subtotal + p.premium + p.labor + p.tax + p.shipping + p.otherFees - p.discount;
      -3.5 <= c.totalAmount as real - sum * 100.0 <= 3.5
    ensures var sum := p.subtotal + p.premium + p.labor + p.tax + p.shipping + p.otherFees - p.discount;
      HeaderWhole(p) ==> c.totalAmount as real == sum * 100.0
  {
    assert HeaderMoney(p);
    hide Acceptable, Cents;
    if HeaderWhole(p) {
      CentsWhole(p.subtotal);
      CentsWhole(p.premium);
      CentsWhole(p.labor);
      CentsWhole(p.tax);
      CentsWhole(p.shipping);
      CentsWhole(p.otherFees);
      CentsWhole(p.discount);
    }
  }

  predicate WholeCents(x: real) {
    (x * 100.0).Floor as real == x * 100.0
  }

  predicate HeaderWhole(p: PurchaseInput) {
    && WholeCents(p.subtotal) && WholeCents(p.premium) && WholeCents(p.labor) && WholeCents(p.tax)
    && WholeCents(p.shipping) && WholeCents(p.otherFees) && WholeCents(p.discount)
  }

  lemma CentsWhole(x: real)
    requires IsMoney(x) && WholeCents(x)
    ensures Cents(x) as real == x * 100.0
  {
    HalfEvenWhole((x * 100.0).Floor);
  }

  /** The figures of an item: gross weight is the weight of a piece times the pieces, fine weight its purity
      times that, and what was entered stays. */
  lemma ItemFigures(p: PurchaseInput, c: ComputedPurchase, i: nat)
    requires Acceptable(p) && Reconciled(p, c) && i < |c.items|
    ensures var item := c.items[i];
      && item.input == p.items[i]
      && 0 < item.unitWeight && item.grossWeight == item.unitWeight * p.items[i].quantity
      && -0.56 <= item.fineWeight as real - item.grossWeight as real * p.items[i].purity <= 0.56
      && -0.5 <= item.lineSubtotal as real - p.items[i].lineSubtotal * 100.0 <= 0.5
  {
    hide Acceptable, Reconciled, ComputeItem, FineWeight, Cents;
    ItemComputed(p, c, i);
    ComputedFigures(p.items[i]);
  }

  lemma ItemComputed(p: PurchaseInput, c: ComputedPurchase, i: nat)
    requires Acceptable(p) && Reconciled(p, c) && i < |c.items|
    ensures |c.items| == |p.items| && ComputeItem(p.items[i]).Ok?
    ensures c.items[i].(allocatedCost := 0) == ComputeItem(p.items[i]).value
  {
    assert c.items[i].(allocatedCost := 0) == Computed(p)[i];
  }

  lemma ComputedFigures(raw: ItemInput)
    requires ComputeItem(raw).Ok?
    ensures var item := ComputeItem(raw).value;
      && item.grossWeight == item.unitWeight * raw.quantity
      && UnitWeight(raw.unitWeight, raw.weightUnit) == Some(item.unitWeight)
      && -0.56 <= item.fineWeight as real - item.grossWeight as real * raw.purity <= 0.56
      && -0.5 <= item.lineSubtotal as real - raw.lineSubtotal * 100.0 <= 0.5
  {
    hide UnitWeight, GrossWeight, FineWeight, Cents;
    var item := ComputeItem(raw).value;
    GrossIsPieces(item.unitWeight, raw.quantity);
    FineIsShare(item.grossWeight, raw.purity);
  }

  /** What an accepted purchase has been checked for. */
  predicate Checked(p: PurchaseInput) {
    && |p.currency| == 3 && (forall i | 0 <= i < 3 :: 'A' <= p.currency[i] <= 'Z')
    && 1 <= |p.items| <= 100
    && forall i | 0 <= i < |p.items| ::
      && ItemChecked(p.items[i])
      && (p.how.Manual? ==> p.items[i].manualAmount.Some?)
  }

  /** Named by more than spaces, at least one piece, a purity of at most seven decimals, a subtotal in range. */
  predicate ItemChecked(item: ItemInput) {
    && HasText(item.metalId) && HasText(item.form) && HasText(item.name)
    && (item.productDefinitionId.Some? ==> HasText(item.productDefinitionId.value))
    && 1 <= item.quantity && 0.0 < item.purity <= 1.0 && (item.purity * 10000000.0).Floor as real == item.purity * 10000000.0
    && 0.0 <= item.lineSubtotal <= 99999999999999.99
  }

  predicate HasText(s: string) {
    exists i | 0 <= i < |s| :: s[i] != ' ' && s[i] != '\t' && s[i] != '\n' && s[i] != '\r'
  }

  lemma AcceptedIsChecked(p: PurchaseInput)
    requires Acceptable(p)
    ensures Checked(p)
    ensures 0 <= HeaderTotal(p) <= 9_999_999_999_999_999
  {
    hide UnitWeight, GrossWeight, FineWeight, Accepted, Cents, HeaderTotal;
    forall i | 0 <= i < |p.items|
      ensures ItemChecked(p.items[i]) && (p.how.Manual? ==> p.items[i].manualAmount.Some?)
    {
      assert ComputeItem(p.items[i]).Ok?;
      assert p.how.Manual? ==> Computed(p)[i].input.manualAmount.Some?;
    }
  }
}
