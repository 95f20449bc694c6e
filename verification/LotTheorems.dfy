/** What every run of the lot ledger guarantees, and where a guarantee has a limit. */
module LotTheorems {
  import opened Results
  import opened Decimals
  import opened Weights
  import opened Disposal
  import opened LotLedger
  import opened LotRuns
  import Purchase

  // ---- Conservation and the life of a lot ----------------------------------------------

  lemma {:induction false} RunKeeps(w: World, steps: seq<Step>)
    requires Inv(w)
    ensures Inv(Run(w, steps))
    decreases |steps|
  {
    if steps != [] {
      NextKeeps(w, steps[0]);
      RunKeeps(Next(w, steps[0]), steps[1..]);
    }
  }

  /** Over every interleaving, with readers however stale: what the disposals of a lot carried
      away plus what remains is what it started with, in quantity, fine weight, gross weight and
      cost; a lot leaves HELD exactly when nothing remains; labels on bought lots agree. */
  lemma LedgerConserves(steps: seq<Step>, id: Id)
    ensures var w := Run(EMPTY_WORLD, steps);
      id in w.db.lots ==>
        && id in w.opening
        && Add(Gone(w.db.movements, id), w.db.lots[id].balance) == w.opening[id]
        && (w.db.lots[id].status == Held <==> 0 < w.db.lots[id].balance.quantity)
        && (w.db.lots[id].status != Held ==> Gone(w.db.movements, id) == w.opening[id])
    ensures AllLabelled(Run(EMPTY_WORLD, steps).db)
  {
    RunKeeps(EMPTY_WORLD, steps);
    var w := Run(EMPTY_WORLD, steps);
    if id in w.db.lots {
      assert LotConserved(w, id);
    }
  }

  function MovementsOf(ms: seq<Movement>, n: nat, id: Id): nat
    requires n <= |ms|
  {
    if n == 0 then 0 else MovementsOf(ms, n - 1, id) + if ms[n - 1].lot == id then 1 else 0
  }

  lemma {:induction false} SamePrefixMovements(ms: seq<Movement>, ns: seq<Movement>, n: nat, id: Id)
    requires n <= |ms| && n <= |ns|
    requires forall k | 0 <= k < n :: ms[k].lot == ns[k].lot
    ensures MovementsOf(ms, n, id) == MovementsOf(ns, n, id)
  {
    if 0 < n {
      SamePrefixMovements(ms, ns, n - 1, id);
    }
  }

  /** The lot keeps its status and balance, and no movement of it is appended. */
  ghost predicate Frozen(db: Ledger, next: Ledger, id: Id)
    requires id in db.lots
  {
    && id in next.lots
    && next.lots[id].status == db.lots[id].status
    && next.lots[id].balance == db.lots[id].balance
    && MovementsOf(next.movements, |next.movements|, id) == MovementsOf(db.movements, |db.movements|, id)
  }

  lemma OtherAppendFreezes(db: Ledger, next: Ledger, m: Movement, id: Id)
    requires id in db.lots && id in next.lots && next.lots[id] == db.lots[id]
    requires next.movements == db.movements + [m] && m.lot != id
    ensures Frozen(db, next, id)
  {
    SamePrefixMovements(db.movements, next.movements, |db.movements|, id);
  }

  lemma DisposalFreezes(w: World, request: Id, d: DisposalRequest, id: Id)
    requires Inv(w) && id in w.db.lots && w.db.lots[id].status != Held
    requires request in w.lotReads && WellFormed(d)
    requires CommitDisposal(w.db, w.lotReads[request].0, w.lotReads[request].1, d).Ok?
    ensures Frozen(w.db, CommitDisposal(w.db, w.lotReads[request].0, w.lotReads[request].1, d).value, id)
  {
    var next := CommitDisposal(w.db, w.lotReads[request].0, w.lotReads[request].1, d).value;
    DisposalShape(w, request, d);
    OtherAppendFreezes(w.db, next, next.movements[|w.db.movements|], id);
  }

  lemma TransferFreezes(w: World, request: Id, destination: string, id: Id)
    requires Inv(w) && id in w.db.lots && w.db.lots[id].status != Held
    requires request in w.lotReads
    requires CommitTransfer(w.db, w.lotReads[request].0, w.lotReads[request].1, destination).Ok?
    ensures Frozen(w.db, CommitTransfer(w.db, w.lotReads[request].0, w.lotReads[request].1, destination).value, id)
  {
    var next := CommitTransfer(w.db, w.lotReads[request].0, w.lotReads[request].1, destination).value;
    assert ReadTells(w.db, w.lotReads[request]);
    OtherAppendFreezes(w.db, next, next.movements[|w.db.movements|], id);
  }

  lemma EditFreezes(w: World, request: Id, e: EditRequest, id: Id)
    requires Inv(w) && id in w.db.lots && w.db.lots[id].status != Held
    requires request in w.lotReads
    requires CommitEdit(w.db, w.lotReads[request].0, w.lotReads[request].1, e).Ok?
    ensures Frozen(w.db, CommitEdit(w.db, w.lotReads[request].0, w.lotReads[request].1, e).value, id)
  {
    assert ReadTells(w.db, w.lotReads[request]);
  }

  lemma RelabelFreezes(db: Ledger, pid: Id, seen: string, supplied: Option<string>, others: bool, id: Id)
    requires id in db.lots && CommitRelabel(db, pid, seen, supplied, others).Ok?
    ensures Frozen(db, CommitRelabel(db, pid, seen, supplied, others).value, id)
  {
    var next := CommitRelabel(db, pid, seen, supplied, others).value;
    SamePrefixMovements(db.movements, next.movements, |db.movements|, id);
  }

  lemma ArrivalFreezes(w: World, step: Step, id: Id)
    requires id in w.db.lots && (step.Receive? || step.Buy?)
    ensures Frozen(w.db, Next(w, step).db, id)
  {
    var v := Next(w, step);
    match step
    case Receive(lot, g) =>
      if CommitGift(w.db, lot, g).Ok? {
        OtherAppendFreezes(w.db, v.db, v.db.movements[|w.db.movements|], id);
      }
    case Buy(purchase, currency, lots) =>
      if CommitPurchase(w.db, purchase, currency, lots).Ok? {
        assert id !in lots.Keys * w.db.lots.Keys;
      }
  }

  /** The three writes that start from a row someone read. */
  lemma RowWriteFreezes(w: World, step: Step, id: Id)
    requires Inv(w) && id in w.db.lots && w.db.lots[id].status != Held
    requires step.Dispose? || step.Transfer? || step.Edit?
    ensures Frozen(w.db, Next(w, step).db, id)
  {
    hide CommitDisposal, CommitTransfer, CommitEdit, CommitRelabel, CommitGift, CommitPurchase, MovementsOf, Inv;
    match step
    case Dispose(request, d) =>
      if request in w.lotReads && WellFormed(d) && CommitDisposal(w.db, w.lotReads[request].0, w.lotReads[request].1, d).Ok? {
        DisposalFreezes(w, request, d, id);
      }
    case Transfer(request, destination) =>
      if request in w.lotReads && CommitTransfer(w.db, w.lotReads[request].0, w.lotReads[request].1, destination).Ok? {
        TransferFreezes(w, request, destination, id);
      }
    case Edit(request, e) =>
      if request in w.lotReads && CommitEdit(w.db, w.lotReads[request].0, w.lotReads[request].1, e).Ok? {
        EditFreezes(w, request, e, id);
      }
  }

  lemma RelabelStepFreezes(w: World, request: Id, supplied: Option<string>, others: bool, id: Id)
    requires id in w.db.lots
    ensures Frozen(w.db, Next(w, Relabel(request, supplied, others)).db, id)
  {
    hide CommitRelabel, MovementsOf;
    if request in w.purchaseReads
       && CommitRelabel(w.db, w.purchaseReads[request].0, w.purchaseReads[request].1, supplied, others).Ok? {
      RelabelFreezes(w.db, w.purchaseReads[request].0, w.purchaseReads[request].1, supplied, others, id);
    }
  }

  /** Nothing is appended to a lot that has left HELD, whatever old row a request holds. */
  lemma FinishedLotFrozen(w: World, step: Step, id: Id)
    requires Inv(w) && id in w.db.lots && w.db.lots[id].status != Held
    ensures Frozen(w.db, Next(w, step).db, id)
  {
    hide MovementsOf, Inv;
    if step.Dispose? || step.Transfer? || step.Edit? {
      hide Next;
      RowWriteFreezes(w, step, id);
    } else if step.Receive? || step.Buy? {
      hide Next;
      ArrivalFreezes(w, step, id);
    } else if step.Relabel? {
      hide Next;
      RelabelStepFreezes(w, step.request, step.supplied, step.others, id);
    }
  }

  // ---- Profit and loss -----------------------------------------------------------------

  /** Amounts are entered in whole cents.  Then nothing is lost to rounding: what a sale books as
      profit plus the cost that left is what came in less the fees; a lost or damaged piece books its
      cost as loss, a gift books nothing. */
  lemma ProfitBalances(kind: Kind, proceeds: nat, fees: nat, cost: int)
    requires proceeds <= MAX_STORED && fees <= MAX_STORED && IsDisposal(kind)
    ensures var terms := if kind.Sale? then Some(SaleTerms(proceeds as real, fees as real)) else None;
      match RealizedPnl(kind, terms, cost)
      case Some(pnl) => pnl + cost == if kind.Sale? then proceeds - fees else 0
      case None => kind.GiftOut?
  {
    if kind.Sale? {
      var x := if fees <= proceeds then proceeds - fees else fees - proceeds;
      Round20Whole(x);
      HalfEvenWhole(x);
    }
  }

  // ---- Lots and the currency of their purchase -----------------------------------------

  predicate CarriesPurchaseCurrency(db: Ledger, id: Id)
    requires id in db.lots
  {
    var lot := db.lots[id];
    lot.purchase.Some? ==> lot.purchase.value in db.purchases && lot.currency == db.purchases[lot.purchase.value]
  }

  ghost predicate PurchaseLabels(db: Ledger) {
    forall id | id in db.lots :: CarriesPurchaseCurrency(db, id)
  }

  /** A caller could check this against the row: either no currency is written, or it differs
      from the one seen, or it is the one the purchase still has. */
  predicate Harmless(db: Ledger, pid: Id, seen: string, supplied: Option<string>)
    requires pid in db.purchases
  {
    supplied.None? || supplied.value != seen || supplied.value == db.purchases[pid]
  }

  /** The relabel reads the purchase without a lock.  It keeps lots and purchase in step exactly
      when it is harmless: otherwise another relabel came in between, this one puts the old label
      back on the purchase, and sees no change to pass on to the lots. */
  lemma RelabelKeepsPurchaseLabels(db: Ledger, pid: Id, seen: string, supplied: Option<string>, others: bool, lot: Id)
    requires PurchaseLabels(db) && lot in db.lots && Bought(db.lots[lot], pid)
    requires CommitRelabel(db, pid, seen, supplied, others).Ok?
    ensures PurchaseLabels(CommitRelabel(db, pid, seen, supplied, others).value) <==> Harmless(db, pid, seen, supplied)
  {
    var next := CommitRelabel(db, pid, seen, supplied, others).value;
    assert CarriesPurchaseCurrency(db, lot);
    if Harmless(db, pid, seen, supplied) {
      HarmlessRelabelKeeps(db, pid, seen, supplied, others);
    } else {
      assert !CarriesPurchaseCurrency(next, lot);
    }
  }

  lemma HarmlessRelabelKeeps(db: Ledger, pid: Id, seen: string, supplied: Option<string>, others: bool)
    requires PurchaseLabels(db) && CommitRelabel(db, pid, seen, supplied, others).Ok?
    requires Harmless(db, pid, seen, supplied)
    ensures PurchaseLabels(CommitRelabel(db, pid, seen, supplied, others).value)
  {
    var next := CommitRelabel(db, pid, seen, supplied, others).value;
    forall id | id in next.lots
      ensures CarriesPurchaseCurrency(next, id)
    {
      assert CarriesPurchaseCurrency(db, id);
    }
  }

  /** Two relabels that both read USD: the first makes everything TWD, the second restates USD
      together with a note.  The purchase says USD, its lot TWD. */
  lemma RacingRelabelsDisagree(lot: NewLot)
    requires Weighed(lot)
    ensures var steps := [
        Buy(0, "USD", map[0 := lot]), ReadPurchase(1, 0), ReadPurchase(2, 0),
        Relabel(1, Some("TWD"), false), Relabel(2, Some("USD"), true)];
      !PurchaseLabels(Run(EMPTY_WORLD, steps).db)
  {
    hide CommitDisposal, CommitTransfer, CommitEdit, CommitGift;
    var steps := [
      Buy(0, "USD", map[0 := lot]), ReadPurchase(1, 0), ReadPurchase(2, 0),
      Relabel(1, Some("TWD"), false), Relabel(2, Some("USD"), true)];
    var a := Next(EMPTY_WORLD, steps[0]);
    assert a.db.purchases == map[0 := "USD"] && a.db.lots[0].currency == "USD";
    var b := Next(Next(a, steps[1]), steps[2]);
    var c := Next(b, steps[3]);
    assert c.db.purchases[0] == "TWD" && c.db.lots[0].currency == "TWD";
    var d := Next(c, steps[4]);
    assert d.db.purchases[0] == "USD" && d.db.lots[0].currency == "TWD" && d.db.lots[0].purchase == Some(0);
    assert !CarriesPurchaseCurrency(d.db, 0);
    FiveSteps(EMPTY_WORLD, steps);
  }

  lemma FiveSteps(w: World, s: seq<Step>)
    requires |s| == 5
    ensures Run(w, s) == Next(Next(Next(Next(Next(w, s[0]), s[1]), s[2]), s[3]), s[4])
  {
    var t := s[1..];
    assert t[0] == s[1] && t[1..][0] == s[2] && t[1..][1..][0] == s[3] && t[1..][1..][1..][0] == s[4];
    var w1 := Next(w, s[0]);
    var w2 := Next(w1, s[1]);
    assert Run(w, s) == Run(w1, t) == Run(w2, t[1..]);
    var w3 := Next(w2, s[2]);
    var w4 := Next(w3, s[3]);
    assert Run(w2, t[1..]) == Run(w3, t[1..][1..]) == Run(w4, t[1..][1..][1..]);
    assert Run(w4, t[1..][1..][1..]) == Run(Next(w4, s[4]), []);
  }

  ghost predicate HarmlessStep(w: World, step: Step) {
    match step
    case Relabel(request, supplied, others) =>
      request in w.purchaseReads && w.purchaseReads[request].0 in w.db.purchases ==>
        Harmless(w.db, w.purchaseReads[request].0, w.purchaseReads[request].1, supplied)
    case _ => true
  }

  ghost predicate HarmlessRun(w: World, steps: seq<Step>)
    decreases |steps|
  {
    steps == [] || (HarmlessStep(w, steps[0]) && HarmlessRun(Next(w, steps[0]), steps[1..]))
  }

  lemma StepKeepsPurchaseLabels(w: World, step: Step)
    requires Inv(w) && PurchaseLabels(w.db) && HarmlessStep(w, step)
    ensures PurchaseLabels(Next(w, step).db)
  {
    hide CommitDisposal, CommitTransfer, CommitEdit, CommitGift, CommitPurchase;
    match step
    case Relabel(request, supplied, others) =>
      if request in w.purchaseReads {
        var (pid, seen) := w.purchaseReads[request];
        if CommitRelabel(w.db, pid, seen, supplied, others).Ok? {
          HarmlessRelabelKeeps(w.db, pid, seen, supplied, others);
        }
      }
    case Buy(purchase, currency, lots) =>
      if CommitPurchase(w.db, purchase, currency, lots).Ok? {
        BuyKeepsPurchaseLabels(w.db, purchase, currency, lots);
      }
    case Dispose(request, d) =>
      if request in w.lotReads && WellFormed(d) && CommitDisposal(w.db, w.lotReads[request].0, w.lotReads[request].1, d).Ok? {
        DisposeKeepsPurchaseLabels(w, request, d);
      }
    case Transfer(request, destination) =>
      if request in w.lotReads && CommitTransfer(w.db, w.lotReads[request].0, w.lotReads[request].1, destination).Ok? {
        TransferKeepsPurchaseLabels(w, request, destination);
      }
    case Edit(request, e) =>
      if request in w.lotReads && CommitEdit(w.db, w.lotReads[request].0, w.lotReads[request].1, e).Ok? {
        EditKeepsPurchaseLabels(w, request, e);
      }
    case Receive(lot, g) =>
      if CommitGift(w.db, lot, g).Ok? {
        ReceiveKeepsPurchaseLabels(w.db, lot, g);
      }
    case _ =>
  }

  lemma RowKeepsPurchaseLabels(db: Ledger, next: Ledger, id: Id)
    requires PurchaseLabels(db) && Advances(db, next, id) && next.purchases == db.purchases
    requires next.lots[id].purchase.Some? ==> next.lots[id].currency == db.lots[id].currency
    ensures PurchaseLabels(next)
  {
    forall i | i in next.lots
      ensures CarriesPurchaseCurrency(next, i)
    {
      assert CarriesPurchaseCurrency(db, i);
    }
  }

  lemma DisposeKeepsPurchaseLabels(w: World, request: Id, d: DisposalRequest)
    requires Inv(w) && PurchaseLabels(w.db) && request in w.lotReads && WellFormed(d)
    requires CommitDisposal(w.db, w.lotReads[request].0, w.lotReads[request].1, d).Ok?
    ensures PurchaseLabels(CommitDisposal(w.db, w.lotReads[request].0, w.lotReads[request].1, d).value)
  {
    DisposalShape(w, request, d);
    var next := CommitDisposal(w.db, w.lotReads[request].0, w.lotReads[request].1, d).value;
    RowKeepsPurchaseLabels(w.db, next, w.lotReads[request].0);
  }

  lemma TransferKeepsPurchaseLabels(w: World, request: Id, destination: string)
    requires Inv(w) && PurchaseLabels(w.db) && request in w.lotReads
    requires CommitTransfer(w.db, w.lotReads[request].0, w.lotReads[request].1, destination).Ok?
    ensures PurchaseLabels(CommitTransfer(w.db, w.lotReads[request].0, w.lotReads[request].1, destination).value)
  {
    assert ReadTells(w.db, w.lotReads[request]);
    var next := CommitTransfer(w.db, w.lotReads[request].0, w.lotReads[request].1, destination).value;
    RowKeepsPurchaseLabels(w.db, next, w.lotReads[request].0);
  }

  lemma EditKeepsPurchaseLabels(w: World, request: Id, e: EditRequest)
    requires Inv(w) && PurchaseLabels(w.db) && request in w.lotReads
    requires CommitEdit(w.db, w.lotReads[request].0, w.lotReads[request].1, e).Ok?
    ensures PurchaseLabels(CommitEdit(w.db, w.lotReads[request].0, w.lotReads[request].1, e).value)
  {
    assert ReadTells(w.db, w.lotReads[request]);
    var next := CommitEdit(w.db, w.lotReads[request].0, w.lotReads[request].1, e).value;
    RowKeepsPurchaseLabels(w.db, next, w.lotReads[request].0);
  }

  lemma ReceiveKeepsPurchaseLabels(db: Ledger, lot: Id, g: GiftRequest)
    requires PurchaseLabels(db) && CommitGift(db, lot, g).Ok?
    ensures PurchaseLabels(CommitGift(db, lot, g).value)
  {
    var next := CommitGift(db, lot, g).value;
    forall i | i in next.lots
      ensures CarriesPurchaseCurrency(next, i)
    {
      assert i != lot ==> CarriesPurchaseCurrency(db, i);
    }
  }

  lemma BuyKeepsPurchaseLabels(db: Ledger, pid: Id, currency: string, lots: map<Id, NewLot>)
    requires PurchaseLabels(db) && CommitPurchase(db, pid, currency, lots).Ok?
    ensures PurchaseLabels(CommitPurchase(db, pid, currency, lots).value)
  {
    var next := CommitPurchase(db, pid, currency, lots).value;
    forall i | i in next.lots
      ensures CarriesPurchaseCurrency(next, i)
    {
      assert i !in lots ==> CarriesPurchaseCurrency(db, i);
    }
  }

  /** In every run whose relabels are harmless each bought lot carries its purchase's currency. */
  lemma {:induction false} HarmlessRunKeepsPurchaseLabels(w: World, steps: seq<Step>)
    requires Inv(w) && PurchaseLabels(w.db) && HarmlessRun(w, steps)
    ensures PurchaseLabels(Run(w, steps).db)
    decreases |steps|
  {
    if steps != [] {
      StepKeepsPurchaseLabels(w, steps[0]);
      NextKeeps(w, steps[0]);
      HarmlessRunKeepsPurchaseLabels(Next(w, steps[0]), steps[1..]);
    }
  }

  // ---- Fine weight within gross weight -------------------------------------------------

  predicate FineWithin(lot: Lot) {
    Ordered(lot.balance)
  }

  ghost predicate AllFineWithin(db: Ledger) {
    forall id | id in db.lots :: FineWithin(db.lots[id])
  }

  /** A row that enters, or whose weights are restated, has its fine weight from its purity. */
  lemma WeighedOrdered(b: StoredBalance, purity: real)
    requires 1 <= b.quantity <= MAX_PIECES && ValidPurity(purity) && b.fine == FineWeight(b.gross, purity)
    ensures Ordered(b)
  {
    hide FineWeight, ValidPurity;
    FineGap(b.gross, purity);
  }

  /** The items of a computed purchase enter the ledger. */
  lemma ComputedItemEnters(raw: Purchase.ItemInput, cost: int, location: string)
    requires Purchase.ComputeItem(raw).Ok? && raw.quantity <= MAX_PIECES && 0 <= cost <= MAX_STORED
    ensures var item := Purchase.ComputeItem(raw).value;
      Weighed(NewLot(Balance(raw.quantity, item.fineWeight, item.grossWeight, cost), raw.purity, location))
  {
    hide FineWeight;
  }

  lemma PlannedEditOrdered(read: Lot, e: EditRequest)
    requires PlanEdit(read, e).Ok? && Ordered(read.balance)
    ensures Ordered(PlanEdit(read, e).value.balance)
  {
    hide FineWeight, ValidPurity, EditedGross, Ordered;
    var next := PlanEdit(read, e).value;
    if e.quantity.Some? || e.unitWeight.Some? || e.purity.Some? {
      OrderedPieces(read.balance);
      WeighedOrdered(next.balance, next.purity);
    } else {
      assert EditedGross(read, e) == Some(read.balance.gross) by {
        GrossUnchanged(read, e);
      }
      SameWeightsOrdered(read.balance, next.balance);
    }
  }

  lemma OrderedPieces(b: Balance)
    requires Ordered(b)
    ensures b.quantity <= MAX_PIECES
  {
  }

  lemma GrossUnchanged(read: Lot, e: EditRequest)
    requires 0 < read.balance.quantity && e.quantity.None? && e.unitWeight.None?
    ensures EditedGross(read, e) == Some(read.balance.gross)
  {
  }

  lemma SameWeightsOrdered(b: Balance, c: Balance)
    requires Ordered(b) && (c.quantity, c.fine, c.gross) == (b.quantity, b.fine, b.gross)
    ensures Ordered(c)
  {
  }

  lemma StepKeepsFine(w: World, step: Step)
    requires Inv(w) && AllFineWithin(w.db)
    ensures AllFineWithin(Next(w, step).db)
  {
    hide CommitDisposal, CommitTransfer, CommitEdit, CommitGift, CommitPurchase, CommitRelabel, Inv, AllFineWithin;
    if step.Dispose? || step.Edit? {
      RowWriteKeepsFine(w, step);
    } else if step.Receive? || step.Buy? {
      ArrivalKeepsFine(w, step);
    } else {
      OtherStepKeepsFine(w, step);
    }
  }

  lemma RowWriteKeepsFine(w: World, step: Step)
    requires Inv(w) && AllFineWithin(w.db) && (step.Dispose? || step.Edit?)
    ensures AllFineWithin(Next(w, step).db)
  {
    hide CommitDisposal, CommitEdit, Inv, AllFineWithin;
    match step
    case Dispose(request, d) =>
      if request in w.lotReads && WellFormed(d) && CommitDisposal(w.db, w.lotReads[request].0, w.lotReads[request].1, d).Ok? {
        DisposeKeepsFine(w, request, d);
      }
    case Edit(request, e) =>
      if request in w.lotReads && CommitEdit(w.db, w.lotReads[request].0, w.lotReads[request].1, e).Ok? {
        EditKeepsFine(w, request, e);
      }
  }

  lemma ArrivalKeepsFine(w: World, step: Step)
    requires AllFineWithin(w.db) && (step.Receive? || step.Buy?)
    ensures AllFineWithin(Next(w, step).db)
  {
    hide CommitGift, CommitPurchase, AllFineWithin;
    match step
    case Receive(lot, g) =>
      if CommitGift(w.db, lot, g).Ok? {
        ReceiveKeepsFine(w.db, lot, g);
      }
    case Buy(purchase, currency, lots) =>
      if CommitPurchase(w.db, purchase, currency, lots).Ok? {
        BuyKeepsFine(w.db, purchase, currency, lots);
      }
  }

  /** Reads, transfers and relabels leave every balance alone. */
  lemma OtherStepKeepsFine(w: World, step: Step)
    requires AllFineWithin(w.db) && !(step.Dispose? || step.Edit? || step.Receive? || step.Buy?)
    ensures AllFineWithin(Next(w, step).db)
  {
    hide FineWithin;
    SameBalancesKeepFine(w.db, Next(w, step).db);
  }

  lemma SameBalancesKeepFine(db: Ledger, next: Ledger)
    requires AllFineWithin(db) && next.lots.Keys == db.lots.Keys
    requires forall id | id in db.lots :: next.lots[id].balance == db.lots[id].balance
    ensures AllFineWithin(next)
  {
    forall id | id in next.lots
      ensures FineWithin(next.lots[id])
    {
      assert FineWithin(db.lots[id]);
    }
  }

  lemma OneRowKeepsFine(db: Ledger, next: Ledger, id: Id)
    requires AllFineWithin(db) && id in next.lots
    requires forall i | i in next.lots && i != id :: i in db.lots && next.lots[i] == db.lots[i]
    requires Ordered(next.lots[id].balance)
    ensures AllFineWithin(next)
  {
    forall i | i in next.lots
      ensures FineWithin(next.lots[i])
    {
      assert i != id ==> FineWithin(db.lots[i]);
    }
  }

  lemma DisposeKeepsFine(w: World, request: Id, d: DisposalRequest)
    requires Inv(w) && AllFineWithin(w.db) && request in w.lotReads && WellFormed(d)
    requires CommitDisposal(w.db, w.lotReads[request].0, w.lotReads[request].1, d).Ok?
    ensures AllFineWithin(CommitDisposal(w.db, w.lotReads[request].0, w.lotReads[request].1, d).value)
  {
    hide Ordered, CommitDisposal, SplitForDisposal;
    var (id, read) := w.lotReads[request];
    DisposalShape(w, request, d);
    assert FineWithin(w.db.lots[id]);
    SplitKeepsOrdered(read.balance, d.quantity);
    OneRowKeepsFine(w.db, CommitDisposal(w.db, id, read, d).value, id);
  }

  lemma EditKeepsFine(w: World, request: Id, e: EditRequest)
    requires Inv(w) && AllFineWithin(w.db) && request in w.lotReads
    requires CommitEdit(w.db, w.lotReads[request].0, w.lotReads[request].1, e).Ok?
    ensures AllFineWithin(CommitEdit(w.db, w.lotReads[request].0, w.lotReads[request].1, e).value)
  {
    hide Ordered, PlanEdit;
    var (id, read) := w.lotReads[request];
    assert ReadTells(w.db, w.lotReads[request]);
    assert FineWithin(w.db.lots[id]);
    PlannedEditOrdered(read, e);
    OneRowKeepsFine(w.db, CommitEdit(w.db, id, read, e).value, id);
  }

  lemma ReceiveKeepsFine(db: Ledger, lot: Id, g: GiftRequest)
    requires AllFineWithin(db) && CommitGift(db, lot, g).Ok?
    ensures AllFineWithin(CommitGift(db, lot, g).value)
  {
    hide FineWeight, ValidPurity, Ordered;
    var next := CommitGift(db, lot, g).value;
    WeighedOrdered(next.lots[lot].balance, g.purity);
    OneRowKeepsFine(db, next, lot);
  }

  lemma BuyKeepsFine(db: Ledger, pid: Id, currency: string, lots: map<Id, NewLot>)
    requires AllFineWithin(db) && CommitPurchase(db, pid, currency, lots).Ok?
    ensures AllFineWithin(CommitPurchase(db, pid, currency, lots).value)
  {
    hide FineWeight, ValidPurity, Ordered;
    var next := CommitPurchase(db, pid, currency, lots).value;
    forall i | i in next.lots
      ensures FineWithin(next.lots[i])
    {
      if i in lots {
        assert Weighed(lots[i]);
        WeighedOrdered(lots[i].balance, lots[i].purity);
      } else {
        assert FineWithin(db.lots[i]);
      }
    }
  }

  lemma {:induction false} RunKeepsOrder(w: World, steps: seq<Step>)
    requires Inv(w) && AllFineWithin(w.db)
    ensures AllFineWithin(Run(w, steps).db)
    decreases |steps|
  {
    if steps != [] {
      StepKeepsFine(w, steps[0]);
      NextKeeps(w, steps[0]);
      RunKeepsOrder(Next(w, steps[0]), steps[1..]);
    }
  }

  /** Through purchases, gifts received, edits and disposals in any interleaving, no lot ever has more
      fine than gross weight, nor a negative one. */
  lemma RunKeepsFineWithinGross(steps: seq<Step>, id: Id)
    ensures var w := Run(EMPTY_WORLD, steps);
      id in w.db.lots ==> 0 <= w.db.lots[id].balance.fine <= w.db.lots[id].balance.gross
  {
    RunKeepsOrder(EMPTY_WORLD, steps);
    var w := Run(EMPTY_WORLD, steps);
    assert id in w.db.lots ==> FineWithin(w.db.lots[id]);
  }
}
