/**
 What each write to the lot ledger is accepted for and leaves behind, said of the rows themselves.
 */
module LotEffects {
  import opened Results
  import opened Decimals
  import opened Money
  import opened Weights
  import opened Disposal
  import opened LotLedger

  // ---- Disposals -----------------------------------------------------------------------

  /** The row is as it was when it was read. */
  predicate Unchanged(db: Ledger, id: Id, read: Lot) {
    id in db.lots && db.lots[id].version == read.version
  }

  /** A disposal is written exactly for a held lot nobody has touched since it was read, whose version is the
      one the user saw if one was given, and that has as many pieces; amounts may not be negative. */
  lemma DisposalAcceptedIff(db: Ledger, id: Id, read: Lot, d: DisposalRequest)
    requires WellFormed(d)
    ensures CommitDisposal(db, id, read, d).Ok? <==>
      && Unchanged(db, id, read) && read.status == Held
      && (d.version == None || d.version == Some(read.version))
      && 0 < d.quantity <= read.balance.quantity
      && (d.terms.Some? ==> 0.0 <= d.terms.value.proceeds && 0.0 <= d.terms.value.fees)
  {
    SplitSucceedsIff(read.balance, d.quantity);
    hide SplitForDisposal;
  }

  /** What becomes of a lot without pieces. */
  predicate Ends(kind: Kind, status: Status) {
    match status
    case Sold => kind == Sale
    case Gifted => kind == GiftOut
    case WasLost => kind == Lost
    case WasDamaged => kind == Damaged
    case Held => false
  }

  /** The lot keeps what the movement does not take, and a status that says how it ended once nothing is left;
      the movement says what was taken, and in which currency if it books a profit or loss. */
  lemma DisposalWrites(db: Ledger, id: Id, read: Lot, d: DisposalRequest)
    requires WellFormed(d) && CommitDisposal(db, id, read, d).Ok?
    ensures var next := CommitDisposal(db, id, read, d).value; var n := |db.movements|;
      && id in db.lots && id in next.lots
      && next == db.(lots := db.lots[id := next.lots[id]], movements := next.movements)
      && |next.movements| == n + 1 && next.movements[..n] == db.movements
      && var m, lot := next.movements[n], next.lots[id];
      && lot == db.lots[id].(balance := lot.balance, status := lot.status, version := db.lots[id].version + 1)
      && m.lot == id && m.kind == d.kind && m.amount.quantity == d.quantity
      && Add(m.amount, lot.balance) == read.balance
      && (if d.quantity == read.balance.quantity then Ends(d.kind, lot.status) && lot.balance == EMPTY
          else
            && lot.status == Held
            && InProportion(m.amount.fine, read.balance.fine, d.quantity, read.balance.quantity)
            && InProportion(m.amount.gross, read.balance.gross, d.quantity, read.balance.quantity)
            && InProportion(m.amount.cost, read.balance.cost, d.quantity, read.balance.quantity))
      && m.realizedPnl == RealizedPnl(d.kind, d.terms, m.amount.cost)
      && m.currency == if d.kind == GiftOut then None else Some(read.currency)
  {
    hide SplitForDisposal, InProportion;
    SplitSucceedsIff(read.balance, d.quantity);
    SplitConserves(read.balance, d.quantity);
    if d.quantity < read.balance.quantity {
      TakenInProportion(read.balance, d.quantity);
    }
    var next := CommitDisposal(db, id, read, d).value;
    assert next.movements[..|db.movements|] == db.movements;
  }

  // ---- Transfers -----------------------------------------------------------------------

  /** A transfer moves a held, untouched lot, and only that. */
  lemma TransferMoves(db: Ledger, id: Id, read: Lot, destination: string)
    ensures CommitTransfer(db, id, read, destination).Ok? <==> Unchanged(db, id, read) && read.status == Held
    ensures CommitTransfer(db, id, read, destination).Ok? ==>
      CommitTransfer(db, id, read, destination).value == Ledger(
        db.lots[id := db.lots[id].(location := destination, version := db.lots[id].version + 1)],
        db.movements + [Movement(id, StorageTransfer, Balance(0, 0, 0, 0), None, None)],
        db.purchases)
  {
  }

  // ---- Edits ---------------------------------------------------------------------------

  /** So many pieces of a weight, to the unit and the twentieth digit. */
  predicate IsPieces(n: int, weight: real, pieces: real) {
    -0.7 <= n as real - weight * pieces <= 0.7
  }

  /** The new gross weight is old weight over old pieces times new pieces. */
  lemma ScaledInProportion(gross: int, held: int, quantity: int)
    requires 0 <= gross <= MAX_WEIGHT && 0 < held && 0 <= quantity && ScaledGross(gross, held, quantity).Some?
    ensures IsPieces(ScaledGross(gross, held, quantity).value, gross as real / held as real, quantity as real)
  {
    hide IsPieces, PiecesWeight;
    var y := gross as real / held as real;
    QuotientNonNegative(gross as real, held as real);
    Round20Error(y);
    Round20Range(y);
    PiecesInProportion(Round20(y), y, quantity);
  }

  lemma PiecesInProportion(u: real, y: real, quantity: int)
    requires 0.0 <= u && 0.0 <= y && 0 <= quantity && Near20(u, y) && PiecesWeight(u, quantity).Some?
    ensures IsPieces(PiecesWeight(u, quantity).value, y, quantity as real)
  {
    hide PiecesWeight, Near20, IsPieces;
    var q := quantity as real;
    PiecesIs(u, quantity, q, u * q);
    NearTimes(u, y, q, u * q, y * q);
    RoundedPieces(y, q, u * q, y * q, PiecesWeight(u, quantity).value);
  }

  lemma PiecesIs(u: real, quantity: int, q: real, x: real)
    requires 0.0 <= u && 0 <= quantity && q == quantity as real && x == u * q
    ensures 0.0 <= x && 0.0 <= Round20(x) && PiecesWeight(u, quantity) == QuantizeWeight(Round20(x))
  {
    ProductLe(0.0, u, q);
    Round20Range(x);
  }

  lemma RoundedPieces(y: real, q: real, x: real, exact: real, n: int)
    requires 0.0 <= x && 0.0 <= exact && exact == y * q && Near20(x, exact)
    requires 0.0 <= Round20(x) && QuantizeWeight(Round20(x)) == Some(n)
    ensures IsPieces(n, y, q)
  {
    Round20Error(x);
    TwoRoundingsNear(exact, x, Round20(x), n);
  }

  /** Equal to twenty digits. */
  predicate Near20(x: real, y: real) {
    (2e19 - 1.0) * y <= 2e19 * x <= (2e19 + 1.0) * y
  }

  lemma NearTimes(u: real, y: real, q: real, uq: real, yq: real)
    requires 0.0 <= q && 0.0 <= u && 0.0 <= y && Near20(u, y) && uq == u * q && yq == y * q
    ensures Near20(uq, yq) && 0.0 <= uq && 0.0 <= yq
  {
    var low, high := 2e19 * (u - y) + y, y - 2e19 * (u - y);
    ProductLe(0.0, low, q);
    ProductLe(0.0, high, q);
    assert low * q == 2e19 * (uq - yq) + yq;
    assert high * q == yq - 2e19 * (uq - yq);
    ProductLe(0.0, u, q);
    ProductLe(0.0, y, q);
  }

  lemma TwoRoundingsNear(exact: real, x: real, y: real, n: int)
    requires 0.0 <= exact && 0.0 <= x && 0.0 <= y
    requires Near20(x, exact) && Near20(y, x)
    requires -0.5 <= n as real - y <= 0.5 && n <= MAX_WEIGHT
    ensures -0.7 <= n as real - exact <= 0.7
  {
    assert y <= 1e18;
    assert x <= 1.1e18;
    assert exact <= 1.2e18;
  }

  /** The gross weight an edit leaves: of the unit weight entered, of the new number of pieces, or as it was. */
  predicate WeighsAs(gross: int, read: Lot, e: EditRequest, quantity: int)
    requires 0 < read.balance.quantity
  {
    if e.unitWeight.Some? then
      && UnitWeight(e.unitWeight.value.0, e.unitWeight.value.1).Some?
      && var unit := UnitWeight(e.unitWeight.value.0, e.unitWeight.value.1).value;
      0 < unit && gross == unit * quantity
    else if e.quantity.Some? then
      IsPieces(gross, read.balance.gross as real / read.balance.quantity as real, quantity as real)
    else gross == read.balance.gross
  }

  predicate Reweighs(e: EditRequest) {
    e.quantity.Some? || e.unitWeight.Some? || e.purity.Some?
  }

  /** More than zero, at most one, in ten millionths. */
  predicate SevenDecimals(p: real) {
    0.0 < p <= 1.0 && (p * 10000000.0).Floor as real == p * 10000000.0
  }

  lemma EditWeighs(read: Lot, e: EditRequest)
    requires 0 < read.balance.quantity && (e.quantity.Some? ==> 1 <= e.quantity.value) && EditedGross(read, e).Some?
    ensures WeighsAs(EditedGross(read, e).value, read, e, if e.quantity.Some? then e.quantity.value else read.balance.quantity)
  {
    hide ScaledGross, GrossWeight, IsPieces, UnitWeight;
    var quantity := if e.quantity.Some? then e.quantity.value else read.balance.quantity;
    if e.unitWeight.Some? {
      var unit := UnitWeight(e.unitWeight.value.0, e.unitWeight.value.1);
      GrossIsPieces(unit.value, quantity);
    } else if e.quantity.Some? {
      ScaledInProportion(read.balance.gross, read.balance.quantity, quantity);
    }
  }

  /** What an edit leaves of the row: every field it names as it says, the others as they were, and fine weight
      from gross weight and purity whenever one of the three figures behind it is named. */
  lemma EditLeaves(read: Lot, e: EditRequest)
    requires PlanEdit(read, e).Ok?
    ensures var lot := PlanEdit(read, e).value; var b, was := lot.balance, read.balance;
      && e.version == read.version && read.status == Held && 0 < was.quantity
      && lot == read.(balance := b, purity := lot.purity, currency := lot.currency, location := lot.location)
      && b.quantity == (match e.quantity case Some(q) => q case None => was.quantity)
      && (e.quantity.Some? ==> 1 <= e.quantity.value <= 1_000_000)
      && lot.purity == (match e.purity case Some(p) => p case None => read.purity)
      && WeighsAs(b.gross, read, e, b.quantity)
      && (if Reweighs(e) then SevenDecimals(lot.purity) && -0.56 <= b.fine as real - b.gross as real * lot.purity <= 0.56
          else b.fine == was.fine)
      && (match e.cost
          case Some(x) => 0.0 <= x <= 99999999999999.99 && b.cost % 100 == 0 && -50.0 <= b.cost as real - x * 10000.0 <= 50.0
          case None => b.cost == was.cost)
      && (match e.currency case Some(c) => read.purchase == None && lot.currency == c case None => lot.currency == read.currency)
      && lot.location == (match e.location case Some(l) => l case None => read.location)
  {
    hide EditedGross, FineWeight, Cents, WeighsAs;
    EditWeighs(read, e);
    var lot := PlanEdit(read, e).value;
    if Reweighs(e) {
      FineIsShare(lot.balance.gross, lot.purity);
    }
  }

  lemma EditedInRange(read: Lot, e: EditRequest)
    requires 0 < read.balance.quantity && (e.quantity.Some? ==> 1 <= e.quantity.value) && EditedGross(read, e).Some?
    ensures 0 <= EditedGross(read, e).value <= MAX_WEIGHT
  {
  }

  /** An edit of descriptive fields is planned whenever the version is the one seen, the lot is held, and the
      figures named are in range; a lot with a purchase keeps the purchase's currency. */
  lemma EditPlannedIff(read: Lot, e: EditRequest)
    requires e.descriptive && 0 < read.balance.quantity
    ensures PlanEdit(read, e).Ok? <==>
      && e.version == read.version && read.status == Held
      && (e.quantity.Some? ==> 1 <= e.quantity.value <= 1_000_000)
      && EditedGross(read, e).Some?
      && (e.purity.Some? ==> SevenDecimals(e.purity.value))
      && (Reweighs(e) && e.purity.None? ==> SevenDecimals(read.purity))
      && (e.cost.Some? ==> 0.0 <= e.cost.value <= 99999999999999.99)
      && (e.currency.Some? ==> read.purchase == None)
  {
    if (e.quantity.Some? ==> 1 <= e.quantity.value) && EditedGross(read, e).Some? {
      EditedInRange(read, e);
    }
    hide EditedGross, FineWeight, Cents;
  }

  /** It is written exactly while nobody has touched the row. */
  lemma EditWrites(db: Ledger, id: Id, read: Lot, e: EditRequest)
    ensures CommitEdit(db, id, read, e).Ok? <==> PlanEdit(read, e).Ok? && Unchanged(db, id, read)
    ensures CommitEdit(db, id, read, e).Ok? ==>
      var plan := PlanEdit(read, e).value;
      CommitEdit(db, id, read, e).value == db.(lots := db.lots[id := db.lots[id].(
        balance := plan.balance, purity := plan.purity, currency := plan.currency, location := plan.location,
        version := db.lots[id].version + 1)])
  {
    hide PlanEdit;
  }

  // ---- Lots enter ----------------------------------------------------------------------

  /** A gift enters as one held lot without a purchase, weighed from what was entered, and one movement. */
  lemma GiftEnters(db: Ledger, id: Id, g: GiftRequest)
    requires CommitGift(db, id, g).Ok?
    ensures var next := CommitGift(db, id, g).value;
      && id !in db.lots && id in next.lots && next == Ledger(db.lots[id := next.lots[id]], next.movements, db.purchases)
      && var lot := next.lots[id]; var b := lot.balance;
      && next.movements == db.movements + [Movement(id, Kind.GiftIn, b, None, None)]
      && lot == Lot(None, b, g.purity, g.currency, Held, 1, g.location)
      && b.quantity == g.quantity && 1 <= g.quantity <= 1_000_000 && b.cost == g.value
      && UnitWeight(g.unitWeight, g.unit).Some? && 0 < UnitWeight(g.unitWeight, g.unit).value
      && b.gross == UnitWeight(g.unitWeight, g.unit).value * g.quantity
      && SevenDecimals(g.purity) && -0.56 <= b.fine as real - b.gross as real * g.purity <= 0.56
  {
    hide FineWeight, UnitWeight, GrossWeight;
    var unit := UnitWeight(g.unitWeight, g.unit).value;
    GrossIsPieces(unit, g.quantity);
    FineIsShare(unit * g.quantity, g.purity);
  }

  lemma GiftAcceptedIff(db: Ledger, id: Id, g: GiftRequest)
    ensures CommitGift(db, id, g).Ok? <==>
      && id !in db.lots && 1 <= g.quantity <= 1_000_000 && SevenDecimals(g.purity) && g.value <= MAX_STORED
      && UnitWeight(g.unitWeight, g.unit).Some? && 0 < UnitWeight(g.unitWeight, g.unit).value
      && UnitWeight(g.unitWeight, g.unit).value * g.quantity <= MAX_WEIGHT
  {
    hide FineWeight, UnitWeight, GrossWeight;
    var unit := UnitWeight(g.unitWeight, g.unit);
    if unit.Some? && 0 < unit.value && 1 <= g.quantity {
      GrossIsPieces(unit.value, g.quantity);
    }
  }

  /** A purchase enters with its lots, each held, weighed as given and labelled with its currency. */
  lemma PurchaseEnters(db: Ledger, pid: Id, currency: string, lots: map<Id, NewLot>)
    requires CommitPurchase(db, pid, currency, lots).Ok?
    ensures var next := CommitPurchase(db, pid, currency, lots).value;
      && pid !in db.purchases && next.purchases == db.purchases[pid := currency] && next.movements == db.movements
      && (forall i :: i in next.lots <==> i in db.lots || i in lots)
      && (forall i | i in db.lots :: i !in lots && next.lots[i] == db.lots[i])
      && (forall i | i in lots :: next.lots[i] == Lot(Some(pid), lots[i].balance, lots[i].purity, currency, Held, 1, lots[i].location))
  {
    forall i | i in db.lots
      ensures i !in lots
    {
      assert i !in lots.Keys * db.lots.Keys;
    }
  }

  // ---- Relabelling ---------------------------------------------------------------------

  /** A relabel that sees another currency writes it on the purchase, on all its lots with a new version, and
      on every movement of them that books a currency; one that restates the currency it saw writes the
      purchase alone, and one without a currency nothing. */
  lemma RelabelWrites(db: Ledger, pid: Id, seen: string, supplied: Option<string>, others: bool)
    ensures CommitRelabel(db, pid, seen, supplied, others).Ok? <==>
      pid in db.purchases && ((supplied.Some? && supplied.value != seen) || others)
    ensures CommitRelabel(db, pid, seen, supplied, others).Ok? ==>
      var next := CommitRelabel(db, pid, seen, supplied, others).value;
      && next.purchases == (if supplied.Some? then db.purchases[pid := supplied.value] else db.purchases)
      && next.lots.Keys == db.lots.Keys && |next.movements| == |db.movements|
      && var relabels := supplied.Some? && supplied.value != seen;
      && (forall i | i in db.lots :: next.lots[i] ==
            if relabels && db.lots[i].purchase == Some(pid)
            then db.lots[i].(currency := supplied.value, version := db.lots[i].version + 1) else db.lots[i])
      && (forall k | 0 <= k < |db.movements| :: next.movements[k] ==
            var m := db.movements[k];
            if relabels && m.currency.Some? && m.lot in db.lots && db.lots[m.lot].purchase == Some(pid)
            then m.(currency := Some(supplied.value)) else m)
  {
  }
}
