/**
 The lot ledger (apps/api/src/movements/movements.service.ts, assets.service.ts and the currency
 relabel of purchases.service.ts).  A transaction reads a row, works out the change from what it
 read, and writes it only if the row still has the version it read; other transactions may commit
 in between.  Functions describe one write; LedgerStore performs them on its tables in place.
 */
module LotLedger {
  import opened Results
  import opened Decimals
  import opened Money
  import opened Weights
  import opened Disposal

  type Id = nat

  /** What a balance column can hold. */
  type StoredBalance = b: Balance | Stored(b) witness EMPTY

  datatype Kind = Sale | GiftOut | Lost | Damaged | StorageTransfer | GiftIn

  datatype Status = Held | Sold | Gifted | WasLost | WasDamaged

  datatype Lot = Lot(
    purchase: Option<Id>, balance: StoredBalance, purity: real, currency: string,
    status: Status, version: nat, location: string)

  /** Appended once; only a relabel touches it again, and only its currency. */
  datatype Movement = Movement(
    lot: Id, kind: Kind, amount: Balance, currency: Option<string>, realizedPnl: Option<int>)

  datatype Ledger = Ledger(lots: map<Id, Lot>, movements: seq<Movement>, purchases: map<Id, string>)

  datatype Refusal =
    | NotFound | NotHeld | Stale | BadSplit(error: MovementError) | BadAmount | NoChanges
    | BadQuantityInput | BadWeightInput | BadPurityInput | FollowsPurchase | Taken

  // ---- Disposals -----------------------------------------------------------------------

  predicate IsDisposal(kind: Kind) {
    kind.Sale? || kind.GiftOut? || kind.Lost? || kind.Damaged?
  }

  predicate BooksRealizedPnl(kind: Kind) {
    kind.Sale? || kind.Lost? || kind.Damaged?
  }

  function StatusAfterDisposal(kind: Kind, remaining: int): Status {
    if 0 < remaining then Held
    else
      match kind
      case Sale => Sold
      case GiftOut => Gifted
      case Lost => WasLost
      case Damaged => WasDamaged
      case _ => Held
  }

  /** What the buyer paid and what it cost to sell, in units of 1e-4. */
  datatype SaleTerms = SaleTerms(proceeds: real, fees: real)

  /** Net proceeds rounded to the stored scale; they may be negative. */
  function NetProceeds(t: SaleTerms): int {
    var x := t.proceeds - t.fees;
    if x < 0.0 then
      Round20Range(-x);
      -HalfEven(Round20(-x))
    else
      Round20Range(x);
      HalfEven(Round20(x))
  }

  function RealizedPnl(kind: Kind, terms: Option<SaleTerms>, cost: int): Option<int> {
    if kind.Sale? && terms.Some? then Some(NetProceeds(terms.value) - cost)
    else if BooksRealizedPnl(kind) then Some(-cost)
    else None
  }

  datatype DisposalRequest = DisposalRequest(
    kind: Kind, quantity: int, version: Option<nat>, terms: Option<SaleTerms>)

  predicate WellFormed(d: DisposalRequest) {
    IsDisposal(d.kind) && (d.kind.Sale? <==> d.terms.Some?)
  }

  /** Splits the lot that was read, or says why it cannot. */
  function PlanDisposal(read: Lot, d: DisposalRequest): (r: Result<Split, Refusal>)
    ensures r.Ok? ==> read.status == Held && SplitForDisposal(read.balance, d.quantity) == Result.Ok(r.value)
  {
    if d.terms.Some? && (d.terms.value.proceeds < 0.0 || d.terms.value.fees < 0.0) then Err(BadAmount)
    else if read.status != Held then Err(NotHeld)
    else if d.version.Some? && d.version.value != read.version then Err(Stale)
    else
      match SplitForDisposal(read.balance, d.quantity)
      case Err(e) => Err(BadSplit(e))
      case Ok(split) => Ok(split)
  }

  predicate Current(db: Ledger, id: Id, read: Lot) {
    id in db.lots && db.lots[id].version == read.version
  }

  /** The write of a disposal planned from the lot that was read. */
  function CommitDisposal(db: Ledger, id: Id, read: Lot, d: DisposalRequest): Result<Ledger, Refusal>
    requires WellFormed(d)
  {
    var plan := PlanDisposal(read, d);
    if plan.Err? then Err(plan.error)
    else if !Current(db, id, read) then Err(Stale)
    else
      SplitConserves(read.balance, d.quantity);
      var split := plan.value;
      var pnl := RealizedPnl(d.kind, d.terms, split.taken.cost);
      var currency := if pnl.Some? then Some(read.currency) else None;
      var lot := db.lots[id].(
        balance := split.remaining,
        status := StatusAfterDisposal(d.kind, split.remaining.quantity),
        version := db.lots[id].version + 1);
      Ok(db.(lots := db.lots[id := lot],
             movements := db.movements + [Movement(id, d.kind, split.taken, currency, pnl)]))
  }

  /** Moving a lot leaves its balance alone. */
  function CommitTransfer(db: Ledger, id: Id, read: Lot, destination: string): Result<Ledger, Refusal> {
    if read.status != Held then Err(NotHeld)
    else if !Current(db, id, read) then Err(Stale)
    else
      var lot := db.lots[id].(location := destination, version := db.lots[id].version + 1);
      Ok(db.(lots := db.lots[id := lot],
             movements := db.movements + [Movement(id, StorageTransfer, EMPTY, None, None)]))
  }

  // ---- Edits ---------------------------------------------------------------------------

  datatype EditRequest = EditRequest(
    version: nat, quantity: Option<int>, unitWeight: Option<(real, WeightUnit)>, purity: Option<real>,
    cost: Option<real>, currency: Option<string>, location: Option<string>, descriptive: bool)

  /** The new gross weight: from a unit weight, scaled to a new quantity, or as it was. */
  function EditedGross(read: Lot, e: EditRequest): Option<int>
    requires 0 < read.balance.quantity && (e.quantity.Some? ==> 1 <= e.quantity.value)
  {
    var quantity := if e.quantity.Some? then e.quantity.value else read.balance.quantity;
    if e.unitWeight.Some? then
      var unit := UnitWeight(e.unitWeight.value.0, e.unitWeight.value.1);
      if unit.None? || unit.value <= 0 then None else GrossWeight(unit.value, quantity)
    else if e.quantity.Some? then
      ScaledGross(read.balance.gross, read.balance.quantity, quantity)
    else
      Some(read.balance.gross)
  }

  /** Old gross over old quantity, times the new quantity, each rounded to 20 digits. */
  function ScaledGross(gross: int, held: int, quantity: int): Option<int>
    requires 0 <= gross && 0 < held && 0 <= quantity
  {
    QuotientNonNegative(gross as real, held as real);
    Round20Range(gross as real / held as real);
    PiecesWeight(Round20(gross as real / held as real), quantity)
  }

  /** So many pieces of a weight that is not itself stored. */
  function PiecesWeight(unit: real, quantity: int): Option<int>
    requires 0.0 <= unit && 0 <= quantity
  {
    ProductLe(0.0, unit, quantity as real);
    Round20Range(unit * quantity as real);
    QuantizeWeight(Round20(unit * quantity as real))
  }

  lemma QuotientNonNegative(a: real, b: real)
    requires 0.0 <= a && 0.0 < b
    ensures 0.0 <= a / b
  {
  }

  /** The row an edit leaves behind, without its version. */
  function PlanEdit(read: Lot, e: EditRequest): (r: Result<Lot, Refusal>)
    ensures r.Ok? ==> read.status == Held && r.value.status == Held && r.value.purchase == read.purchase
    ensures r.Ok? ==> r.value.version == read.version
    ensures r.Ok? && read.purchase.Some? ==> r.value.currency == read.currency
    ensures r.Ok? ==> 0 < r.value.balance.quantity
    ensures r.Ok? && (r.value.balance.fine, r.value.balance.gross) != (read.balance.fine, read.balance.gross)
      ==> r.value.balance.fine <= r.value.balance.gross
  {
    if e.version != read.version then Err(Stale)
    else if read.status != Held then Err(NotHeld)
    else if read.balance.quantity <= 0 then Err(NotHeld)
    else if e.quantity.Some? && !(1 <= e.quantity.value <= MAX_PIECES) then Err(BadQuantityInput)
    else
      var gross := EditedGross(read, e);
      if gross.None? then Err(BadWeightInput)
      else if !(0 <= gross.value <= MAX_WEIGHT) then Err(BadWeightInput)
      else if e.purity.Some? && !ValidPurity(e.purity.value) then Err(BadPurityInput)
      else
        var purity := if e.purity.Some? then e.purity.value else read.purity;
        var recompute := e.quantity.Some? || e.unitWeight.Some? || e.purity.Some?;
        if recompute && !ValidPurity(purity) then Err(BadPurityInput)
        else if e.cost.Some? && !IsMoney(e.cost.value) then Err(BadAmount)
        else if e.currency.Some? && read.purchase.Some? then Err(FollowsPurchase)
        else
          var fine := if recompute then FineWeight(gross.value, purity) else read.balance.fine;
          var quantity := if e.quantity.Some? then e.quantity.value else read.balance.quantity;
          var cost := if e.cost.Some? then Cents(e.cost.value) * 100 else read.balance.cost;
          var lot := read.(
            balance := Balance(quantity, fine, gross.value, cost),
            purity := purity,
            currency := if e.currency.Some? then e.currency.value else read.currency,
            location := if e.location.Some? then e.location.value else read.location);
          if lot == read && !e.descriptive then Err(NoChanges) else Ok(lot)
  }

  function CommitEdit(db: Ledger, id: Id, read: Lot, e: EditRequest): Result<Ledger, Refusal> {
    var plan := PlanEdit(read, e);
    if plan.Err? then Err(plan.error)
    else if !Current(db, id, read) then Err(Stale)
    else
      var lot := db.lots[id].(
        balance := plan.value.balance, purity := plan.value.purity, currency := plan.value.currency,
        location := plan.value.location, version := db.lots[id].version + 1);
      Ok(db.(lots := db.lots[id := lot]))
  }

  // ---- Lots enter the ledger -----------------------------------------------------------

  /** Metal received as a gift enters at its market value, with a movement of its own.  The limits on
      pieces and on decimals of the purity are those of the request schema. */
  datatype GiftRequest = GiftRequest(
    quantity: int, unitWeight: real, unit: WeightUnit, purity: real, value: nat, currency: string, location: string)

  function CommitGift(db: Ledger, id: Id, g: GiftRequest): Result<Ledger, Refusal> {
    if id in db.lots then Err(Taken)
    else
      var unit := UnitWeight(g.unitWeight, g.unit);
      if unit.None? || unit.value <= 0 then Err(BadWeightInput)
      else if !ValidPurity(g.purity) then Err(BadPurityInput)
      else if !(1 <= g.quantity <= MAX_PIECES) then Err(BadQuantityInput)
      else
        var gross := GrossWeight(unit.value, g.quantity);
        if gross.None? || MAX_STORED < g.value then Err(BadWeightInput)
        else
          var balance := Balance(g.quantity, FineWeight(gross.value, g.purity), gross.value, g.value);
          var lot := Lot(None, balance, g.purity, g.currency, Held, 1, g.location);
          Ok(db.(lots := db.lots[id := lot],
                 movements := db.movements + [Movement(id, GiftIn, balance, None, None)]))
  }

  /** A purchase enters with one lot per item, all labelled with its currency. */
  datatype NewLot = NewLot(balance: StoredBalance, purity: real, location: string)

  /** As Purchase.ComputeItem leaves an item of a request within the schema's limit on pieces. */
  predicate Weighed(lot: NewLot) {
    && 1 <= lot.balance.quantity <= MAX_PIECES && ValidPurity(lot.purity)
    && lot.balance.fine == FineWeight(lot.balance.gross, lot.purity)
  }

  predicate Enterable(lots: map<Id, NewLot>) {
    forall i | i in lots :: Weighed(lots[i])
  }

  function CommitPurchase(db: Ledger, pid: Id, currency: string, lots: map<Id, NewLot>): Result<Ledger, Refusal> {
    if pid in db.purchases || lots.Keys * db.lots.Keys != {} || !Enterable(lots) then Err(Taken)
    else
      Ok(db.(
        purchases := db.purchases[pid := currency],
        lots := db.lots + map i | i in lots ::
          Lot(Some(pid), lots[i].balance, lots[i].purity, currency, Held, 1, lots[i].location)))
  }

  // ---- Relabelling the currency of a purchase ------------------------------------------

  predicate Bought(lot: Lot, pid: Id) {
    lot.purchase == Some(pid)
  }

  function RelabelLots(lots: map<Id, Lot>, pid: Id, currency: string): (r: map<Id, Lot>)
    ensures r.Keys == lots.Keys
  {
    map i | i in lots ::
      if Bought(lots[i], pid) then lots[i].(currency := currency, version := lots[i].version + 1) else lots[i]
  }

  function RelabelMovement(lots: map<Id, Lot>, m: Movement, pid: Id, currency: string): Movement {
    if m.lot in lots && Bought(lots[m.lot], pid) && m.currency.Some? then m.(currency := Some(currency)) else m
  }

  function RelabelMovements(lots: map<Id, Lot>, ms: seq<Movement>, pid: Id, currency: string): (r: seq<Movement>)
    ensures |r| == |ms|
    ensures forall k | 0 <= k < |ms| :: r[k] == RelabelMovement(lots, ms[k], pid, currency)
  {
    seq(|ms|, k requires 0 <= k < |ms| => RelabelMovement(lots, ms[k], pid, currency))
  }

  /** seen is the currency read at the start of the transaction, without a lock; others tells
      whether another field of the purchase changes too. */
  function CommitRelabel(db: Ledger, pid: Id, seen: string, supplied: Option<string>, others: bool): Result<Ledger, Refusal> {
    if pid !in db.purchases then Err(NotFound)
    else if (supplied.None? || supplied.value == seen) && !others then Err(NoChanges)
    else if supplied.None? then Ok(db)
    else
      var named := db.(purchases := db.purchases[pid := supplied.value]);
      if supplied.value == seen then Ok(named)
      else
        Ok(named.(lots := RelabelLots(db.lots, pid, supplied.value),
                  movements := RelabelMovements(db.lots, db.movements, pid, supplied.value)))
  }

  // ---- The tables ----------------------------------------------------------------------

  class LedgerStore {
    var lots: map<Id, Lot>
    var movements: seq<Movement>
    var purchases: map<Id, string>

    constructor ()
      ensures View() == Ledger(map[], [], map[])
    {
      lots, movements, purchases := map[], [], map[];
    }

    ghost function View(): Ledger
      reads this
    {
      Ledger(lots, movements, purchases)
    }

    /** updateMany where id and version: returns the number of rows written. */
    method UpdateLot(id: Id, version: nat, row: Lot) returns (count: nat)
      modifies this`lots
      ensures count == if id in old(lots) && old(lots[id]).version == version then 1 else 0
      ensures lots == if count == 1 then old(lots)[id := row] else old(lots)
    {
      if id in lots && lots[id].version == version {
        lots := lots[id := row];
        count := 1;
      } else {
        count := 0;
      }
    }

    method Dispose(id: Id, asset: Lot, d: DisposalRequest) returns (r: Result<nat, Refusal>)
      requires WellFormed(d)
      modifies this
      ensures var commit := CommitDisposal(old(View()), id, asset, d);
        && r.Ok? == commit.Ok?
        && View() == if commit.Ok? then commit.value else old(View())
      ensures r.Err? ==> r.error == CommitDisposal(old(View()), id, asset, d).error
    {
      var plan := PlanDisposal(asset, d);
      if plan.Err? {
        return Err(plan.error);
      }
      var split := plan.value;
      SplitConserves(asset.balance, d.quantity);
      var pnl := RealizedPnl(d.kind, d.terms, split.taken.cost);
      var row := asset;
      if id in lots {
        row := lots[id].(
          balance := split.remaining,
          status := StatusAfterDisposal(d.kind, split.remaining.quantity),
          version := lots[id].version + 1);
      }
      var count := UpdateLot(id, asset.version, row);
      if count != 1 {
        return Err(Stale);
      }
      var currency := if pnl.Some? then Some(asset.currency) else None;
      movements := movements + [Movement(id, d.kind, split.taken, currency, pnl)];
      r := Ok(|movements| - 1);
    }

    method TransferStorage(id: Id, asset: Lot, destination: string) returns (r: Result<nat, Refusal>)
      modifies this
      ensures var commit := CommitTransfer(old(View()), id, asset, destination);
        && r.Ok? == commit.Ok?
        && View() == if commit.Ok? then commit.value else old(View())
      ensures r.Err? ==> r.error == CommitTransfer(old(View()), id, asset, destination).error
    {
      if asset.status != Held {
        return Err(NotHeld);
      }
      var row := asset;
      if id in lots {
        row := lots[id].(location := destination, version := lots[id].version + 1);
      }
      var count := UpdateLot(id, asset.version, row);
      if count != 1 {
        return Err(Stale);
      }
      movements := movements + [Movement(id, StorageTransfer, EMPTY, None, None)];
      r := Ok(|movements| - 1);
    }

    /** Metal received as a gift: one new lot and one movement, which carries no currency. */
    method GiftIn(id: Id, g: GiftRequest) returns (r: Result<nat, Refusal>)
      modifies this
      ensures var commit := CommitGift(old(View()), id, g);
        && r.Ok? == commit.Ok?
        && View() == if commit.Ok? then commit.value else old(View())
      ensures r.Err? ==> r.error == CommitGift(old(View()), id, g).error
    {
      if id in lots {
        return Err(Taken);
      }
      var unit := UnitWeight(g.unitWeight, g.unit);
      if unit.None? || unit.value <= 0 {
        return Err(BadWeightInput);
      }
      if !ValidPurity(g.purity) {
        return Err(BadPurityInput);
      }
      if !(1 <= g.quantity <= MAX_PIECES) {
        return Err(BadQuantityInput);
      }
      var gross := GrossWeight(unit.value, g.quantity);
      if gross.None? || MAX_STORED < g.value {
        return Err(BadWeightInput);
      }
      var fine := FineWeight(gross.value, g.purity);
      var balance := Balance(g.quantity, fine, gross.value, g.value);
      lots := lots[id := Lot(None, balance, g.purity, g.currency, Held, 1, g.location)];
      movements := movements + [Movement(id, Kind.GiftIn, balance, None, None)];
      r := Ok(|movements| - 1);
    }

    method UpdateAsset(id: Id, before: Lot, e: EditRequest) returns (r: Result<(), Refusal>)
      modifies this
      ensures var commit := CommitEdit(old(View()), id, before, e);
        && r.Ok? == commit.Ok?
        && View() == if commit.Ok? then commit.value else old(View())
      ensures r.Err? ==> r.error == CommitEdit(old(View()), id, before, e).error
    {
      var plan := PlanEdit(before, e);
      if plan.Err? {
        return Err(plan.error);
      }
      var row := before;
      if id in lots {
        row := lots[id].(
          balance := plan.value.balance, purity := plan.value.purity, currency := plan.value.currency,
          location := plan.value.location, version := lots[id].version + 1);
      }
      var count := UpdateLot(id, before.version, row);
      if count == 0 {
        return Err(Stale);
      }
      r := Ok(());
    }

    method UpdatePurchase(pid: Id, before: string, supplied: Option<string>, others: bool) returns (r: Result<bool, Refusal>)
      modifies this
      ensures var commit := CommitRelabel(old(View()), pid, before, supplied, others);
        && r.Ok? == commit.Ok?
        && View() == if commit.Ok? then commit.value else old(View())
      ensures r.Err? ==> r.error == CommitRelabel(old(View()), pid, before, supplied, others).error
    {
      if pid !in purchases {
        return Err(NotFound);
      }
      if (supplied.None? || supplied.value == before) && !others {
        return Err(NoChanges);
      }
      if supplied.Some? {
        purchases := purchases[pid := supplied.value];
      }
      var currencyChanged := supplied.Some? && supplied.value != before;
      if currencyChanged {
        var rows := lots;
        lots := RelabelLots(rows, pid, supplied.value);
        movements := RelabelMovements(rows, movements, pid, supplied.value);
      }
      r := Ok(currencyChanged);
    }
  }
}
