/**
 Runs of the lot ledger.  Any number of requests are open at once; each holds the row it read,
 however old, and the writes of all of them interleave freely.
 */
module LotRuns {
  import opened Results
  import opened Disposal
  import opened LotLedger

  /** lotReads and purchaseReads are what the open requests have seen; opening is the balance a lot
      started from, moved along when an edit restates it. */
  datatype World = World(
    db: Ledger,
    lotReads: map<Id, (Id, Lot)>,
    purchaseReads: map<Id, (Id, string)>,
    opening: map<Id, Balance>)

  datatype Step =
    | ReadLot(request: Id, lot: Id)
    | Dispose(request: Id, disposal: DisposalRequest)
    | Transfer(request: Id, destination: string)
    | Edit(request: Id, edit: EditRequest)
    | Receive(lot: Id, gift: GiftRequest)
    | Buy(purchase: Id, currency: string, lots: map<Id, NewLot>)
    | ReadPurchase(request: Id, purchase: Id)
    | Relabel(request: Id, supplied: Option<string>, others: bool)

  const EMPTY_WORLD := World(Ledger(map[], [], map[]), map[], map[], map[])

  /** A refused write leaves the ledger as it was. */
  function Written(w: World, r: Result<Ledger, Refusal>): World {
    if r.Ok? then w.(db := r.value) else w
  }

  function Subtract(a: Balance, b: Balance): Balance {
    Balance(a.quantity - b.quantity, a.fine - b.fine, a.gross - b.gross, a.cost - b.cost)
  }

  function Next(w: World, step: Step): World {
    match step
    case ReadLot(request, lot) =>
      if lot in w.db.lots then w.(lotReads := w.lotReads[request := (lot, w.db.lots[lot])]) else w
    case Dispose(request, d) =>
      if request in w.lotReads && WellFormed(d) then
        Written(w, CommitDisposal(w.db, w.lotReads[request].0, w.lotReads[request].1, d))
      else w
    case Transfer(request, destination) =>
      if request in w.lotReads then
        Written(w, CommitTransfer(w.db, w.lotReads[request].0, w.lotReads[request].1, destination))
      else w
    case Edit(request, e) =>
      if request in w.lotReads then
        var id := w.lotReads[request].0;
        var r := CommitEdit(w.db, id, w.lotReads[request].1, e);
        if r.Ok? && id in w.opening && id in w.db.lots && id in r.value.lots then
          var shift := Subtract(r.value.lots[id].balance, w.db.lots[id].balance);
          w.(db := r.value, opening := w.opening[id := Add(w.opening[id], shift)])
        else Written(w, r)
      else w
    case Receive(lot, g) =>
      var r := CommitGift(w.db, lot, g);
      if r.Ok? && lot in r.value.lots then
        w.(db := r.value, opening := w.opening[lot := r.value.lots[lot].balance])
      else w
    case Buy(purchase, currency, lots) =>
      var r := CommitPurchase(w.db, purchase, currency, lots);
      if r.Ok? then
        w.(db := r.value, opening := w.opening + map i | i in lots :: lots[i].balance)
      else w
    case ReadPurchase(request, purchase) =>
      if purchase in w.db.purchases then
        w.(purchaseReads := w.purchaseReads[request := (purchase, w.db.purchases[purchase])])
      else w
    case Relabel(request, supplied, others) =>
      if request in w.purchaseReads then
        var (pid, seen) := w.purchaseReads[request];
        Written(w, CommitRelabel(w.db, pid, seen, supplied, others))
      else w
  }

  function Run(w: World, steps: seq<Step>): World
    decreases |steps|
  {
    if steps == [] then w else Run(Next(w, steps[0]), steps[1..])
  }

  // ---- What every reachable state satisfies --------------------------------------------

  /** A row that still has the version someone read is still the row they read. */
  ghost predicate ReadsTell(w: World) {
    forall r | r in w.lotReads :: ReadTells(w.db, w.lotReads[r])
  }

  ghost predicate ReadTells(db: Ledger, seen: (Id, Lot)) {
    && seen.0 in db.lots
    && seen.1.version <= db.lots[seen.0].version
    && (seen.1.version == db.lots[seen.0].version ==> seen.1 == db.lots[seen.0])
  }

  /** What left a lot through the first n movements. */
  function GoneIn(ms: seq<Movement>, n: nat, id: Id): Balance
    requires n <= |ms|
  {
    if n == 0 then EMPTY else Add(GoneIn(ms, n - 1, id), GoneBy(ms[n - 1], id))
  }

  function Gone(ms: seq<Movement>, id: Id): Balance {
    GoneIn(ms, |ms|, id)
  }

  function GoneBy(m: Movement, id: Id): Balance {
    if m.lot == id && IsDisposal(m.kind) then m.amount else EMPTY
  }

  ghost predicate LotConserved(w: World, id: Id)
    requires id in w.db.lots
  {
    id in w.opening && Add(Gone(w.db.movements, id), w.db.lots[id].balance) == w.opening[id]
  }

  ghost predicate Conserved(w: World) {
    forall id | id in w.db.lots :: LotConserved(w, id)
  }

  /** A lot is held exactly while pieces remain, and an emptied lot holds nothing at all. */
  predicate Settled(lot: Lot) {
    && 0 <= lot.balance.quantity
    && (lot.status == Held <==> 0 < lot.balance.quantity)
    && (lot.balance.quantity == 0 ==> lot.balance == EMPTY)
  }

  ghost predicate AllSettled(db: Ledger) {
    forall id | id in db.lots :: Settled(db.lots[id])
  }

  /** Every movement belongs to a lot, books a currency exactly when it books a profit or loss,
      and on a bought lot that currency is the one of the lot. */
  predicate Labelled(db: Ledger, m: Movement) {
    && m.lot in db.lots
    && (m.currency.Some? <==> m.realizedPnl.Some?)
    && (m.currency.Some? && db.lots[m.lot].purchase.Some? ==> m.currency.value == db.lots[m.lot].currency)
  }

  ghost predicate AllLabelled(db: Ledger) {
    forall k | 0 <= k < |db.movements| :: Labelled(db, db.movements[k])
  }

  ghost predicate Inv(w: World) {
    ReadsTell(w) && Conserved(w) && AllSettled(w.db) && AllLabelled(w.db)
  }

  // ---- One row written under its version -----------------------------------------------

  /** The row of one lot is replaced by one with a higher version. */
  ghost predicate Advances(db: Ledger, next: Ledger, id: Id) {
    && id in db.lots
    && next.lots.Keys == db.lots.Keys
    && db.lots[id].version < next.lots[id].version
    && next.lots[id].purchase == db.lots[id].purchase
    && (forall i | i in db.lots && i != id :: next.lots[i] == db.lots[i])
  }

  lemma AdvanceKeepsReads(w: World, v: World, id: Id)
    requires ReadsTell(w) && v.lotReads == w.lotReads && Advances(w.db, v.db, id)
    ensures ReadsTell(v)
  {
    forall r | r in v.lotReads
      ensures ReadTells(v.db, v.lotReads[r])
    {
      assert ReadTells(w.db, w.lotReads[r]);
    }
  }

  lemma {:induction false} SamePrefixGone(ms: seq<Movement>, ns: seq<Movement>, n: nat, id: Id)
    requires n <= |ms| && n <= |ns|
    requires forall k | 0 <= k < n :: GoneBy(ns[k], id) == GoneBy(ms[k], id)
    ensures GoneIn(ns, n, id) == GoneIn(ms, n, id)
  {
    if 0 < n {
      SamePrefixGone(ms, ns, n - 1, id);
    }
  }

  lemma AppendGone(ms: seq<Movement>, m: Movement, id: Id)
    ensures Gone(ms + [m], id) == Add(Gone(ms, id), GoneBy(m, id))
  {
    SamePrefixGone(ms, ms + [m], |ms|, id);
  }

  lemma AppendKeepsLot(w: World, v: World, id: Id, m: Movement)
    requires id in w.db.lots && id in v.db.lots && LotConserved(w, id)
    requires v.db.movements == w.db.movements + [m]
    requires v.opening == w.opening
    requires Add(GoneBy(m, id), v.db.lots[id].balance) == w.db.lots[id].balance
    ensures LotConserved(v, id)
  {
    AppendGone(w.db.movements, m, id);
  }

  lemma AppendKeepsConserved(w: World, v: World, id: Id, m: Movement)
    requires Conserved(w) && Advances(w.db, v.db, id) && v.opening == w.opening
    requires v.db.movements == w.db.movements + [m] && m.lot == id
    requires Add(GoneBy(m, id), v.db.lots[id].balance) == w.db.lots[id].balance
    ensures Conserved(v)
  {
    forall i | i in v.db.lots
      ensures LotConserved(v, i)
    {
      assert LotConserved(w, i);
      AppendKeepsLot(w, v, i, m);
    }
  }

  lemma AppendKeepsLabels(db: Ledger, next: Ledger, id: Id, m: Movement)
    requires AllLabelled(db) && Advances(db, next, id)
    requires next.movements == db.movements + [m]
    requires next.lots[id].currency == db.lots[id].currency
    requires Labelled(next, m)
    ensures AllLabelled(next)
  {
    forall k | 0 <= k < |next.movements|
      ensures Labelled(next, next.movements[k])
    {
      if k < |db.movements| {
        assert Labelled(db, db.movements[k]);
      }
    }
  }

  // ---- Each step keeps the invariant ---------------------------------------------------

  lemma DisposalShape(w: World, request: Id, d: DisposalRequest)
    requires Inv(w) && request in w.lotReads && WellFormed(d)
    requires CommitDisposal(w.db, w.lotReads[request].0, w.lotReads[request].1, d).Ok?
    ensures var (id, read) := w.lotReads[request];
      var next := CommitDisposal(w.db, id, read, d).value;
      && read == w.db.lots[id] && read.status == Held
      && Advances(w.db, next, id)
      && SplitForDisposal(read.balance, d.quantity).Ok?
      && var split := SplitForDisposal(read.balance, d.quantity).value;
      && next.lots[id] == read.(
           balance := split.remaining,
           status := StatusAfterDisposal(d.kind, split.remaining.quantity),
           version := read.version + 1)
      && var pnl := RealizedPnl(d.kind, d.terms, split.taken.cost);
      && next.movements == w.db.movements
           + [Movement(id, d.kind, split.taken, if pnl.Some? then Some(read.currency) else None, pnl)]
  {
    assert ReadTells(w.db, w.lotReads[request]);
    SplitConserves(w.lotReads[request].1.balance, d.quantity);
  }

  lemma DisposeKeeps(w: World, request: Id, d: DisposalRequest)
    requires Inv(w) && request in w.lotReads && WellFormed(d)
    requires CommitDisposal(w.db, w.lotReads[request].0, w.lotReads[request].1, d).Ok?
    ensures Inv(Next(w, Dispose(request, d)))
  {
    var v := Next(w, Dispose(request, d));
    var (id, read) := w.lotReads[request];
    DisposalShape(w, request, d);
    SplitConserves(read.balance, d.quantity);
    var m := v.db.movements[|w.db.movements|];
    AdvanceKeepsReads(w, v, id);
    AppendKeepsConserved(w, v, id, m);
    AppendKeepsLabels(w.db, v.db, id, m);
  }

  lemma TransferKeeps(w: World, request: Id, destination: string)
    requires Inv(w) && request in w.lotReads
    requires CommitTransfer(w.db, w.lotReads[request].0, w.lotReads[request].1, destination).Ok?
    ensures Inv(Next(w, Transfer(request, destination)))
  {
    var v := Next(w, Transfer(request, destination));
    var (id, read) := w.lotReads[request];
    assert ReadTells(w.db, w.lotReads[request]);
    var m := Movement(id, StorageTransfer, EMPTY, None, None);
    AdvanceKeepsReads(w, v, id);
    AppendKeepsConserved(w, v, id, m);
    AppendKeepsLabels(w.db, v.db, id, m);
  }

  lemma EditKeeps(w: World, request: Id, e: EditRequest)
    requires Inv(w) && request in w.lotReads
    requires CommitEdit(w.db, w.lotReads[request].0, w.lotReads[request].1, e).Ok?
    ensures Inv(Next(w, Edit(request, e)))
  {
    hide Gone, GoneIn;
    var v := Next(w, Edit(request, e));
    var (id, read) := w.lotReads[request];
    assert ReadTells(w.db, w.lotReads[request]);
    assert LotConserved(w, id);
    AdvanceKeepsReads(w, v, id);
    EditConserves(w, v, id);
    forall k | 0 <= k < |v.db.movements|
      ensures Labelled(v.db, v.db.movements[k])
    {
      assert Labelled(w.db, w.db.movements[k]);
    }
  }

  /** An edit moves the opening balance by what it moves the lot. */
  lemma EditConserves(w: World, v: World, id: Id)
    requires Conserved(w) && Advances(w.db, v.db, id) && id in w.opening
    requires v.db.movements == w.db.movements
    requires v.opening == w.opening[id := Add(w.opening[id], Subtract(v.db.lots[id].balance, w.db.lots[id].balance))]
    ensures Conserved(v)
  {
    forall i | i in v.db.lots
      ensures LotConserved(v, i)
    {
      assert LotConserved(w, i);
      if i != id {
        UntouchedConserved(w, v, i);
      }
    }
  }

  predicate Touches(m: Movement, id: Id) {
    m.lot == id
  }

  lemma {:induction false} NothingGone(ms: seq<Movement>, n: nat, id: Id)
    requires n <= |ms| && (forall k | 0 <= k < n :: !Touches(ms[k], id))
    ensures GoneIn(ms, n, id) == EMPTY
  {
    if 0 < n {
      NothingGone(ms, n - 1, id);
    }
  }

  lemma NewLotNothingGone(db: Ledger, id: Id)
    requires AllLabelled(db) && id !in db.lots
    ensures Gone(db.movements, id) == EMPTY
  {
    forall k | 0 <= k < |db.movements|
      ensures !Touches(db.movements[k], id)
    {
      assert Labelled(db, db.movements[k]);
    }
    NothingGone(db.movements, |db.movements|, id);
  }

  /** New rows disturb nothing that was read or booked before. */
  ghost predicate Extends(db: Ledger, next: Ledger) {
    db.lots.Keys <= next.lots.Keys && (forall i | i in db.lots :: next.lots[i] == db.lots[i])
  }

  lemma ExtendKeepsReads(w: World, v: World)
    requires ReadsTell(w) && v.lotReads == w.lotReads && Extends(w.db, v.db)
    ensures ReadsTell(v)
  {
    forall r | r in v.lotReads
      ensures ReadTells(v.db, v.lotReads[r])
    {
      assert ReadTells(w.db, w.lotReads[r]);
    }
  }

  lemma ExtendKeepsLabels(db: Ledger, next: Ledger, k: nat)
    requires AllLabelled(db) && Extends(db, next)
    requires k < |db.movements|
    ensures Labelled(next, db.movements[k])
  {
    assert Labelled(db, db.movements[k]);
  }

  lemma ReceiveKeeps(w: World, id: Id, g: GiftRequest)
    requires Inv(w) && CommitGift(w.db, id, g).Ok?
    ensures Inv(Next(w, Receive(id, g)))
  {
    hide ReadTells, LotConserved, Gone, GoneIn;
    var v := Next(w, Receive(id, g));
    var m := v.db.movements[|w.db.movements|];
    ExtendKeepsReads(w, v);
    ReceiveConserves(w, v, id, m);
    forall k | 0 <= k < |v.db.movements|
      ensures Labelled(v.db, v.db.movements[k])
    {
      if k < |w.db.movements| {
        ExtendKeepsLabels(w.db, v.db, k);
      }
    }
  }

  /** A lot of which nothing has gone yet is conserved when its opening is its balance. */
  lemma FreshConserved(w: World, v: World, id: Id)
    requires AllLabelled(w.db) && id !in w.db.lots
    requires id in v.db.lots && id in v.opening && v.opening[id] == v.db.lots[id].balance
    requires Gone(v.db.movements, id) == Gone(w.db.movements, id)
    ensures LotConserved(v, id)
  {
    NewLotNothingGone(w.db, id);
  }

  lemma UntouchedConserved(w: World, v: World, id: Id)
    requires id in w.db.lots && LotConserved(w, id)
    requires id in v.db.lots && id in v.opening && v.opening[id] == w.opening[id]
    requires v.db.lots[id].balance == w.db.lots[id].balance
    requires Gone(v.db.movements, id) == Gone(w.db.movements, id)
    ensures LotConserved(v, id)
  {
  }

  lemma NotGone(ms: seq<Movement>, m: Movement, id: Id)
    requires GoneBy(m, id) == EMPTY
    ensures Gone(ms + [m], id) == Gone(ms, id)
  {
    AppendGone(ms, m, id);
  }

  lemma ReceiveConserves(w: World, v: World, id: Id, m: Movement)
    requires Conserved(w) && AllLabelled(w.db) && id !in w.db.lots && Extends(w.db, v.db)
    requires v.db.lots.Keys == w.db.lots.Keys + {id}
    requires v.db.movements == w.db.movements + [m] && m.kind == GiftIn
    requires v.opening == w.opening[id := v.db.lots[id].balance]
    ensures Conserved(v)
  {
    forall i | i in v.db.lots
      ensures LotConserved(v, i)
    {
      NotGone(w.db.movements, m, i);
      if i == id {
        FreshConserved(w, v, id);
      } else {
        assert LotConserved(w, i);
        UntouchedConserved(w, v, i);
      }
    }
  }

  /** A purchase adds its lots beside those there are. */
  lemma BuyShape(db: Ledger, pid: Id, currency: string, lots: map<Id, NewLot>)
    requires CommitPurchase(db, pid, currency, lots).Ok?
    ensures var next := CommitPurchase(db, pid, currency, lots).value;
      && Extends(db, next) && next.movements == db.movements
      && lots.Keys !! db.lots.Keys && next.lots.Keys == db.lots.Keys + lots.Keys
      && forall i | i in lots :: Settled(next.lots[i]) && next.lots[i].balance == lots[i].balance
  {
    forall i | i in lots
      ensures i !in db.lots && Weighed(lots[i])
    {
      assert i !in lots.Keys * db.lots.Keys;
    }
  }

  lemma ExtendKeepsAllLabels(db: Ledger, next: Ledger)
    requires AllLabelled(db) && Extends(db, next) && next.movements == db.movements
    ensures AllLabelled(next)
  {
    forall k | 0 <= k < |next.movements|
      ensures Labelled(next, next.movements[k])
    {
      ExtendKeepsLabels(db, next, k);
    }
  }

  lemma ExtendKeepsSettled(db: Ledger, next: Ledger, entered: set<Id>)
    requires AllSettled(db) && Extends(db, next) && next.lots.Keys == db.lots.Keys + entered
    requires forall i | i in entered :: Settled(next.lots[i])
    ensures AllSettled(next)
  {
  }

  lemma BuyKeeps(w: World, pid: Id, currency: string, lots: map<Id, NewLot>)
    requires Inv(w) && CommitPurchase(w.db, pid, currency, lots).Ok?
    ensures Inv(Next(w, Buy(pid, currency, lots)))
  {
    hide ReadsTell, Conserved, AllSettled, AllLabelled, Extends, CommitPurchase, Settled;
    var v := Next(w, Buy(pid, currency, lots));
    BuyShape(w.db, pid, currency, lots);
    ExtendKeepsReads(w, v);
    BuyConserves(w, v, lots.Keys);
    ExtendKeepsSettled(w.db, v.db, lots.Keys);
    ExtendKeepsAllLabels(w.db, v.db);
  }

  lemma BuyConserves(w: World, v: World, entered: set<Id>)
    requires Conserved(w) && AllLabelled(w.db) && Extends(w.db, v.db)
    requires entered !! w.db.lots.Keys && v.db.lots.Keys == w.db.lots.Keys + entered
    requires v.db.movements == w.db.movements
    requires forall i | i in entered :: i in v.opening && v.opening[i] == v.db.lots[i].balance
    requires forall i | i in w.opening && i !in entered :: i in v.opening && v.opening[i] == w.opening[i]
    ensures Conserved(v)
  {
    forall i | i in v.db.lots
      ensures LotConserved(v, i)
    {
      if i in entered {
        FreshConserved(w, v, i);
      } else {
        assert LotConserved(w, i);
        UntouchedConserved(w, v, i);
      }
    }
  }

  lemma RelabelKeepsGone(lots: map<Id, Lot>, ms: seq<Movement>, pid: Id, currency: string, id: Id)
    ensures Gone(RelabelMovements(lots, ms, pid, currency), id) == Gone(ms, id)
  {
    SamePrefixGone(ms, RelabelMovements(lots, ms, pid, currency), |ms|, id);
  }

  lemma RelabelKeepsReads(w: World, v: World, pid: Id, currency: string)
    requires ReadsTell(w) && v.lotReads == w.lotReads
    requires v.db.lots == RelabelLots(w.db.lots, pid, currency)
    ensures ReadsTell(v)
  {
    forall r | r in v.lotReads
      ensures ReadTells(v.db, v.lotReads[r])
    {
      assert ReadTells(w.db, w.lotReads[r]);
    }
  }

  lemma RelabelKeepsConserved(w: World, v: World, pid: Id, currency: string)
    requires Conserved(w) && v.opening == w.opening
    requires v.db.lots == RelabelLots(w.db.lots, pid, currency)
    requires v.db.movements == RelabelMovements(w.db.lots, w.db.movements, pid, currency)
    ensures Conserved(v)
  {
    forall i | i in v.db.lots
      ensures LotConserved(v, i)
    {
      assert LotConserved(w, i);
      RelabelKeepsGone(w.db.lots, w.db.movements, pid, currency, i);
    }
  }

  /** The bumped versions of the lots and the rewritten movements change together. */
  lemma RelabelKeepsLabels(db: Ledger, next: Ledger, pid: Id, currency: string)
    requires AllLabelled(db)
    requires next.lots == RelabelLots(db.lots, pid, currency)
    requires next.movements == RelabelMovements(db.lots, db.movements, pid, currency)
    ensures AllLabelled(next)
  {
    forall k | 0 <= k < |next.movements|
      ensures Labelled(next, next.movements[k])
    {
      assert Labelled(db, db.movements[k]);
    }
  }

  lemma RelabelKeeps(w: World, request: Id, supplied: Option<string>, others: bool)
    requires Inv(w) && request in w.purchaseReads
    requires CommitRelabel(w.db, w.purchaseReads[request].0, w.purchaseReads[request].1, supplied, others).Ok?
    ensures Inv(Next(w, Relabel(request, supplied, others)))
  {
    var v := Next(w, Relabel(request, supplied, others));
    var (pid, seen) := w.purchaseReads[request];
    if supplied.Some? && supplied.value != seen {
      RelabelKeepsReads(w, v, pid, supplied.value);
      RelabelKeepsConserved(w, v, pid, supplied.value);
      RelabelKeepsLabels(w.db, v.db, pid, supplied.value);
    } else {
      SameRows(w, v);
    }
  }

  /** Only rows of lots and movements matter to the invariant. */
  lemma SameRows(w: World, v: World)
    requires Inv(w)
    requires v.db.lots == w.db.lots && v.db.movements == w.db.movements
    requires v.lotReads == w.lotReads && v.opening == w.opening
    ensures Inv(v)
  {
    forall r | r in v.lotReads
      ensures ReadTells(v.db, v.lotReads[r])
    {
      assert ReadTells(w.db, w.lotReads[r]);
    }
    forall i | i in v.db.lots
      ensures LotConserved(v, i)
    {
      assert LotConserved(w, i);
    }
    forall k | 0 <= k < |v.db.movements|
      ensures Labelled(v.db, v.db.movements[k])
    {
      assert Labelled(w.db, w.db.movements[k]);
    }
  }

  /** The three writes of a row someone read. */
  lemma RowWriteKeeps(w: World, step: Step)
    requires Inv(w) && (step.Dispose? || step.Transfer? || step.Edit?)
    ensures Inv(Next(w, step))
  {
    match step
    case Dispose(request, d) =>
      if request in w.lotReads && WellFormed(d) && CommitDisposal(w.db, w.lotReads[request].0, w.lotReads[request].1, d).Ok? {
        DisposeKeeps(w, request, d);
      }
    case Transfer(request, destination) =>
      if request in w.lotReads && CommitTransfer(w.db, w.lotReads[request].0, w.lotReads[request].1, destination).Ok? {
        TransferKeeps(w, request, destination);
      }
    case Edit(request, e) =>
      if request in w.lotReads && CommitEdit(w.db, w.lotReads[request].0, w.lotReads[request].1, e).Ok? {
        EditKeeps(w, request, e);
      }
  }

  lemma ArrivalKeeps(w: World, step: Step)
    requires Inv(w) && (step.Receive? || step.Buy?)
    ensures Inv(Next(w, step))
  {
    match step
    case Receive(lot, g) =>
      if CommitGift(w.db, lot, g).Ok? {
        ReceiveKeeps(w, lot, g);
      }
    case Buy(purchase, currency, lots) =>
      if CommitPurchase(w.db, purchase, currency, lots).Ok? {
        BuyKeeps(w, purchase, currency, lots);
      }
  }

  lemma NextKeeps(w: World, step: Step)
    requires Inv(w)
    ensures Inv(Next(w, step))
  {
    if step.Dispose? || step.Transfer? || step.Edit? {
      RowWriteKeeps(w, step);
    } else if step.Receive? || step.Buy? {
      ArrivalKeeps(w, step);
    } else if step.ReadLot? {
      ReadKeeps(w, step.request, step.lot);
    } else if step.ReadPurchase? {
      SameRows(w, Next(w, step));
    } else {
      if step.request in w.purchaseReads
         && CommitRelabel(w.db, w.purchaseReads[step.request].0, w.purchaseReads[step.request].1, step.supplied, step.others).Ok? {
        RelabelKeeps(w, step.request, step.supplied, step.others);
      }
    }
  }

  lemma ReadKeeps(w: World, request: Id, lot: Id)
    requires Inv(w)
    ensures Inv(Next(w, ReadLot(request, lot)))
  {
    var v := Next(w, ReadLot(request, lot));
    forall r | r in v.lotReads
      ensures ReadTells(v.db, v.lotReads[r])
    {
      assert r in w.lotReads ==> ReadTells(w.db, w.lotReads[r]);
    }
    forall i | i in v.db.lots
      ensures LotConserved(v, i)
    {
      assert LotConserved(w, i);
    }
  }
}
