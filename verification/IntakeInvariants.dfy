/**
 What every reachable state of the intake protocol satisfies: of the rows alone, and of the calls
 that are under way.
 */
module IntakeInvariants {
  import opened Results
  import opened IntakeRows
  import opened IntakeRuns

  // ---- One attachment ------------------------------------------------------------------

  predicate OneOwner(a: Attachment) {
    || (a.intake.Some? && a.purchase.None? && a.asset.None?)
    || (a.intake.None? && a.purchase.Some? && a.asset.None?)
    || (a.intake.None? && a.purchase.None? && a.asset.Some?)
  }

  predicate OwnerExists(db: Db, a: Attachment) {
    && (a.intake.Some? ==> a.intake.value in db.intakes && db.intakes[a.intake.value].user == a.uploader)
    && (a.purchase.Some? ==> a.purchase.value < |db.purchases|)
    && (a.asset.Some? ==> a.asset.value < |db.assets|)
  }

  /** Nothing live is left on a completed intake. */
  predicate NotLeftBehind(db: Db, a: Attachment) {
    a.intake.Some? && a.intake.value in db.intakes && !a.deleted ==> db.intakes[a.intake.value].status != Completed
  }

  /** A ready attachment needs no derivative or has one. */
  predicate MediaOk(a: Attachment) {
    && FitsMode(a.media, a.mode)
    && !(a.media == AssetPhoto && a.pdf)
    && (a.status == Ready ==> a.confirmed)
    && (a.confirmed ==> a.mode == Untouched || HasDerivativeFor(a.variants, a.mode))
  }

  function CountKind(vs: seq<Variant>, n: nat, kind: VariantKind): nat
    requires n <= |vs|
  {
    if n == 0 then 0 else CountKind(vs, n - 1, kind) + if vs[n - 1].kind == kind then 1 else 0
  }

  predicate NumberedAt(vs: seq<Variant>, j: nat)
    requires j < |vs|
  {
    vs[j].revision == CountKind(vs, j, vs[j].kind) + 1
  }

  predicate Apart(vs: seq<Variant>, j: nat, k: nat)
    requires j < |vs| && k < |vs|
  {
    vs[j].kind == vs[k].kind ==> vs[j].digest != vs[k].digest
  }

  /** Revisions count up from one within a kind, contents differ within a kind, and the original
      comes first and only once. */
  ghost predicate Numbered(vs: seq<Variant>) {
    && 0 < |vs| && vs[0].kind == Original
    && (forall j | 0 < j < |vs| :: vs[j].kind != Original)
    && (forall j | 0 <= j < |vs| :: NumberedAt(vs, j))
    && (forall j, k | 0 <= j < k < |vs| :: Apart(vs, j, k))
  }

  predicate WithinDerivatives(lim: Limits, vs: seq<Variant>) {
    DerivativeCount(vs, |vs|) <= lim.revisions && DerivativeBytes(vs, |vs|) <= lim.derivativeBytes
  }

  /** The first variant is the file as it was uploaded. */
  predicate OriginalOk(a: Attachment) {
    0 < |a.variants| && a.variants[0].size == a.size
  }

  ghost predicate RowOk(db: Db, lim: Limits, a: Attachment) {
    && OneOwner(a) && OwnerExists(db, a) && NotLeftBehind(db, a) && MediaOk(a)
    && Numbered(a.variants) && WithinDerivatives(lim, a.variants) && OriginalOk(a)
  }

  // ---- All rows ------------------------------------------------------------------------

  ghost predicate RowsOk(db: Db, lim: Limits) {
    forall k | 0 <= k < |db.attachments| :: RowOk(db, lim, db.attachments[k])
  }

  predicate OtherUpload(rows: seq<Attachment>, j: nat, k: nat)
    requires j < |rows| && k < |rows|
  {
    rows[j].key != rows[k].key
  }

  ghost predicate UploadKeysUnique(rows: seq<Attachment>) {
    forall j, k | 0 <= j < k < |rows| :: OtherUpload(rows, j, k)
  }

  predicate OtherPurchase(ps: seq<Purchase>, j: nat, k: nat)
    requires j < |ps| && k < |ps|
  {
    ps[j].key != ps[k].key && (ps[j].source.Some? ==> ps[j].source != ps[k].source)
  }

  ghost predicate PurchaseKeysUnique(ps: seq<Purchase>) {
    forall j, k | 0 <= j < k < |ps| :: OtherPurchase(ps, j, k)
  }

  predicate Named(db: Db, intake: Id) {
    FindSource(db.purchases, |db.purchases|, intake).Some?
  }

  predicate IntakeOk(db: Db, intake: Id) {
    Named(db, intake) <==> intake in db.intakes && db.intakes[intake].status == Completed
  }

  /** An intake is completed exactly when a purchase names it. */
  ghost predicate IntakesOk(db: Db) {
    forall i :: IntakeOk(db, i)
  }

  predicate QuotaAt(rows: seq<Attachment>, lim: Limits, intake: Id) {
    IntakeBytes(rows, |rows|, intake) <= lim.intakeBytes
  }

  ghost predicate QuotaOk(rows: seq<Attachment>, lim: Limits) {
    forall i :: QuotaAt(rows, lim, i)
  }

  ghost predicate DbInv(db: Db, lim: Limits) {
    && RowsOk(db, lim) && UploadKeysUnique(db.attachments)
    && PurchaseKeysUnique(db.purchases) && IntakesOk(db) && QuotaOk(db.attachments, lim)
  }

  // ---- How rows may change -------------------------------------------------------------

  /** A row only gains variants and versions; what a review decided stands until the version moves. */
  predicate RowEvolves(a: Attachment, b: Attachment) {
    && a.version <= b.version && a.variants <= b.variants
    && b.key == a.key && b.request == a.request && b.pdf == a.pdf && b.size == a.size && b.uploader == a.uploader
    && (a.deleted ==> b.deleted)
    && (b.intake.None? || b.intake == a.intake)
    && (b.version == a.version ==>
          b.media == a.media && b.mode == a.mode && b.confirmed == a.confirmed && b.status == a.status)
  }

  predicate IntakeEvolves(db: Db, next: Db, i: Id)
    requires i in db.intakes
  {
    && i in next.intakes
    && next.intakes[i].user == db.intakes[i].user
    && (db.intakes[i].status != Draft ==> next.intakes[i] == db.intakes[i])
  }

  /** A new row may join only a draft. */
  predicate JoinsDraft(db: Db, a: Attachment) {
    a.intake.Some? ==> a.intake.value in db.intakes && db.intakes[a.intake.value].status == Draft
  }

  ghost predicate Evolves(db: Db, next: Db) {
    && db.purchases <= next.purchases
    && |db.assets| <= |next.assets|
    && |db.attachments| <= |next.attachments|
    && (forall k | 0 <= k < |db.attachments| :: RowEvolves(db.attachments[k], next.attachments[k]))
    && (forall k | |db.attachments| <= k < |next.attachments| :: JoinsDraft(db, next.attachments[k]))
    && (forall i | i in db.intakes :: IntakeEvolves(db, next, i))
  }

  // ---- Calls under way -----------------------------------------------------------------

  /** The row someone read still says what it said, if its version is still the same. */
  predicate ReadTells(db: Db, attachment: Id, row: Attachment) {
    attachment < |db.attachments| && RowEvolves(row, db.attachments[attachment])
  }

  /** A purchase is the right answer: the intake's own, or the one made with this key and body. */
  predicate Answers(db: Db, c: Creation, purchase: nat) {
    && purchase < |db.purchases|
    && var row := db.purchases[purchase];
    if c.source.Some? then row.source == Some(c.source.value.0) else row.key == c.key && row.request == c.request
  }

  predicate InTransaction(at: CreatePhase) {
    at.Inside? || at.Claimed?
  }

  predicate Holds(c: Call, intake: Id) {
    c.Buying? && InTransaction(c.buyAt) && c.creation.source.Some? && c.creation.source.value.0 == intake
  }

  predicate BuyingOk(db: Db, locks: map<Id, Id>, id: Id, c: Creation, at: CreatePhase) {
    && (at.Bought? && at.answer.Ok? ==> Answers(db, c, at.answer.value))
    && (InTransaction(at) && c.source.Some? ==>
          var (i, user) := c.source.value;
          i in locks && locks[i] == id && IsDraft(db, i, user))
  }

  predicate UploadingOk(db: Db, u: Upload, at: UploadPhase) {
    match at
    case Reading => true
    case Stored(answer) =>
      answer.Ok? ==>
        && answer.value < |db.attachments|
        && db.attachments[answer.value].key == u.key && db.attachments[answer.value].request == u.request
    case _ =>
      && FitsMode(u.media, u.mode) && !(u.media == AssetPhoto && u.pdf)
      && (u.target.ToAsset? ==> u.target.asset < |db.assets|)
  }

  predicate DerivingOk(db: Db, d: Derivative, at: ChangePhase) {
    match at
    case Seen(row, _) => ReadTells(db, d.attachment, row) && row.uploader == d.user && d.kind != Original
    case Vetted(row, _) => ReadTells(db, d.attachment, row) && row.uploader == d.user && d.kind != Original
    case _ => true
  }

  predicate Reviewable(db: Db, v: Review, row: Attachment) {
    && v.version == row.version && v.attachment < |db.attachments|
    && var mode := Or(v.mode, row.mode);
    && FitsMode(Or(v.media, row.media), mode)
    && !(Or(v.media, row.media) == AssetPhoto && row.pdf)
    && (Or(v.confirmed, row.confirmed) && mode != Untouched ==>
          HasDerivativeFor(db.attachments[v.attachment].variants, mode))
  }

  predicate ReviewingOk(db: Db, v: Review, at: ChangePhase) {
    match at
    case Seen(row, _) => ReadTells(db, v.attachment, row) && row.uploader == v.user
    case Vetted(row, _) => ReadTells(db, v.attachment, row) && row.uploader == v.user && Reviewable(db, v, row)
    case _ => true
  }

  predicate DeletingOk(db: Db, user: Id, attachment: Id, at: ChangePhase) {
    match at
    case Seen(row, _) => ReadTells(db, attachment, row) && row.uploader == user
    case Vetted(row, _) => ReadTells(db, attachment, row) && row.uploader == user
    case _ => true
  }

  predicate CallOk(db: Db, locks: map<Id, Id>, id: Id, call: Call) {
    match call
    case Buying(c, at) => BuyingOk(db, locks, id, c, at)
    case Uploading(u, at) => UploadingOk(db, u, at)
    case Deriving(d, at) => DerivingOk(db, d, at)
    case Reviewing(v, at) => ReviewingOk(db, v, at)
    case Deleting(user, attachment, at) => DeletingOk(db, user, attachment, at)
  }

  ghost predicate CallsOk(w: World) {
    forall r | r in w.calls :: CallOk(w.db, w.locks, r, w.calls[r])
  }

  /** Every lock is held by a transaction on that intake. */
  predicate LockOk(w: World, i: Id)
    requires i in w.locks
  {
    w.locks[i] in w.calls && Holds(w.calls[w.locks[i]], i)
  }

  ghost predicate LocksOk(w: World) {
    forall i | i in w.locks :: LockOk(w, i)
  }

  ghost predicate Inv(w: World, lim: Limits) {
    DbInv(w.db, lim) && CallsOk(w) && LocksOk(w)
  }
}
