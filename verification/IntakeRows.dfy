/**
 Draft intakes, their attachments and the purchases made from them: the rows, and what one
 transaction does to them (apps/api/src/purchases/purchases.service.ts, attachments.service.ts,
 draft-intake-lock.ts and purchase-intakes.service.ts).  Rows of purchases, assets and attachments
 are never removed, so each table is a sequence in order of creation and a row's id is its index.
 Digests (keys, request bodies, file contents) are plain numbers: equal exactly when what they
 digest is equal.
 */
module IntakeRows {
  import opened Results

  type Id = nat

  datatype IntakeStatus = Draft | Completed | Cancelled

  datatype Intake = Intake(user: Id, status: IntakeStatus, version: nat)

  /** key is the digest of the idempotency key, request the digest of the body. */
  datatype Purchase = Purchase(key: Id, request: Id, source: Option<Id>)

  datatype Asset = Asset(purchase: Option<Id>, held: bool)

  datatype MediaClass = AssetPhoto | Document

  datatype Mode = Untouched | ObjectCrop | DocumentScan

  datatype ReviewStatus = Ready | NeedsReview

  datatype VariantKind = Original | Cropped | ScanColor | ScanGray | Thumbnail | PdfCopy

  datatype Variant = Variant(kind: VariantKind, revision: nat, size: nat, digest: Id)

  datatype Attachment = Attachment(
    intake: Option<Id>, purchase: Option<Id>, asset: Option<Id>,
    uploader: Id, key: Id, request: Id, draftItem: Option<Id>,
    media: MediaClass, mode: Mode, pdf: bool, status: ReviewStatus, confirmed: bool,
    size: nat, version: nat, deleted: bool, variants: seq<Variant>)

  datatype Db = Db(
    intakes: map<Id, Intake>, purchases: seq<Purchase>, assets: seq<Asset>, attachments: seq<Attachment>)

  const EMPTY_DB := Db(map[], [], [], [])

  datatype Limits = Limits(intakeBytes: nat, revisions: nat, derivativeBytes: nat, perAsset: nat)

  datatype Refusal =
    | NotFound | NotDraft | Immutable | Stale | OtherRequest | OtherIntake | BadMode | BadKind
    | NeedsDerivative | OverQuota | NotConfirmed | UnknownItem | DuplicateItem | NotHeld | Failed

  // ---- Media ---------------------------------------------------------------------------

  predicate FitsMode(media: MediaClass, mode: Mode) {
    !(media == Document && mode == ObjectCrop) && !(media == AssetPhoto && mode == DocumentScan)
  }

  /** The kinds of derivative that make a confirmation of this mode possible. */
  predicate Serves(kind: VariantKind, mode: Mode) {
    match mode
    case Untouched => false
    case ObjectCrop => kind == Cropped
    case DocumentScan => kind == ScanColor || kind == ScanGray || kind == PdfCopy
  }

  predicate HasDerivativeFor(vs: seq<Variant>, mode: Mode) {
    exists j | 0 <= j < |vs| :: Serves(vs[j].kind, mode)
  }

  /** What a derivative of this kind may be made from. */
  predicate VariantFits(media: MediaClass, kind: VariantKind, pdf: bool, heic: bool) {
    if kind == PdfCopy then pdf && media == Document
    else
      && !pdf && !heic
      && (kind == Cropped ==> media == AssetPhoto)
      && (kind == ScanColor || kind == ScanGray ==> media == Document)
  }

  function DerivativeCount(vs: seq<Variant>, n: nat): nat
    requires n <= |vs|
  {
    if n == 0 then 0 else DerivativeCount(vs, n - 1) + if vs[n - 1].kind == Original then 0 else 1
  }

  function DerivativeBytes(vs: seq<Variant>, n: nat): nat
    requires n <= |vs|
  {
    if n == 0 then 0 else DerivativeBytes(vs, n - 1) + if vs[n - 1].kind == Original then 0 else vs[n - 1].size
  }

  /** Everything kept for an attachment: the original and all derivatives. */
  function RetainedBytes(a: Attachment): nat {
    a.size + DerivativeBytes(a.variants, |a.variants|)
  }

  /** What an intake retains in the first n attachments, deleted ones included. */
  function IntakeBytes(rows: seq<Attachment>, n: nat, intake: Id): nat
    requires n <= |rows|
  {
    if n == 0 then 0
    else IntakeBytes(rows, n - 1, intake) + if rows[n - 1].intake == Some(intake) then RetainedBytes(rows[n - 1]) else 0
  }

  function LatestRevision(vs: seq<Variant>, n: nat, kind: VariantKind): nat
    requires n <= |vs|
  {
    if n == 0 then 0
    else
      var before := LatestRevision(vs, n - 1, kind);
      if vs[n - 1].kind == kind && before < vs[n - 1].revision then vs[n - 1].revision else before
  }

  predicate HasDigest(vs: seq<Variant>, kind: VariantKind, digest: Id) {
    exists j | 0 <= j < |vs| :: vs[j].kind == kind && vs[j].digest == digest
  }

  predicate DerivativeFits(lim: Limits, vs: seq<Variant>, size: nat) {
    DerivativeCount(vs, |vs|) < lim.revisions && DerivativeBytes(vs, |vs|) + size <= lim.derivativeBytes
  }

  predicate IntakeFits(lim: Limits, rows: seq<Attachment>, intake: Id, size: nat) {
    IntakeBytes(rows, |rows|, intake) + size <= lim.intakeBytes
  }

  // ---- Unique keys ---------------------------------------------------------------------

  function FindKey(ps: seq<Purchase>, n: nat, key: Id): (r: Option<nat>)
    requires n <= |ps|
    ensures r.Some? ==> r.value < n && ps[r.value].key == key
    ensures r.None? ==> forall k | 0 <= k < n :: ps[k].key != key
  {
    if n == 0 then None else if ps[n - 1].key == key then Some(n - 1) else FindKey(ps, n - 1, key)
  }

  function FindSource(ps: seq<Purchase>, n: nat, intake: Id): (r: Option<nat>)
    requires n <= |ps|
    ensures r.Some? ==> r.value < n && ps[r.value].source == Some(intake)
    ensures r.None? ==> forall k | 0 <= k < n :: ps[k].source != Some(intake)
  {
    if n == 0 then None else if ps[n - 1].source == Some(intake) then Some(n - 1) else FindSource(ps, n - 1, intake)
  }

  function FindUpload(rows: seq<Attachment>, n: nat, key: Id): (r: Option<nat>)
    requires n <= |rows|
    ensures r.Some? ==> r.value < n && rows[r.value].key == key
    ensures r.None? ==> forall k | 0 <= k < n :: rows[k].key != key
  {
    if n == 0 then None else if rows[n - 1].key == key then Some(n - 1) else FindUpload(rows, n - 1, key)
  }

  // ---- Locking a draft -----------------------------------------------------------------

  /** The condition of the update that locks the intake row. */
  predicate IsDraft(db: Db, intake: Id, user: Id) {
    intake in db.intakes && db.intakes[intake].user == user && db.intakes[intake].status == Draft
  }

  // ---- Scopes --------------------------------------------------------------------------

  datatype Scope = OfIntake(intake: Id, user: Id) | OfAsset(asset: Id) | OfPurchase(purchase: Id)

  /** Who may change the attachment, as decided when it is read. */
  function ScopeOf(db: Db, row: Attachment, user: Id): Option<Scope> {
    if row.intake.Some? && row.purchase.None? && row.asset.None? && IsDraft(db, row.intake.value, user) then
      Some(OfIntake(row.intake.value, user))
    else if row.asset.Some? && !row.deleted then Some(OfAsset(row.asset.value))
    else if row.purchase.Some? && !row.deleted then Some(OfPurchase(row.purchase.value))
    else None
  }

  /** The where-clause that is tested again when the attachment is written. */
  predicate InScope(db: Db, row: Attachment, scope: Scope) {
    && !row.deleted
    && match scope
       case OfIntake(i, user) => row.intake == Some(i) && row.purchase.None? && row.asset.None? && IsDraft(db, i, user)
       case OfAsset(a) => row.asset == Some(a)
       case OfPurchase(p) => row.purchase == Some(p)
  }

  predicate Authorized(db: Db, row: Attachment, user: Id) {
    row.uploader == user
    && (row.intake.Some? && row.intake.value in db.intakes ==> db.intakes[row.intake.value].user == user)
  }

  // ---- Transactions --------------------------------------------------------------------

  datatype Target = ToIntake(intake: Id) | ToAsset(asset: Id)

  datatype Upload = Upload(
    user: Id, target: Target, key: Id, request: Id, media: MediaClass, mode: Mode, pdf: bool,
    size: nat, digest: Id, draftItem: Option<Id>)

  function NewRow(u: Upload): Attachment {
    var untouched := u.mode == Untouched;
    Attachment(
      if u.target.ToIntake? then Some(u.target.intake) else None, None,
      if u.target.ToAsset? then Some(u.target.asset) else None,
      u.user, u.key, u.request, if u.target.ToIntake? then u.draftItem else None,
      u.media, u.mode, u.pdf, if untouched then Ready else NeedsReview, untouched,
      u.size, 1, false, [Variant(Original, 1, u.size, u.digest)])
  }

  predicate KeyUsed(db: Db, u: Upload) {
    FindUpload(db.attachments, |db.attachments|, u.key).Some?
  }

  /** The insert of an upload whose key is still unused; the draft is locked and its quota tested. */
  function InsertUpload(db: Db, lim: Limits, u: Upload): Result<Db, Refusal>
    requires !KeyUsed(db, u)
  {
    if u.target.ToIntake? && !IsDraft(db, u.target.intake, u.user) then Err(NotDraft)
    else if u.target.ToIntake? && !IntakeFits(lim, db.attachments, u.target.intake, u.size) then Err(OverQuota)
    else Ok(db.(attachments := db.attachments + [NewRow(u)]))
  }

  datatype Derivative = Derivative(
    user: Id, attachment: Id, kind: VariantKind, pdf: bool, heic: bool, size: nat, digest: Id)

  predicate LockedFor(db: Db, scope: Scope) {
    scope.OfIntake? ==> IsDraft(db, scope.intake, scope.user)
  }

  /** Adds a derivative to the row of the version that was read, unless it is there already. */
  function AddDerivative(db: Db, lim: Limits, d: Derivative, version: nat, scope: Scope): Result<Db, Refusal> {
    if !LockedFor(db, scope) then Err(NotDraft)
    else if |db.attachments| <= d.attachment then Err(NotFound)
    else
      var row := db.attachments[d.attachment];
      if !InScope(db, row, scope) || row.version != version then Err(Stale)
      else
        var bumped := row.(version := row.version + 1);
        if HasDigest(row.variants, d.kind, d.digest) then
          Ok(db.(attachments := db.attachments[d.attachment := bumped]))
        else if !DerivativeFits(lim, row.variants, d.size) then Err(OverQuota)
        else if scope.OfIntake? && !IntakeFits(lim, db.attachments, scope.intake, d.size) then Err(OverQuota)
        else
          var revision := LatestRevision(row.variants, |row.variants|, d.kind) + 1;
          var grown := bumped.(variants := row.variants + [Variant(d.kind, revision, d.size, d.digest)]);
          Ok(db.(attachments := db.attachments[d.attachment := grown]))
  }

  datatype Review = Review(
    user: Id, attachment: Id, version: nat, media: Option<MediaClass>, mode: Option<Mode>,
    confirmed: Option<bool>, draftItem: Option<Option<Id>>)

  function Or<T>(o: Option<T>, default: T): T {
    if o.Some? then o.value else default
  }

  /** What a review asked of the row that was read makes of the row as it is. */
  function ReviewedRow(row: Attachment, v: Review, read: Attachment): Attachment {
    var confirmed := Or(v.confirmed, read.confirmed);
    row.(
      draftItem := Or(v.draftItem, row.draftItem),
      media := Or(v.media, row.media),
      mode := Or(v.mode, read.mode),
      confirmed := confirmed,
      status := if confirmed then Ready else NeedsReview,
      version := row.version + 1)
  }

  /** The review of the row that was read, written if the row still has the version asked for. */
  function SaveReview(db: Db, v: Review, read: Attachment, scope: Scope): Result<Db, Refusal> {
    if !LockedFor(db, scope) then Err(NotDraft)
    else if |db.attachments| <= v.attachment then Err(NotFound)
    else
      var row := db.attachments[v.attachment];
      if !InScope(db, row, scope) || row.version != v.version then Err(Stale)
      else Ok(db.(attachments := db.attachments[v.attachment := ReviewedRow(row, v, read)]))
  }

  /** A deleted row stays, marked. */
  function MarkDeleted(db: Db, attachment: Id, scope: Scope): Result<Db, Refusal> {
    if !LockedFor(db, scope) then Err(NotDraft)
    else if |db.attachments| <= attachment then Err(NotFound)
    else
      var row := db.attachments[attachment];
      if !InScope(db, row, scope) then Err(Immutable)
      else Ok(db.(attachments := db.attachments[attachment := row.(deleted := true, version := row.version + 1)]))
  }

  // ---- Creating a purchase -------------------------------------------------------------

  /** items gives, for each item, the draft item it was entered as; source the intake and its user. */
  datatype Creation = Creation(key: Id, request: Id, source: Option<(Id, Id)>, items: seq<Option<Id>>)

  predicate DistinctItems(items: seq<Option<Id>>) {
    forall j, k | 0 <= j < k < |items| :: items[j].Some? ==> items[j] != items[k]
  }

  /** Which asset each draft item became, when the first asset is base. */
  function LotsOf(items: seq<Option<Id>>, n: nat, base: nat): (r: map<Id, nat>)
    requires n <= |items|
    ensures forall d | d in r :: base <= r[d] < base + n && items[r[d] - base] == Some(d)
  {
    if n == 0 then map[]
    else
      var before := LotsOf(items, n - 1, base);
      if items[n - 1].Some? then before[items[n - 1].value := base + n - 1] else before
  }

  predicate Waits(a: Attachment, intake: Id) {
    a.intake == Some(intake) && !a.deleted
  }

  /** Where one attachment goes when its intake is finalized. */
  function Reassigned(a: Attachment, intake: Id, purchase: Id, lots: map<Id, nat>): Result<Attachment, Refusal> {
    if !Waits(a, intake) then Ok(a)
    else if a.status != Ready || (a.mode != Untouched && !a.confirmed) then Err(NotConfirmed)
    else if a.media == Document || a.draftItem.None? then
      Ok(a.(intake := None, purchase := Some(purchase), asset := None))
    else if a.draftItem.value in lots then
      Ok(a.(intake := None, purchase := None, asset := Some(lots[a.draftItem.value])))
    else Err(UnknownItem)
  }

  /** The first n attachments after the reassignment, or the first refusal among them. */
  function ReassignedRows(rows: seq<Attachment>, n: nat, intake: Id, purchase: Id, lots: map<Id, nat>): (r: Result<seq<Attachment>, Refusal>)
    requires n <= |rows|
    ensures r.Ok? ==> |r.value| == n && forall k | 0 <= k < n :: Reassigned(rows[k], intake, purchase, lots) == Ok(r.value[k])
  {
    if n == 0 then Ok([])
    else
      match ReassignedRows(rows, n - 1, intake, purchase, lots)
      case Err(e) => Err(e)
      case Ok(before) =>
        match Reassigned(rows[n - 1], intake, purchase, lots)
        case Err(e) => Err(e)
        case Ok(a) => Ok(before + [a])
  }

  predicate KeyTaken(db: Db, c: Creation) {
    FindKey(db.purchases, |db.purchases|, c.key).Some?
  }

  predicate SourceTaken(db: Db, c: Creation) {
    c.source.Some? && FindSource(db.purchases, |db.purchases|, c.source.value.0).Some?
  }

  function NewPurchase(c: Creation): Purchase {
    Purchase(c.key, c.request, if c.source.Some? then Some(c.source.value.0) else None)
  }

  function NewAssets(n: nat, purchase: Id): seq<Asset> {
    seq(n, _ => Asset(Some(purchase), true))
  }

  /** All the writes of one purchase, where neither unique key is taken. */
  function CommitPurchase(db: Db, c: Creation): Result<Db, Refusal>
    requires !KeyTaken(db, c) && !SourceTaken(db, c)
  {
    if !DistinctItems(c.items) then Err(DuplicateItem)
    else
      var bought := db.(purchases := db.purchases + [NewPurchase(c)],
                        assets := db.assets + NewAssets(|c.items|, |db.purchases|));
      if c.source.None? then Ok(bought)
      else
        var i := c.source.value.0;
        if i !in db.intakes then Err(NotFound)
        else
          var lots := LotsOf(c.items, |c.items|, |db.assets|);
          match ReassignedRows(db.attachments, |db.attachments|, i, |db.purchases|, lots)
          case Err(e) => Err(e)
          case Ok(rows) =>
            Ok(bought.(attachments := rows,
                       intakes := db.intakes[i := db.intakes[i].(status := Completed, version := db.intakes[i].version + 1)]))
  }

  // ---- Intakes -------------------------------------------------------------------------

  function OpenIntake(db: Db, intake: Id, user: Id): Result<Db, Refusal> {
    if intake !in db.intakes then Ok(db.(intakes := db.intakes[intake := Intake(user, Draft, 1)]))
    else if db.intakes[intake].user != user then Err(NotFound)
    else Ok(db)
  }

  /** An autosave carries the version it last saw. */
  function SaveDraft(db: Db, intake: Id, user: Id, version: nat): Result<Db, Refusal> {
    if intake !in db.intakes || db.intakes[intake].user != user then Err(NotFound)
    else if db.intakes[intake].status != Draft then Err(NotDraft)
    else if db.intakes[intake].version != version then Err(Stale)
    else Ok(db.(intakes := db.intakes[intake := db.intakes[intake].(version := version + 1)]))
  }

  /** Cancelling again answers with the cancelled intake and writes nothing. */
  function CancelIntake(db: Db, intake: Id, user: Id): Result<Db, Refusal> {
    if intake !in db.intakes || db.intakes[intake].user != user then Err(NotFound)
    else if db.intakes[intake].status == Cancelled then Ok(db)
    else if db.intakes[intake].status != Draft then Err(NotDraft)
    else
      var row := db.intakes[intake];
      Ok(db.(intakes := db.intakes[intake := row.(status := Cancelled, version := row.version + 1)]))
  }
}
