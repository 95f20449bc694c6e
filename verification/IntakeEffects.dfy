/**
 What each transaction on a draft writes and when it is accepted, said of the rows themselves; and that
 only whoever uploaded an attachment ever changes it.
 */
module IntakeEffects {
  import opened Results
  import opened IntakeRows
  import opened IntakeRuns
  import opened IntakeInvariants
  import opened IntakeRowProofs
  import opened IntakeRunProofs
  import opened IntakeTheorems

  // ---- FileBytes files --------------------------------------------------------------------

  /** The sizes of the first n files of an attachment, the original first. */
  function FileBytes(vs: seq<Variant>, n: nat): nat
    requires n <= |vs|
  {
    if n == 0 then 0 else FileBytes(vs, n - 1) + vs[n - 1].size
  }

  /** All files of all attachments of an intake, deleted attachments included. */
  function FilesIn(rows: seq<Attachment>, n: nat, intake: Id): nat
    requires n <= |rows|
  {
    if n == 0 then 0
    else
      var a := rows[n - 1];
      FilesIn(rows, n - 1, intake) + if a.intake == Some(intake) then FileBytes(a.variants, |a.variants|) else 0
  }

  lemma {:induction false} DerivativesStored(vs: seq<Variant>, n: nat)
    requires 0 < n <= |vs| && vs[0].kind == Original && forall j | 0 < j < |vs| :: vs[j].kind != Original
    ensures FileBytes(vs, n) == vs[0].size + DerivativeBytes(vs, n)
    ensures DerivativeCount(vs, n) == n - 1
  {
    if n == 1 {
      assert FileBytes(vs, 0) == 0 && DerivativeBytes(vs, 0) == 0 && DerivativeCount(vs, 0) == 0;
    } else {
      DerivativesStored(vs, n - 1);
    }
  }

  lemma RetainedIsStored(a: Attachment)
    requires Numbered(a.variants) && OriginalOk(a)
    ensures RetainedBytes(a) == FileBytes(a.variants, |a.variants|)
    ensures DerivativeBytes(a.variants, |a.variants|) == FileBytes(a.variants, |a.variants|) - a.variants[0].size
    ensures DerivativeCount(a.variants, |a.variants|) == |a.variants| - 1
  {
    DerivativesStored(a.variants, |a.variants|);
  }

  ghost predicate FilesOk(rows: seq<Attachment>) {
    forall k | 0 <= k < |rows| :: Numbered(rows[k].variants) && OriginalOk(rows[k])
  }

  lemma RowsFilesOk(db: Db, lim: Limits)
    requires DbInv(db, lim)
    ensures FilesOk(db.attachments)
  {
    forall k | 0 <= k < |db.attachments|
      ensures Numbered(db.attachments[k].variants) && OriginalOk(db.attachments[k])
    {
      assert RowOk(db, lim, db.attachments[k]);
    }
  }

  lemma {:induction false} UsageIsStored(rows: seq<Attachment>, n: nat, intake: Id)
    requires n <= |rows| && FilesOk(rows)
    ensures IntakeBytes(rows, n, intake) == FilesIn(rows, n, intake)
  {
    if 0 < n {
      UsageIsStored(rows, n - 1, intake);
      RetainedIsStored(rows[n - 1]);
    }
  }

  /** In every reachable state the usage of an intake is the size of all its files, and that is within the
      limit; so are number and size of the derivatives of every attachment. */
  lemma FilesWithinLimits(lim: Limits, steps: seq<Step>, intake: Id, k: nat)
    ensures var rows := Reached(lim, steps).db.attachments;
      && IntakeBytes(rows, |rows|, intake) == FilesIn(rows, |rows|, intake) <= lim.intakeBytes
      && (k < |rows| ==>
            && 0 < |rows[k].variants| <= lim.revisions + 1
            && FileBytes(rows[k].variants, |rows[k].variants|) <= rows[k].variants[0].size + lim.derivativeBytes)
  {
    ReachedInv(lim, steps);
    var rows := Reached(lim, steps).db.attachments;
    QuotasHold(lim, steps, intake, k);
    RowsFilesOk(Reached(lim, steps).db, lim);
    UsageIsStored(rows, |rows|, intake);
    if k < |rows| {
      RetainedIsStored(rows[k]);
    }
  }

  lemma {:induction false} StoredReplaced(rows: seq<Attachment>, n: nat, k: nat, row: Attachment, i: Id)
    requires k < |rows| && n <= |rows| && row.intake == rows[k].intake
    ensures FilesIn(rows[k := row], n, i) == FilesIn(rows, n, i)
      + if k < n && row.intake == Some(i) then FileBytes(row.variants, |row.variants|) - FileBytes(rows[k].variants, |rows[k].variants|) else 0
  {
    if 0 < n {
      StoredReplaced(rows, n - 1, k, row, i);
      assert rows[k := row][n - 1] == if n - 1 == k then row else rows[n - 1];
    }
  }

  lemma {:induction false} StoredPrefix(vs: seq<Variant>, v: Variant, n: nat)
    requires n <= |vs|
    ensures FileBytes(vs + [v], n) == FileBytes(vs, n)
  {
    if 0 < n {
      StoredPrefix(vs, v, n - 1);
    }
  }

  // ---- Uploads and derivatives ---------------------------------------------------------

  /** An upload to a draft is accepted exactly by its user, while it is a draft, and while all files of the
      intake and the new one fit.  It appends one row, as it was sent. */
  lemma UploadAccepted(db: Db, lim: Limits, u: Upload, i: Id)
    requires DbInv(db, lim) && !KeyUsed(db, u) && u.target == ToIntake(i)
    ensures InsertUpload(db, lim, u).Ok? <==>
      && i in db.intakes && db.intakes[i].user == u.user && db.intakes[i].status == Draft
      && FilesIn(db.attachments, |db.attachments|, i) + u.size <= lim.intakeBytes
  {
    RowsFilesOk(db, lim);
    UsageIsStored(db.attachments, |db.attachments|, i);
  }

  lemma UploadAppends(db: Db, lim: Limits, u: Upload)
    requires !KeyUsed(db, u) && InsertUpload(db, lim, u).Ok?
    ensures var next := InsertUpload(db, lim, u).value; var n := |db.attachments|;
      && next.attachments[..n] == db.attachments && |next.attachments| == n + 1
      && next.intakes == db.intakes && next.assets == db.assets && next.purchases == db.purchases
      && var row := next.attachments[n];
      && row.purchase == None && !row.deleted && row.version == 1
      && (match u.target
          case ToIntake(i) => row.intake == Some(i) && row.asset == None && row.draftItem == u.draftItem
          case ToAsset(a) => row.asset == Some(a) && row.intake == None && row.draftItem == None)
      && (row.uploader, row.key, row.request) == (u.user, u.key, u.request)
      && (row.media, row.mode, row.pdf, row.size) == (u.media, u.mode, u.pdf, u.size)
      && row.variants == [Variant(Original, 1, u.size, u.digest)]
      && (row.confirmed <==> u.mode == Untouched) && (row.status == Ready <==> u.mode == Untouched)
  {
  }

  /** What must hold for a derivative to be written: the row is in scope and unchanged since it was read, and
      either its content is there already or derivative and intake limits leave room for it. */
  predicate Admits(db: Db, lim: Limits, d: Derivative, version: nat, scope: Scope) {
    && d.attachment < |db.attachments|
    && var row := db.attachments[d.attachment]; var vs := row.variants;
    && 0 < |vs| && !row.deleted && row.version == version
    && (match scope
        case OfIntake(i, user) =>
          && row.intake == Some(i) && row.purchase == None && row.asset == None
          && i in db.intakes && db.intakes[i].user == user && db.intakes[i].status == Draft
        case OfAsset(a) => row.asset == Some(a)
        case OfPurchase(p) => row.purchase == Some(p))
    && (HasDigest(vs, d.kind, d.digest)
        || (|vs| <= lim.revisions
            && FileBytes(vs, |vs|) - vs[0].size + d.size <= lim.derivativeBytes
            && (scope.OfIntake? ==>
                  FilesIn(db.attachments, |db.attachments|, scope.intake) + d.size <= lim.intakeBytes)))
  }

  lemma DerivativeAccepted(db: Db, lim: Limits, d: Derivative, version: nat, scope: Scope)
    requires DbInv(db, lim)
    ensures AddDerivative(db, lim, d, version, scope).Ok? <==> Admits(db, lim, d, version, scope)
  {
    RowsFilesOk(db, lim);
    if d.attachment < |db.attachments| {
      RetainedIsStored(db.attachments[d.attachment]);
    }
    if scope.OfIntake? {
      UsageIsStored(db.attachments, |db.attachments|, scope.intake);
    }
    hide IntakeBytes, DerivativeBytes, DerivativeCount, FileBytes, FilesIn, HasDigest;
  }

  /** A new derivative is the next revision of its kind; a content that is there already is not written again.
      Either way the row gets a new version, and nothing else changes. */
  lemma DerivativeWrites(db: Db, lim: Limits, d: Derivative, version: nat, scope: Scope)
    requires DbInv(db, lim) && AddDerivative(db, lim, d, version, scope).Ok?
    ensures d.attachment < |db.attachments|
    ensures var before := db.attachments[d.attachment];
      AddDerivative(db, lim, d, version, scope).value == db.(attachments := db.attachments[d.attachment :=
        before.(version := before.version + 1, variants := VariantsWith(before.variants, d))])
  {
    assert RowOk(db, lim, db.attachments[d.attachment]);
    LatestIsCount(db.attachments[d.attachment].variants, |db.attachments[d.attachment].variants|, d.kind);
  }

  function VariantsWith(vs: seq<Variant>, d: Derivative): seq<Variant> {
    if HasDigest(vs, d.kind, d.digest) then vs
    else vs + [Variant(d.kind, CountKind(vs, |vs|, d.kind) + 1, d.size, d.digest)]
  }

  /** It adds its size to the usage of its intake; a content that is there already adds nothing. */
  lemma DerivativeAddsItsSize(db: Db, lim: Limits, d: Derivative, version: nat, scope: Scope, i: Id)
    requires DbInv(db, lim) && d.kind != Original && AddDerivative(db, lim, d, version, scope).Ok?
    ensures var next := AddDerivative(db, lim, d, version, scope).value;
      var before := db.attachments[d.attachment];
      IntakeBytes(next.attachments, |next.attachments|, i) == IntakeBytes(db.attachments, |db.attachments|, i)
        + if before.intake == Some(i) && !HasDigest(before.variants, d.kind, d.digest) then d.size else 0
  {
    hide IntakeBytes, FilesIn, HasDigest, CountKind, DbInv, AddDerivative, FileBytes;
    var next := AddDerivative(db, lim, d, version, scope).value;
    DerivativeWrites(db, lim, d, version, scope);
    DeriveKeeps(db, lim, d, version, scope);
    RowsFilesOk(db, lim);
    RowsFilesOk(next, lim);
    UsageIsStored(db.attachments, |db.attachments|, i);
    UsageIsStored(next.attachments, |next.attachments|, i);
    StoredReplaced(db.attachments, |db.attachments|, d.attachment, next.attachments[d.attachment], i);
    StoredWith(db.attachments[d.attachment].variants, d);
  }

  lemma StoredWith(vs: seq<Variant>, d: Derivative)
    ensures var ws := VariantsWith(vs, d);
      FileBytes(ws, |ws|) == FileBytes(vs, |vs|) + if HasDigest(vs, d.kind, d.digest) then 0 else d.size
  {
    hide HasDigest;
    StoredPrefix(vs, Variant(d.kind, CountKind(vs, |vs|, d.kind) + 1, d.size, d.digest), |vs|);
  }

  // ---- Reviews, deletions and drafts ---------------------------------------------------

  /** The row is not deleted and still where the caller found it. */
  predicate StillThere(db: Db, k: nat, scope: Scope) {
    && k < |db.attachments| && !db.attachments[k].deleted
    && var row := db.attachments[k];
    match scope
    case OfIntake(i, user) =>
      && row.intake == Some(i) && row.purchase == None && row.asset == None
      && i in db.intakes && db.intakes[i].user == user && db.intakes[i].status == Draft
    case OfAsset(a) => row.asset == Some(a)
    case OfPurchase(p) => row.purchase == Some(p)
  }

  /** A deletion marks the row, keeps its files, and so leaves the usage of every intake as it was. */
  lemma DeletionMarks(db: Db, attachment: Id, scope: Scope, i: Id)
    ensures MarkDeleted(db, attachment, scope).Ok? <==> StillThere(db, attachment, scope)
    ensures MarkDeleted(db, attachment, scope).Ok? ==>
      var next := MarkDeleted(db, attachment, scope).value; var before := db.attachments[attachment];
      && next == db.(attachments := db.attachments[attachment := before.(deleted := true, version := before.version + 1)])
      && IntakeBytes(next.attachments, |next.attachments|, i) == IntakeBytes(db.attachments, |db.attachments|, i)
  {
    if MarkDeleted(db, attachment, scope).Ok? {
      var before := db.attachments[attachment];
      BytesReplaced(db.attachments, |db.attachments|, attachment, before.(deleted := true, version := before.version + 1), i);
    }
  }

  /** A review writes what it asks for.  Mode and confirmation it does not name are those that were read, its
      medium and draft item those of the row; the status says whether it is confirmed. */
  lemma ReviewWrites(db: Db, v: Review, read: Attachment, scope: Scope)
    ensures SaveReview(db, v, read, scope).Ok? <==>
      StillThere(db, v.attachment, scope) && db.attachments[v.attachment].version == v.version
    ensures SaveReview(db, v, read, scope).Ok? ==>
      var next := SaveReview(db, v, read, scope).value;
      var before, row := db.attachments[v.attachment], next.attachments[v.attachment];
      && next == db.(attachments := db.attachments[v.attachment := row])
      && row.media == (match v.media case Some(m) => m case None => before.media)
      && row.mode == (match v.mode case Some(m) => m case None => read.mode)
      && row.confirmed == (match v.confirmed case Some(c) => c case None => read.confirmed)
      && row.draftItem == (match v.draftItem case Some(item) => item case None => before.draftItem)
      && (row.status == Ready <==> row.confirmed) && row.version == before.version + 1
      && row == before.(media := row.media, mode := row.mode, confirmed := row.confirmed,
                        draftItem := row.draftItem, status := row.status, version := row.version)
  {
  }

  /** Every version of a draft is saved over at most once, by its user. */
  lemma AutosaveTakesVersionOnce(db: Db, i: Id, user: Id, version: nat, other: Id, later: nat)
    ensures SaveDraft(db, i, user, version).Ok? <==>
      i in db.intakes && db.intakes[i].user == user && db.intakes[i].status == Draft && db.intakes[i].version == version
    ensures SaveDraft(db, i, user, version).Ok? ==>
      var next := SaveDraft(db, i, user, version).value;
      && next == db.(intakes := db.intakes[i := Intake(user, Draft, version + 1)])
      && !SaveDraft(next, i, other, version).Ok?
      && (SaveDraft(next, i, user, later).Ok? <==> later == version + 1)
  {
  }

  /** A cancellation is final and may be repeated. */
  lemma CancelIsFinal(db: Db, i: Id, user: Id, version: nat)
    ensures CancelIntake(db, i, user).Ok? <==> i in db.intakes && db.intakes[i].user == user && db.intakes[i].status != Completed
    ensures CancelIntake(db, i, user).Ok? ==>
      var next := CancelIntake(db, i, user).value;
      && i in next.intakes && next.intakes[i].status == Cancelled && next.intakes[i].user == user
      && next.intakes.Keys == db.intakes.Keys && (forall j | j in db.intakes && j != i :: next.intakes[j] == db.intakes[j])
      && next == db.(intakes := next.intakes)
      && CancelIntake(next, i, user) == Ok(next) && SaveDraft(next, i, user, version) == Err(NotDraft)
  {
  }

  /** Opening creates a draft for its user, or finds the one that is there. */
  lemma OpenFindsOrCreates(db: Db, i: Id, user: Id, other: Id)
    ensures OpenIntake(db, i, user).Ok? <==> (i in db.intakes ==> db.intakes[i].user == user)
    ensures OpenIntake(db, i, user).Ok? ==>
      var next := OpenIntake(db, i, user).value;
      && (if i in db.intakes then next == db else next == db.(intakes := db.intakes[i := Intake(user, Draft, 1)]))
      && (OpenIntake(next, i, other).Ok? <==> other == user)
  {
  }

  // ---- Purchases -----------------------------------------------------------------------

  /** What a purchase writes besides moving attachments: itself, one held asset per item, and the end of the
      draft it came from; attachments that were not waiting stay as they are. */
  lemma PurchaseWrites(db: Db, c: Creation)
    requires !KeyTaken(db, c) && !SourceTaken(db, c) && CommitPurchase(db, c).Ok?
    ensures var next := CommitPurchase(db, c).value;
      && next.purchases == db.purchases + [Purchase(c.key, c.request, if c.source.Some? then Some(c.source.value.0) else None)]
      && |next.assets| == |db.assets| + |c.items| && next.assets[..|db.assets|] == db.assets
      && (forall k | |db.assets| <= k < |next.assets| :: next.assets[k] == Asset(Some(|db.purchases|), true))
      && |next.attachments| == |db.attachments|
      && (forall k | 0 <= k < |db.attachments| && (c.source.None? || db.attachments[k].deleted || db.attachments[k].intake != Some(c.source.value.0)) ::
            next.attachments[k] == db.attachments[k])
      && (if c.source.None? then next.intakes == db.intakes
          else
            var i := c.source.value.0;
            i in db.intakes && next.intakes == db.intakes[i := db.intakes[i].(status := Completed, version := db.intakes[i].version + 1)])
  {
    if c.source.Some? {
      var i, lots := c.source.value.0, LotsOf(c.items, |c.items|, |db.assets|);
      var next := CommitPurchase(db, c).value;
      forall k | 0 <= k < |db.attachments| && (db.attachments[k].deleted || db.attachments[k].intake != Some(i))
        ensures next.attachments[k] == db.attachments[k]
      {
        assert Reassigned(db.attachments[k], i, |db.purchases|, lots) == Ok(next.attachments[k]);
      }
    }
  }

  // ---- Whose attachments ---------------------------------------------------------------

  function UserOf(call: Call): Option<Id> {
    match call
    case Buying(c, _) => if c.source.Some? then Some(c.source.value.1) else None
    case Uploading(u, _) => Some(u.user)
    case Deriving(d, _) => Some(d.user)
    case Reviewing(v, _) => Some(v.user)
    case Deleting(user, _, _) => Some(user)
  }

  lemma BuyingChangesOwn(w: World, lim: Limits, id: Id, onSource: bool, k: nat)
    requires Inv(w, lim) && id in w.calls && w.calls[id].Buying? && k < |w.db.attachments|
    ensures var t := TurnOf(w, lim, id, w.calls[id], onSource);
      && |t.db.attachments| == |w.db.attachments|
      && (t.db.attachments[k] != w.db.attachments[k] ==> UserOf(w.calls[id]) == Some(w.db.attachments[k].uploader))
  {
    var c, at := w.calls[id].creation, w.calls[id].buyAt;
    assert CallOk(w.db, w.locks, id, w.calls[id]);
    assert RowOk(w.db, lim, w.db.attachments[k]);
    hide Inv, RowOk;
    if at.Claimed? && !KeyTaken(w.db, c) && !SourceTaken(w.db, c) && CommitPurchase(w.db, c).Ok? {
      hide CommitPurchase;
      PurchaseWrites(w.db, c);
    } else {
      hide CommitPurchase;
    }
  }

  lemma UploadingChangesNone(w: World, lim: Limits, u: Upload, at: UploadPhase, k: nat)
    requires k < |w.db.attachments|
    ensures var t := UploadTurn(w, lim, u, at); k < |t.db.attachments| && t.db.attachments[k] == w.db.attachments[k]
  {
  }

  lemma ChangingChangesOwn(w: World, lim: Limits, id: Id, onSource: bool, k: nat)
    requires id in w.calls && CallOk(w.db, w.locks, id, w.calls[id]) && k < |w.db.attachments|
    requires w.calls[id].Deriving? || w.calls[id].Reviewing? || w.calls[id].Deleting?
    ensures var t := TurnOf(w, lim, id, w.calls[id], onSource);
      && |t.db.attachments| == |w.db.attachments|
      && (t.db.attachments[k] != w.db.attachments[k] ==> UserOf(w.calls[id]) == Some(w.db.attachments[k].uploader))
  {
    match w.calls[id]
    case Deriving(d, at) => DerivingChangesOwn(w, lim, d, at, k);
    case Reviewing(v, at) => ReviewingChangesOwn(w, v, at, k);
    case Deleting(user, attachment, at) => DeletingChangesOwn(w, user, attachment, at, k);
  }

  lemma DerivingChangesOwn(w: World, lim: Limits, d: Derivative, at: ChangePhase, k: nat)
    requires DerivingOk(w.db, d, at) && k < |w.db.attachments|
    ensures var t := DeriveTurn(w, lim, d, at);
      && |t.db.attachments| == |w.db.attachments|
      && (t.db.attachments[k] != w.db.attachments[k] ==> w.db.attachments[k].uploader == d.user)
  {
  }

  lemma ReviewingChangesOwn(w: World, v: Review, at: ChangePhase, k: nat)
    requires ReviewingOk(w.db, v, at) && k < |w.db.attachments|
    ensures var t := ReviewTurn(w, v, at);
      && |t.db.attachments| == |w.db.attachments|
      && (t.db.attachments[k] != w.db.attachments[k] ==> w.db.attachments[k].uploader == v.user)
  {
  }

  lemma DeletingChangesOwn(w: World, user: Id, attachment: Id, at: ChangePhase, k: nat)
    requires DeletingOk(w.db, user, attachment, at) && k < |w.db.attachments|
    ensures var t := DeleteTurn(w, user, attachment, at);
      && |t.db.attachments| == |w.db.attachments|
      && (t.db.attachments[k] != w.db.attachments[k] ==> w.db.attachments[k].uploader == user)
  {
  }

  /** From any reachable state: a step that changes an attachment is a step of a call by the user who uploaded
      it, the finalization of the user's own draft included. */
  lemma OnlyUploaderChanges(lim: Limits, steps: seq<Step>, step: Step, k: nat)
    requires k < |Reached(lim, steps).db.attachments|
    ensures var w := Reached(lim, steps);
      var v := Next(w, lim, step);
      && k < |v.db.attachments|
      && (v.db.attachments[k] != w.db.attachments[k] ==>
            step.Advance? && step.id in w.calls && UserOf(w.calls[step.id]) == Some(w.db.attachments[k].uploader))
  {
    var w := Reached(lim, steps);
    ReachedInv(lim, steps);
    if step.Advance? && step.id in w.calls {
      AdvanceChangesOwn(w, lim, step.id, step.onSource, k);
    } else {
      OtherStepsChangeNone(w, lim, step);
    }
  }

  lemma AdvanceChangesOwn(w: World, lim: Limits, id: Id, onSource: bool, k: nat)
    requires Inv(w, lim) && id in w.calls && k < |w.db.attachments|
    ensures var v := Next(w, lim, Advance(id, onSource));
      && k < |v.db.attachments|
      && (v.db.attachments[k] != w.db.attachments[k] ==> UserOf(w.calls[id]) == Some(w.db.attachments[k].uploader))
  {
    hide BuyTurn, UploadTurn, DeriveTurn, ReviewTurn, DeleteTurn;
    assert CallOk(w.db, w.locks, id, w.calls[id]);
    match w.calls[id]
    case Buying(_, _) => BuyingChangesOwn(w, lim, id, onSource, k);
    case Uploading(u, at) => UploadingChangesNone(w, lim, u, at, k);
    case _ => ChangingChangesOwn(w, lim, id, onSource, k);
  }

  lemma OtherStepsChangeNone(w: World, lim: Limits, step: Step)
    requires !(step.Advance? && step.id in w.calls)
    ensures Next(w, lim, step).db.attachments == w.db.attachments
  {
  }

  // ---- The checks before a transaction -------------------------------------------------

  /** Documents are never cropped as objects, objects never scanned as documents. */
  predicate Suits(media: MediaClass, mode: Mode) {
    match mode
    case Untouched => true
    case ObjectCrop => media == AssetPhoto
    case DocumentScan => media == Document
  }

  /** An upload goes on exactly when the file is not empty and a PDF only as a document, the mode suits the
      media, and its owner takes it: the user's own draft, or a held asset below its limit. */
  lemma UploadGoesOnIff(db: Db, lim: Limits, u: Upload)
    ensures OwnerRefuses(db, lim, u) == None <==>
      && 0 < u.size && (u.pdf ==> u.media == Document) && Suits(u.media, u.mode)
      && (match u.target
          case ToIntake(i) => i in db.intakes && db.intakes[i].user == u.user && db.intakes[i].status == Draft
          case ToAsset(a) => a < |db.assets| && db.assets[a].held && LiveCount(db.attachments, |db.attachments|, a) < lim.perAsset)
  {
    hide LiveCount;
  }

  /** What may be derived from what: a copy of a PDF from a PDF document; everything else from images the
      browser can show, crops from photos, scans from documents. */
  lemma DerivesFromIff(media: MediaClass, kind: VariantKind, pdf: bool, heic: bool)
    ensures VariantFits(media, kind, pdf, heic) <==>
      match kind
      case PdfCopy => pdf && media == Document
      case Cropped => !pdf && !heic && media == AssetPhoto
      case ScanColor => !pdf && !heic && media == Document
      case ScanGray => !pdf && !heic && media == Document
      case Thumbnail => !pdf && !heic
      case Original => !pdf && !heic
  {
  }

  /** A derivative passes its checks exactly when it may be made from the row, is not there already, and fits the
      limits of the row. */
  lemma DerivativeVettedIff(db: Db, lim: Limits, d: Derivative, row: Attachment, scope: Scope)
    requires Numbered(row.variants) && OriginalOk(row) && d.attachment < |db.attachments|
    ensures VetDerivative(db, lim, d, row, scope) == Vetted(row, scope) <==>
      && VariantFits(row.media, d.kind, d.pdf, d.heic)
      && (forall j | 0 <= j < |db.attachments[d.attachment].variants| ::
            db.attachments[d.attachment].variants[j].kind != d.kind || db.attachments[d.attachment].variants[j].digest != d.digest)
      && |row.variants| <= lim.revisions
      && FileBytes(row.variants, |row.variants|) - row.variants[0].size + d.size <= lim.derivativeBytes
  {
    hide VariantFits, FileBytes;
    RetainedIsStored(row);
  }

  /** A review passes its checks exactly for the version that was read, when the mode it leaves suits the media,
      a photo is no PDF, and whatever ends up confirmed needs no derivative or has one of its sort. */
  lemma ReviewVettedIff(db: Db, v: Review, row: Attachment, scope: Scope)
    requires v.attachment < |db.attachments|
    ensures var media := match v.media case Some(m) => m case None => row.media;
      var mode := match v.mode case Some(m) => m case None => row.mode;
      var confirmed := match v.confirmed case Some(c) => c case None => row.confirmed;
      var vs := db.attachments[v.attachment].variants;
      VetReview(db, v, row, scope) == Vetted(row, scope) <==>
        && v.version == row.version && Suits(media, mode) && (media == AssetPhoto ==> !row.pdf)
        && (confirmed ==> mode == Untouched || exists j | 0 <= j < |vs| :: Sorted(vs[j].kind, mode))
  {
    var vs := db.attachments[v.attachment].variants;
    forall j, mode: Mode | 0 <= j < |vs|
      ensures Serves(vs[j].kind, mode) <==> Sorted(vs[j].kind, mode)
    {
    }
  }

  /** The files a mode asks for. */
  predicate Sorted(kind: VariantKind, mode: Mode) {
    || (mode == ObjectCrop && kind == Cropped)
    || (mode == DocumentScan && (kind == ScanColor || kind == ScanGray || kind == PdfCopy))
  }

  /** In every reachable state: the mode suits the media, a photo is no PDF, and what is ready is confirmed and
      left as it is or has a file of the sort its mode asks for. */
  lemma ReadyHasItsFile(lim: Limits, steps: seq<Step>, k: nat)
    requires k < |Reached(lim, steps).db.attachments|
    ensures var a := Reached(lim, steps).db.attachments[k];
      && Suits(a.media, a.mode) && (a.media == AssetPhoto ==> !a.pdf)
      && (a.status == Ready ==> a.confirmed)
      && (a.status == Ready ==> a.mode == Untouched || exists j | 0 <= j < |a.variants| :: Sorted(a.variants[j].kind, a.mode))
  {
    ReadyHasItsDerivative(lim, steps, k);
    var a := Reached(lim, steps).db.attachments[k];
    if a.status == Ready && a.mode != Untouched {
      var j :| 0 <= j < |a.variants| && Serves(a.variants[j].kind, a.mode);
      assert Sorted(a.variants[j].kind, a.mode);
    }
  }

  // ---- Under the lock ------------------------------------------------------------------

  /** The intake and its attachments are as they were, and none has joined. */
  ghost predicate LeftAlone(db: Db, next: Db, i: Id) {
    && i in db.intakes && i in next.intakes && next.intakes[i] == db.intakes[i]
    && |db.attachments| <= |next.attachments|
    && (forall k | 0 <= k < |db.attachments| && db.attachments[k].intake == Some(i) :: next.attachments[k] == db.attachments[k])
    && (forall k | 0 <= k < |next.attachments| && next.attachments[k].intake == Some(i) ::
          k < |db.attachments| && db.attachments[k].intake == Some(i))
  }

  /** While a finalization holds an intake, no other call and no other request changes the intake, or an
      attachment of it, or adds one. */
  lemma LockedIntakeLeftAlone(w: World, lim: Limits, step: Step, i: Id)
    requires Inv(w, lim) && i in w.locks && !(step.Advance? && step.id == w.locks[i])
    ensures LeftAlone(w.db, Next(w, lim, step).db, i)
  {
    assert LockOk(w, i);
    assert CallOk(w.db, w.locks, w.locks[i], w.calls[w.locks[i]]);
    assert i in w.db.intakes;
    if step.Advance? && step.id in w.calls {
      OtherAdvanceLeavesAlone(w, lim, step.id, step.onSource, i);
    }
  }

  lemma OtherAdvanceLeavesAlone(w: World, lim: Limits, id: Id, onSource: bool, i: Id)
    requires Inv(w, lim) && i in w.locks && i in w.db.intakes && id in w.calls && id != w.locks[i]
    ensures LeftAlone(w.db, Next(w, lim, Advance(id, onSource)).db, i)
  {
    hide LeftAlone, BuyTurn, UploadTurn, DeriveTurn, ReviewTurn, DeleteTurn;
    match w.calls[id]
    case Buying(c, at) => OtherBuyLeavesAlone(w, lim, id, onSource, i);
    case Uploading(u, at) => UploadLeavesAlone(w, lim, u, at, i);
    case Deriving(d, at) => DeriveLeavesAlone(w, lim, d, at, i);
    case Reviewing(v, at) => ReviewLeavesAlone(w, lim, v, at, i);
    case Deleting(user, attachment, at) => DeleteLeavesAlone(w, lim, user, attachment, at, i);
  }

  /** Two finalizations never hold the same intake. */
  lemma OtherBuyLeavesAlone(w: World, lim: Limits, id: Id, onSource: bool, i: Id)
    requires Inv(w, lim) && i in w.locks && i in w.db.intakes && id in w.calls && id != w.locks[i] && w.calls[id].Buying?
    ensures LeftAlone(w.db, BuyTurn(w, id, w.calls[id].creation, w.calls[id].buyAt, onSource).db, i)
  {
    var c, at := w.calls[id].creation, w.calls[id].buyAt;
    assert CallOk(w.db, w.locks, id, w.calls[id]);
    if at.Claimed? && !KeyTaken(w.db, c) && !SourceTaken(w.db, c) && CommitPurchase(w.db, c).Ok? {
      PurchaseWrites(w.db, c);
      hide Inv;
      assert c.source.Some? ==> c.source.value.0 != i;
      PurchaseTakesNone(w.db, c, i);
    } else {
      hide Inv, CommitPurchase;
    }
  }

  lemma PurchaseTakesNone(db: Db, c: Creation, i: Id)
    requires !KeyTaken(db, c) && !SourceTaken(db, c) && CommitPurchase(db, c).Ok? && i in db.intakes
    requires c.source.Some? ==> c.source.value.0 != i
    ensures LeftAlone(db, CommitPurchase(db, c).value, i)
  {
    PurchaseWrites(db, c);
    var next := CommitPurchase(db, c).value;
    forall k | 0 <= k < |next.attachments| && next.attachments[k].intake == Some(i)
      ensures db.attachments[k].intake == Some(i)
    {
      PurchaseKeepsOrFrees(db, c, k);
    }
  }

  lemma PurchaseKeepsOrFrees(db: Db, c: Creation, k: nat)
    requires !KeyTaken(db, c) && !SourceTaken(db, c) && CommitPurchase(db, c).Ok? && k < |db.attachments|
    ensures var next := CommitPurchase(db, c).value;
      |next.attachments| == |db.attachments|
      && (next.attachments[k].intake == db.attachments[k].intake || next.attachments[k].intake == None)
  {
    if c.source.Some? {
      var lots := LotsOf(c.items, |c.items|, |db.assets|);
      assert Reassigned(db.attachments[k], c.source.value.0, |db.purchases|, lots)
          == Ok(CommitPurchase(db, c).value.attachments[k]);
    }
  }

  lemma UploadLeavesAlone(w: World, lim: Limits, u: Upload, at: UploadPhase, i: Id)
    requires i in w.locks && i in w.db.intakes
    ensures LeftAlone(w.db, UploadTurn(w, lim, u, at).db, i)
  {
  }

  lemma DeriveLeavesAlone(w: World, lim: Limits, d: Derivative, at: ChangePhase, i: Id)
    requires Inv(w, lim) && i in w.locks && i in w.db.intakes
    ensures LeftAlone(w.db, DeriveTurn(w, lim, d, at).db, i)
  {
    OwnedByOne(w.db, lim, d.attachment);
    hide Inv, DerivativeFits, IntakeFits, HasDigest, LatestRevision;
  }

  lemma ReviewLeavesAlone(w: World, lim: Limits, v: Review, at: ChangePhase, i: Id)
    requires Inv(w, lim) && i in w.locks && i in w.db.intakes
    ensures LeftAlone(w.db, ReviewTurn(w, v, at).db, i)
  {
    OwnedByOne(w.db, lim, v.attachment);
    hide Inv;
  }

  lemma DeleteLeavesAlone(w: World, lim: Limits, user: Id, attachment: Id, at: ChangePhase, i: Id)
    requires Inv(w, lim) && i in w.locks && i in w.db.intakes
    ensures LeftAlone(w.db, DeleteTurn(w, user, attachment, at).db, i)
  {
    OwnedByOne(w.db, lim, attachment);
    hide Inv;
  }

  lemma OwnedByOne(db: Db, lim: Limits, k: nat)
    requires DbInv(db, lim)
    ensures k < |db.attachments| && db.attachments[k].intake.Some? ==> db.attachments[k].purchase == None && db.attachments[k].asset == None
  {
    if k < |db.attachments| {
      assert RowOk(db, lim, db.attachments[k]);
    }
  }
}
