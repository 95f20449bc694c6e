/**
 The intake tables updated in place, statement by statement, as the services do it.  Each method
 is one transaction; when it refuses, what it had written is rolled back.
 */
module IntakeStore {
  import opened Results
  import opened IntakeRows
  import opened IntakeInvariants
  import opened IntakeEffects

  class DraftStore {
    var intakes: map<Id, Intake>
    var purchases: seq<Purchase>
    var assets: seq<Asset>
    var attachments: seq<Attachment>
    const limits: Limits

    constructor (limits: Limits)
      ensures View() == EMPTY_DB && this.limits == limits
    {
      this.limits := limits;
      intakes, purchases, assets, attachments := map[], [], [], [];
    }

    ghost function View(): Db
      reads this
    {
      Db(intakes, purchases, assets, attachments)
    }

    // ---- Drafts ------------------------------------------------------------------------

    /** The update that takes the row lock writes nothing; its count tells whether it matched. */
    method TryLockDraftIntake(intake: Id, user: Id) returns (locked: bool)
      modifies this`intakes
      ensures locked == IsDraft(old(View()), intake, user) && View() == old(View())
    {
      locked := intake in intakes && intakes[intake].user == user && intakes[intake].status == Draft;
      if locked {
        intakes := intakes[intake := intakes[intake].(version := intakes[intake].version + 0)];
        assert intakes == old(intakes);
      }
    }

    method Open(intake: Id, user: Id) returns (r: Result<(), Refusal>)
      modifies this`intakes
      ensures var spec := OpenIntake(old(View()), intake, user);
        && (r.Ok? <==> spec.Ok?) && View() == if spec.Ok? then spec.value else old(View())
    {
      if intake in intakes {
        if intakes[intake].user != user {
          return Err(NotFound);
        }
        return Ok(());
      }
      intakes := intakes[intake := Intake(user, Draft, 1)];
      r := Ok(());
    }

    method Autosave(intake: Id, user: Id, version: nat) returns (r: Result<(), Refusal>)
      modifies this`intakes
      ensures var spec := SaveDraft(old(View()), intake, user, version);
        && (r.Ok? <==> spec.Ok?) && (r.Err? ==> r.error == spec.error)
        && View() == if spec.Ok? then spec.value else old(View())
    {
      if intake in intakes {
        var row := intakes[intake];
        if row.user == user && row.status == Draft && row.version == version {
          intakes := intakes[intake := row.(version := row.version + 1)];
          return Ok(());
        }
      }
      // The update matched no row: say why.
      if intake !in intakes || intakes[intake].user != user {
        r := Err(NotFound);
      } else if intakes[intake].status != Draft {
        r := Err(NotDraft);
      } else {
        r := Err(Stale);
      }
    }

    method Cancel(intake: Id, user: Id) returns (r: Result<(), Refusal>)
      modifies this`intakes
      ensures var spec := CancelIntake(old(View()), intake, user);
        && (r.Ok? <==> spec.Ok?) && (r.Err? ==> r.error == spec.error)
        && View() == if spec.Ok? then spec.value else old(View())
    {
      if intake !in intakes || intakes[intake].user != user {
        return Err(NotFound);
      }
      if intakes[intake].status == Cancelled {
        return Ok(());
      }
      var locked := TryLockDraftIntake(intake, user);
      if !locked {
        return Err(NotDraft);
      }
      var row := intakes[intake];
      intakes := intakes[intake := row.(status := Cancelled, version := row.version + 1)];
      r := Ok(());
    }

    // ---- Storage quotas ----------------------------------------------------------------

    method IntakeUsage(intake: Id) returns (bytes: nat)
      ensures bytes == IntakeBytes(attachments, |attachments|, intake)
      ensures FilesOk(attachments) ==> bytes == FilesIn(attachments, |attachments|, intake)
    {
      if FilesOk(attachments) {
        UsageIsStored(attachments, |attachments|, intake);
      }
      var originals, derivatives := 0, 0;
      for k := 0 to |attachments|
        invariant originals + derivatives == IntakeBytes(attachments, k, intake)
      {
        if attachments[k].intake == Some(intake) {
          originals := originals + attachments[k].size;
          var _, held := DerivativeUsage(attachments[k].variants);
          derivatives := derivatives + held;
        }
      }
      bytes := originals + derivatives;
    }

    method DerivativeUsage(variants: seq<Variant>) returns (count: nat, bytes: nat)
      ensures count == DerivativeCount(variants, |variants|) && bytes == DerivativeBytes(variants, |variants|)
    {
      count, bytes := 0, 0;
      for j := 0 to |variants|
        invariant count == DerivativeCount(variants, j) && bytes == DerivativeBytes(variants, j)
      {
        if variants[j].kind != Original {
          count, bytes := count + 1, bytes + variants[j].size;
        }
      }
    }

    // ---- Attachments -------------------------------------------------------------------

    method CreateAttachment(u: Upload) returns (r: Result<nat, Refusal>)
      requires !KeyUsed(View(), u)
      modifies this
      ensures var spec := InsertUpload(old(View()), limits, u);
        && (r.Ok? <==> spec.Ok?) && (r.Err? ==> r.error == spec.error)
        && (r.Ok? ==> r.value == |old(attachments)|)
        && View() == if spec.Ok? then spec.value else old(View())
    {
      if u.target.ToIntake? {
        var locked := TryLockDraftIntake(u.target.intake, u.user);
        if !locked {
          return Err(NotDraft);
        }
        var usage := IntakeUsage(u.target.intake);
        if usage + u.size > limits.intakeBytes {
          return Err(OverQuota);
        }
      }
      attachments := attachments + [NewRow(u)];
      r := Ok(|attachments| - 1);
    }

    method NextRevision(variants: seq<Variant>, kind: VariantKind) returns (revision: nat)
      ensures revision == LatestRevision(variants, |variants|, kind) + 1
    {
      var latest := 0;
      for j := 0 to |variants|
        invariant latest == LatestRevision(variants, j, kind)
      {
        if variants[j].kind == kind && latest < variants[j].revision {
          latest := variants[j].revision;
        }
      }
      revision := latest + 1;
    }

    method UploadVariant(d: Derivative, version: nat, scope: Scope) returns (r: Result<(), Refusal>)
      modifies this
      ensures var spec := AddDerivative(old(View()), limits, d, version, scope);
        && (r.Ok? <==> spec.Ok?) && (r.Err? ==> r.error == spec.error)
        && View() == if spec.Ok? then spec.value else old(View())
    {
      if scope.OfIntake? {
        var locked := TryLockDraftIntake(scope.intake, scope.user);
        if !locked {
          return Err(NotDraft);
        }
      }
      if |attachments| <= d.attachment {
        return Err(NotFound);
      }
      var row := attachments[d.attachment];
      var matches := Matches(row, scope);
      if !matches || row.version != version {
        return Err(Stale);
      }
      var before := attachments;
      attachments := attachments[d.attachment := row.(version := row.version + 1)];
      if HasDigest(row.variants, d.kind, d.digest) {
        return Ok(());
      }
      var count, bytes := DerivativeUsage(row.variants);
      if count >= limits.revisions || bytes + d.size > limits.derivativeBytes {
        attachments := before;
        return Err(OverQuota);
      }
      if scope.OfIntake? {
        var usage := IntakeUsage(scope.intake);
        SameBytes(before, attachments, d.attachment, scope.intake);
        if usage + d.size > limits.intakeBytes {
          attachments := before;
          return Err(OverQuota);
        }
      }
      var revision := NextRevision(row.variants, d.kind);
      var variant := Variant(d.kind, revision, d.size, d.digest);
      attachments := attachments[d.attachment := attachments[d.attachment].(variants := row.variants + [variant])];
      r := Ok(());
    }

    /** Does the row match the scope's where-clause now? */
    method Matches(row: Attachment, scope: Scope) returns (b: bool)
      ensures b == InScope(View(), row, scope)
    {
      match scope
      case OfIntake(i, user) =>
        b := !row.deleted && row.intake == Some(i) && row.purchase.None? && row.asset.None?
             && i in intakes && intakes[i].user == user && intakes[i].status == Draft;
      case OfAsset(a) => b := !row.deleted && row.asset == Some(a);
      case OfPurchase(p) => b := !row.deleted && row.purchase == Some(p);
    }

    /** A field is written only where the request names it. */
    method ReviewData(row: Attachment, v: Review, read: Attachment) returns (data: Attachment)
      ensures data == ReviewedRow(row, v, read)
    {
      data := row;
      if v.draftItem.Some? {
        data := data.(draftItem := v.draftItem.value);
      }
      if v.media.Some? {
        data := data.(media := v.media.value);
      }
      var confirmed := if v.confirmed.Some? then v.confirmed.value else read.confirmed;
      data := data.(
        mode := if v.mode.Some? then v.mode.value else read.mode,
        confirmed := confirmed,
        status := if confirmed then Ready else NeedsReview,
        version := row.version + 1);
    }

    method Review(v: Review, read: Attachment, scope: Scope) returns (r: Result<(), Refusal>)
      modifies this
      ensures var spec := SaveReview(old(View()), v, read, scope);
        && (r.Ok? <==> spec.Ok?) && (r.Err? ==> r.error == spec.error)
        && View() == if spec.Ok? then spec.value else old(View())
    {
      if scope.OfIntake? {
        var locked := TryLockDraftIntake(scope.intake, scope.user);
        if !locked {
          return Err(NotDraft);
        }
      }
      if |attachments| <= v.attachment {
        return Err(NotFound);
      }
      var row := attachments[v.attachment];
      var matches := Matches(row, scope);
      if !matches || row.version != v.version {
        return Err(Stale);
      }
      var data := ReviewData(row, v, read);
      attachments := attachments[v.attachment := data];
      r := Ok(());
    }

    method SoftDelete(attachment: Id, scope: Scope) returns (r: Result<(), Refusal>)
      modifies this
      ensures var spec := MarkDeleted(old(View()), attachment, scope);
        && (r.Ok? <==> spec.Ok?) && (r.Err? ==> r.error == spec.error)
        && View() == if spec.Ok? then spec.value else old(View())
    {
      if scope.OfIntake? {
        var locked := TryLockDraftIntake(scope.intake, scope.user);
        if !locked {
          return Err(NotDraft);
        }
      }
      if |attachments| <= attachment {
        return Err(NotFound);
      }
      var row := attachments[attachment];
      var matches := Matches(row, scope);
      if !matches {
        return Err(Immutable);
      }
      attachments := attachments[attachment := row.(deleted := true, version := row.version + 1)];
      r := Ok(());
    }

    // ---- Purchases ---------------------------------------------------------------------

    /** Where one attachment goes. */
    method MoveAttachment(attachment: Attachment, intake: Id, purchase: Id, lots: map<Id, nat>) returns (r: Result<Attachment, Refusal>)
      ensures r == Reassigned(attachment, intake, purchase, lots)
    {
      if !Waits(attachment, intake) {
        return Ok(attachment);
      }
      if attachment.status != Ready || (attachment.mode != Untouched && !attachment.confirmed) {
        return Err(NotConfirmed);
      }
      if attachment.media == Document {
        return Ok(attachment.(intake := None, purchase := Some(purchase), asset := None));
      }
      if attachment.draftItem.None? {
        return Ok(attachment.(intake := None, purchase := Some(purchase), asset := None));
      }
      if attachment.draftItem.value !in lots {
        return Err(UnknownItem);
      }
      r := Ok(attachment.(intake := None, purchase := None, asset := Some(lots[attachment.draftItem.value])));
    }

    /** Moves the waiting attachments one after the other; a refusal leaves the rest unmoved. */
    method ReassignIntakeAttachments(intake: Id, purchase: Id, lots: map<Id, nat>) returns (refused: Option<Refusal>)
      modifies this`attachments
      ensures var spec := ReassignedRows(old(attachments), |old(attachments)|, intake, purchase, lots);
        && (refused.None? <==> spec.Ok?)
        && (if spec.Ok? then attachments == spec.value else refused.value == spec.error)
    {
      hide Reassigned;
      ghost var rows := attachments;
      for k := 0 to |attachments|
        invariant |attachments| == |rows| && attachments[k..] == rows[k..]
        invariant ReassignedRows(rows, k, intake, purchase, lots) == Ok(attachments[..k])
      {
        var moved := MoveAttachment(attachments[k], intake, purchase, lots);
        if moved.Err? {
          StaysRefused(rows, k + 1, |rows|, intake, purchase, lots);
          return Some(moved.error);
        }
        attachments := attachments[k := moved.value];
        assert attachments[..k + 1] == attachments[..k] + [attachments[k]];
      }
      assert attachments[..|rows|] == attachments;
      refused := None;
    }

    method CreateAssets(items: seq<Option<Id>>, purchase: Id) returns (lots: map<Id, nat>)
      modifies this`assets
      ensures assets == old(assets) + NewAssets(|items|, purchase)
      ensures lots == LotsOf(items, |items|, |old(assets)|)
    {
      lots := map[];
      for k := 0 to |items|
        invariant assets == old(assets) + NewAssets(k, purchase)
        invariant lots == LotsOf(items, k, |old(assets)|)
      {
        assert NewAssets(k + 1, purchase) == NewAssets(k, purchase) + [Asset(Some(purchase), true)];
        assets := assets + [Asset(Some(purchase), true)];
        if items[k].Some? {
          lots := lots[items[k].value := |assets| - 1];
        }
      }
    }

    /** The writes of one purchase, none of whose unique keys is taken. */
    method CreatePurchase(c: Creation) returns (r: Result<nat, Refusal>)
      requires !KeyTaken(View(), c) && !SourceTaken(View(), c)
      modifies this
      ensures var spec := CommitPurchase(old(View()), c);
        && (r.Ok? <==> spec.Ok?) && (r.Err? ==> r.error == spec.error)
        && (r.Ok? ==> r.value == |old(purchases)|)
        && View() == if spec.Ok? then spec.value else old(View())
    {
      var (purchasesBefore, assetsBefore, attachmentsBefore) := (purchases, assets, attachments);
      var purchase := |purchases|;
      purchases := purchases + [NewPurchase(c)];
      if !DistinctItems(c.items) {
        purchases := purchasesBefore;
        return Err(DuplicateItem);
      }
      var lots := CreateAssets(c.items, purchase);
      if c.source.Some? {
        var intake := c.source.value.0;
        if intake !in intakes {
          purchases, assets := purchasesBefore, assetsBefore;
          return Err(NotFound);
        }
        var refused := ReassignIntakeAttachments(intake, purchase, lots);
        if refused.Some? {
          purchases, assets, attachments := purchasesBefore, assetsBefore, attachmentsBefore;
          return Err(refused.value);
        }
        var row := intakes[intake];
        intakes := intakes[intake := row.(status := Completed, version := row.version + 1)];
      }
      r := Ok(purchase);
    }
  }

  /** One refusal is enough, and the first one is the answer. */
  lemma {:induction false} StaysRefused(rows: seq<Attachment>, n: nat, m: nat, intake: Id, purchase: Id, lots: map<Id, nat>)
    requires n <= m <= |rows| && ReassignedRows(rows, n, intake, purchase, lots).Err?
    ensures ReassignedRows(rows, m, intake, purchase, lots) == ReassignedRows(rows, n, intake, purchase, lots)
  {
    if n < m {
      StaysRefused(rows, n, m - 1, intake, purchase, lots);
    }
  }

  lemma {:induction false} SameBytesUpTo(rows: seq<Attachment>, next: seq<Attachment>, n: nat, intake: Id)
    requires |rows| == |next| && n <= |rows|
    requires forall k | 0 <= k < n :: rows[k].intake == next[k].intake && RetainedBytes(rows[k]) == RetainedBytes(next[k])
    ensures IntakeBytes(rows, n, intake) == IntakeBytes(next, n, intake)
  {
    if 0 < n {
      SameBytesUpTo(rows, next, n - 1, intake);
    }
  }

  /** A new version number changes no usage. */
  lemma SameBytes(rows: seq<Attachment>, next: seq<Attachment>, k: nat, intake: Id)
    requires k < |rows| && next == rows[k := rows[k].(version := rows[k].version + 1)]
    ensures IntakeBytes(rows, |rows|, intake) == IntakeBytes(next, |next|, intake)
  {
    SameBytesUpTo(rows, next, |rows|, intake);
  }
}
