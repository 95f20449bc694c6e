/** What the intake protocol guarantees over every interleaving and every retry. */
module IntakeTheorems {
  import opened Results
  import opened IntakeRows
  import opened IntakeRuns
  import opened IntakeInvariants
  import opened IntakeRowProofs
  import opened IntakeRunProofs

  lemma EmptyInv(lim: Limits)
    ensures Inv(EMPTY_WORLD, lim)
  {
    forall i
      ensures IntakeOk(EMPTY_DB, i) && QuotaAt([], lim, i)
    {
      assert FindSource([], 0, i).None?;
    }
  }

  /** The state after any run from the empty tables. */
  function Reached(lim: Limits, steps: seq<Step>): World {
    Run(EMPTY_WORLD, lim, steps)
  }

  lemma ReachedInv(lim: Limits, steps: seq<Step>)
    ensures Inv(Reached(lim, steps), lim)
  {
    EmptyInv(lim);
    RunKeeps(EMPTY_WORLD, lim, steps);
  }

  // ---- Intakes and purchases -----------------------------------------------------------

  ghost predicate NamedOnce(ps: seq<Purchase>, intake: Id) {
    exists k | 0 <= k < |ps| :: ps[k].source == Some(intake) && OnlyOne(ps, intake, k)
  }

  ghost predicate OnlyOne(ps: seq<Purchase>, intake: Id, k: nat) {
    forall j | 0 <= j < |ps| && ps[j].source == Some(intake) :: j == k
  }

  /** An intake is completed exactly when one purchase, and only one, names it; a purchase names no
      other intake. */
  lemma CompletedIffOnePurchase(lim: Limits, steps: seq<Step>, intake: Id)
    ensures var db := Reached(lim, steps).db;
      && (intake in db.intakes && db.intakes[intake].status == Completed <==> NamedOnce(db.purchases, intake))
      && (NamedOnce(db.purchases, intake) <==> exists k | 0 <= k < |db.purchases| :: db.purchases[k].source == Some(intake))
  {
    ReachedInv(lim, steps);
    var db := Reached(lim, steps).db;
    assert IntakeOk(db, intake);
    forall j, k | 0 <= j < k < |db.purchases| && db.purchases[j].source == Some(intake)
      ensures db.purchases[k].source != Some(intake)
    {
      assert OtherPurchase(db.purchases, j, k);
    }
    var found := FindSource(db.purchases, |db.purchases|, intake);
    if found.Some? {
      assert OnlyOne(db.purchases, intake, found.value);
    }
  }

  /** Exactly one owner, which exists; nothing live stays on a completed intake. */
  lemma AttachmentsOwned(lim: Limits, steps: seq<Step>, k: nat)
    requires k < |Reached(lim, steps).db.attachments|
    ensures var db := Reached(lim, steps).db; var a := db.attachments[k];
      && OneOwner(a) && OwnerExists(db, a)
      && (a.intake.Some? && db.intakes[a.intake.value].status == Completed ==> a.deleted)
  {
    ReachedInv(lim, steps);
    assert RowOk(Reached(lim, steps).db, lim, Reached(lim, steps).db.attachments[k]);
  }

  /** Whatever is on the intake now was on it before. */
  ghost predicate NoneJoined(db: Db, next: Db, intake: Id) {
    forall k | 0 <= k < |next.attachments| && next.attachments[k].intake == Some(intake) ::
      k < |db.attachments| && db.attachments[k].intake == Some(intake)
  }

  predicate IsCancelled(db: Db, intake: Id) {
    intake in db.intakes && db.intakes[intake].status == Cancelled
  }

  lemma EvolvesGainsNothing(db: Db, next: Db, intake: Id)
    requires Evolves(db, next) && IsCancelled(db, intake)
    ensures IsCancelled(next, intake) && NoneJoined(db, next, intake)
  {
    assert IntakeEvolves(db, next, intake);
    forall k | 0 <= k < |next.attachments| && next.attachments[k].intake == Some(intake)
      ensures k < |db.attachments| && db.attachments[k].intake == Some(intake)
    {
      assert k < |db.attachments| ==> RowEvolves(db.attachments[k], next.attachments[k]);
      assert |db.attachments| <= k ==> JoinsDraft(db, next.attachments[k]);
    }
  }

  lemma StepEvolves(w: World, lim: Limits, step: Step)
    requires Inv(w, lim)
    ensures Evolves(w.db, Next(w, lim, step).db)
  {
    EvolvesSelf(w.db);
    match step
    case Advance(id, onSource) =>
      if id in w.calls {
        TurnsOk(w, lim, id, onSource);
      }
    case Open(intake, user) =>
      if OpenIntake(w.db, intake, user).Ok? {
        OpenKeeps(w.db, lim, intake, user);
      }
    case Autosave(intake, user, version) =>
      if SaveDraft(w.db, intake, user, version).Ok? {
        SaveKeeps(w.db, lim, intake, user, version);
      }
    case Cancel(intake, user) =>
      if CancelIntake(w.db, intake, user).Ok? {
        CancelKeeps(w.db, lim, intake, user);
      }
    case ReceiveGift => AssetsKeep(w.db, Next(w, lim, step).db, lim, Next(w, lim, step).db.assets);
    case LeaveHeld(asset) => AssetsKeep(w.db, Next(w, lim, step).db, lim, Next(w, lim, step).db.assets);
    case _ =>
  }

  /** From any reachable state on: a cancelled intake stays cancelled and never gains a purchase or
      an attachment. */
  lemma {:induction false} CancelledGainsNothing(w: World, lim: Limits, steps: seq<Step>, intake: Id)
    requires Inv(w, lim) && IsCancelled(w.db, intake)
    ensures var db := Run(w, lim, steps).db;
      IsCancelled(db, intake) && !Named(db, intake) && NoneJoined(w.db, db, intake)
    decreases |steps|
  {
    if steps == [] {
      assert IntakeOk(w.db, intake);
    } else {
      var v := Next(w, lim, steps[0]);
      StepEvolves(w, lim, steps[0]);
      EvolvesGainsNothing(w.db, v.db, intake);
      NextKeeps(w, lim, steps[0]);
      CancelledGainsNothing(v, lim, steps[1..], intake);
    }
  }

  /** Because the intake row is locked and still a draft, the inserts never meet the unique key on
      the intake: that branch of the recovery is never taken. */
  lemma LockedIntakeIsUnnamed(lim: Limits, steps: seq<Step>, id: Id)
    ensures var w := Reached(lim, steps);
      id in w.calls && w.calls[id].Buying? && w.calls[id].buyAt == Claimed ==> !SourceTaken(w.db, w.calls[id].creation)
  {
    ReachedInv(lim, steps);
    var w := Reached(lim, steps);
    if id in w.calls && w.calls[id].Buying? && w.calls[id].buyAt == Claimed && w.calls[id].creation.source.Some? {
      assert CallOk(w.db, w.locks, id, w.calls[id]);
      assert IntakeOk(w.db, w.calls[id].creation.source.value.0);
    }
  }

  // ---- Finalizing ----------------------------------------------------------------------

  lemma {:induction false} LotsComplete(items: seq<Option<Id>>, n: nat, base: nat, j: nat)
    requires DistinctItems(items) && j < n <= |items| && items[j].Some?
    ensures items[j].value in LotsOf(items, n, base) && LotsOf(items, n, base)[items[j].value] == base + j
  {
    if j < n - 1 {
      LotsComplete(items, n - 1, base, j);
    }
  }

  /** Finalizing moves every live attachment of the intake: a photo of a draft item to the asset
      that item became, everything else to the purchase; all of them had been confirmed. */
  lemma FinalizeMovesEverything(db: Db, c: Creation, k: nat)
    requires !KeyTaken(db, c) && !SourceTaken(db, c) && c.source.Some? && CommitPurchase(db, c).Ok?
    requires k < |db.attachments| && Waits(db.attachments[k], c.source.value.0)
    ensures var a, b := db.attachments[k], CommitPurchase(db, c).value.attachments[k];
      && a.status == Ready && (a.mode == Untouched || a.confirmed)
      && b.intake == None && b.variants == a.variants && b.version == a.version
      && (if a.media == AssetPhoto && a.draftItem.Some? then
            && b.purchase == None
            && exists j | 0 <= j < |c.items| :: c.items[j] == a.draftItem && b.asset == Some(|db.assets| + j)
          else b.purchase == Some(|db.purchases|) && b.asset == None)
  {
    var i := c.source.value.0;
    var lots := LotsOf(c.items, |c.items|, |db.assets|);
    var a, b := db.attachments[k], CommitPurchase(db, c).value.attachments[k];
    assert Reassigned(a, i, |db.purchases|, lots) == Result.Ok(b);
    if a.media == AssetPhoto && a.draftItem.Some? {
      var j := lots[a.draftItem.value] - |db.assets|;
      assert c.items[j] == a.draftItem;
    }
  }

  lemma {:induction false} ReassignFails(rows: seq<Attachment>, n: nat, k: nat, intake: Id, purchase: Id, lots: map<Id, nat>)
    requires k < n <= |rows| && Reassigned(rows[k], intake, purchase, lots).Err?
    ensures ReassignedRows(rows, n, intake, purchase, lots).Err?
  {
    if k < n - 1 {
      ReassignFails(rows, n - 1, k, intake, purchase, lots);
    }
  }

  lemma {:induction false} ReassignSucceeds(rows: seq<Attachment>, n: nat, intake: Id, purchase: Id, lots: map<Id, nat>)
    requires n <= |rows| && forall k | 0 <= k < n :: Reassigned(rows[k], intake, purchase, lots).Ok?
    ensures ReassignedRows(rows, n, intake, purchase, lots).Ok?
  {
    if 0 < n {
      ReassignSucceeds(rows, n - 1, intake, purchase, lots);
      assert Reassigned(rows[n - 1], intake, purchase, lots).Ok?;
    }
  }

  /** What the user must have done before an attachment can be finalized. */
  predicate Finalizable(a: Attachment, c: Creation) {
    && a.status == Ready && (a.mode == Untouched || a.confirmed)
    && (a.media == AssetPhoto && a.draftItem.Some? ==> a.draftItem in c.items)
  }

  ghost predicate AllFinalizable(db: Db, c: Creation, intake: Id) {
    forall k | 0 <= k < |db.attachments| && Waits(db.attachments[k], intake) :: Finalizable(db.attachments[k], c)
  }

  /** The rows let a locked draft be finalized exactly when its items are distinct and every live
      attachment is confirmed and belongs to one of them. */
  lemma FinalizeSucceedsIff(db: Db, c: Creation)
    requires !KeyTaken(db, c) && !SourceTaken(db, c) && c.source.Some? && c.source.value.0 in db.intakes
    ensures CommitPurchase(db, c).Ok? <==> DistinctItems(c.items) && AllFinalizable(db, c, c.source.value.0)
  {
    var i := c.source.value.0;
    var lots := LotsOf(c.items, |c.items|, |db.assets|);
    if DistinctItems(c.items) {
      forall k | 0 <= k < |db.attachments| && Waits(db.attachments[k], i)
        ensures Finalizable(db.attachments[k], c) <==> Reassigned(db.attachments[k], i, |db.purchases|, lots).Ok?
      {
        ReassignableIff(db.attachments[k], c, i, |db.purchases|, |db.assets|);
      }
      if AllFinalizable(db, c, i) {
        forall k | 0 <= k < |db.attachments|
          ensures Reassigned(db.attachments[k], i, |db.purchases|, lots).Ok?
        {
        }
        ReassignSucceeds(db.attachments, |db.attachments|, i, |db.purchases|, lots);
      } else {
        var k :| 0 <= k < |db.attachments| && Waits(db.attachments[k], i) && !Finalizable(db.attachments[k], c);
        ReassignFails(db.attachments, |db.attachments|, k, i, |db.purchases|, lots);
      }
    }
  }

  lemma ReassignableIff(a: Attachment, c: Creation, intake: Id, purchase: Id, base: nat)
    requires DistinctItems(c.items) && Waits(a, intake)
    ensures Finalizable(a, c) <==> Reassigned(a, intake, purchase, LotsOf(c.items, |c.items|, base)).Ok?
  {
    if a.draftItem.Some? && a.draftItem in c.items {
      var j :| 0 <= j < |c.items| && c.items[j] == a.draftItem;
      LotsComplete(c.items, |c.items|, base, j);
    }
  }

  // ---- Storage and derivatives ---------------------------------------------------------

  /** What an intake retains, deleted attachments and all derivatives included, stays within the
      limit, and so do the derivatives of every attachment. */
  lemma QuotasHold(lim: Limits, steps: seq<Step>, intake: Id, k: nat)
    ensures var rows := Reached(lim, steps).db.attachments;
      && IntakeBytes(rows, |rows|, intake) <= lim.intakeBytes
      && (k < |rows| ==>
            && DerivativeCount(rows[k].variants, |rows[k].variants|) <= lim.revisions
            && DerivativeBytes(rows[k].variants, |rows[k].variants|) <= lim.derivativeBytes)
  {
    ReachedInv(lim, steps);
    var rows := Reached(lim, steps).db.attachments;
    assert QuotaAt(rows, lim, intake);
    if k < |rows| {
      assert RowOk(Reached(lim, steps).db, lim, rows[k]);
    }
  }

  predicate IsRevision(vs: seq<Variant>, kind: VariantKind, revision: nat, j: nat) {
    j < |vs| && vs[j].kind == kind && vs[j].revision == revision
  }

  lemma {:induction false} CountMonotone(vs: seq<Variant>, m: nat, n: nat, kind: VariantKind)
    requires m <= n <= |vs|
    ensures CountKind(vs, m, kind) <= CountKind(vs, n, kind)
  {
    if m < n {
      CountMonotone(vs, m, n - 1, kind);
    }
  }

  /** The variant that carries a given revision. */
  lemma {:induction false} RevisionFound(vs: seq<Variant>, n: nat, kind: VariantKind, revision: nat) returns (j: nat)
    requires n <= |vs| && (forall i | 0 <= i < |vs| :: NumberedAt(vs, i)) && 1 <= revision <= CountKind(vs, n, kind)
    ensures j < n && IsRevision(vs, kind, revision, j)
  {
    assert NumberedAt(vs, n - 1);
    if vs[n - 1].kind == kind && revision == CountKind(vs, n, kind) {
      j := n - 1;
    } else {
      j := RevisionFound(vs, n - 1, kind, revision);
    }
  }

  lemma SameRevisionSameVariant(vs: seq<Variant>, kind: VariantKind, revision: nat, i: nat, j: nat)
    requires forall k | 0 <= k < |vs| :: NumberedAt(vs, k)
    requires IsRevision(vs, kind, revision, i) && IsRevision(vs, kind, revision, j)
    ensures i == j
  {
    assert NumberedAt(vs, i) && NumberedAt(vs, j);
    if i < j {
      CountMonotone(vs, i + 1, j, kind);
    } else if j < i {
      CountMonotone(vs, j + 1, i, kind);
    }
  }

  ghost predicate RevisionsComplete(vs: seq<Variant>, kind: VariantKind) {
    && (forall r | 1 <= r <= CountKind(vs, |vs|, kind) :: HasRevision(vs, kind, r))
    && (forall j | 0 <= j < |vs| && vs[j].kind == kind :: 1 <= vs[j].revision <= CountKind(vs, |vs|, kind))
    && (forall i, j | 0 <= i < j < |vs| && vs[i].kind == kind && vs[j].kind == kind ::
          vs[i].revision != vs[j].revision && vs[i].digest != vs[j].digest)
  }

  predicate HasRevision(vs: seq<Variant>, kind: VariantKind, revision: nat) {
    exists j | 0 <= j < |vs| :: IsRevision(vs, kind, revision, j)
  }

  lemma NumberedComplete(vs: seq<Variant>, kind: VariantKind)
    requires Numbered(vs)
    ensures RevisionsComplete(vs, kind)
  {
    forall r | 1 <= r <= CountKind(vs, |vs|, kind)
      ensures HasRevision(vs, kind, r)
    {
      var j := RevisionFound(vs, |vs|, kind, r);
    }
    forall j | 0 <= j < |vs| && vs[j].kind == kind
      ensures 1 <= vs[j].revision <= CountKind(vs, |vs|, kind)
    {
      assert NumberedAt(vs, j);
      CountMonotone(vs, j + 1, |vs|, kind);
    }
    forall i, j | 0 <= i < j < |vs| && vs[i].kind == kind && vs[j].kind == kind
      ensures vs[i].revision != vs[j].revision && vs[i].digest != vs[j].digest
    {
      assert Apart(vs, i, j);
      if vs[i].revision == vs[j].revision {
        SameRevisionSameVariant(vs, kind, vs[i].revision, i, j);
      }
    }
  }

  /** Per attachment and kind the revisions are exactly 1..k, with k different contents. */
  lemma RevisionsAreOneToK(lim: Limits, steps: seq<Step>, k: nat, kind: VariantKind)
    requires k < |Reached(lim, steps).db.attachments|
    ensures RevisionsComplete(Reached(lim, steps).db.attachments[k].variants, kind)
  {
    ReachedInv(lim, steps);
    assert RowOk(Reached(lim, steps).db, lim, Reached(lim, steps).db.attachments[k]);
    NumberedComplete(Reached(lim, steps).db.attachments[k].variants, kind);
  }

  /** A ready attachment is left as it is or already has a derivative its mode needs; the mode suits
      the media; a photo is never a PDF.  The review looked for the derivative long before. */
  lemma ReadyHasItsDerivative(lim: Limits, steps: seq<Step>, k: nat)
    requires k < |Reached(lim, steps).db.attachments|
    ensures var a := Reached(lim, steps).db.attachments[k];
      && FitsMode(a.media, a.mode) && (a.media == AssetPhoto ==> !a.pdf)
      && (a.status == Ready ==> a.confirmed && (a.mode == Untouched || HasDerivativeFor(a.variants, a.mode)))
  {
    ReachedInv(lim, steps);
    assert RowOk(Reached(lim, steps).db, lim, Reached(lim, steps).db.attachments[k]);
  }

  // ---- Retries -------------------------------------------------------------------------

  predicate BoughtAs(w: World, id: Id, purchase: nat) {
    id in w.calls && w.calls[id].Buying? && w.calls[id].buyAt == Bought(Ok(purchase))
  }

  predicate StoredAs(w: World, id: Id, attachment: nat) {
    id in w.calls && w.calls[id].Uploading? && w.calls[id].uploadAt == Stored(Ok(attachment))
  }

  lemma PurchasesDiffer(ps: seq<Purchase>, j: nat, k: nat)
    requires PurchaseKeysUnique(ps) && j < |ps| && k < |ps|
    ensures j != k ==> OtherPurchase(ps, j, k) || OtherPurchase(ps, k, j)
  {
    assert j < k ==> OtherPurchase(ps, j, k);
    assert k < j ==> OtherPurchase(ps, k, j);
  }

  lemma UploadsDiffer(rows: seq<Attachment>, j: nat, k: nat)
    requires UploadKeysUnique(rows) && j < |rows| && k < |rows|
    ensures j != k ==> OtherUpload(rows, j, k)
  {
    assert j < k ==> OtherUpload(rows, j, k);
    assert k < j ==> OtherUpload(rows, k, j);
  }

  /** All successful finalizations of an intake return the same purchase, whatever their keys; it
      is the one purchase made from that intake. */
  lemma FinalizationsAgree(lim: Limits, steps: seq<Step>, one: Id, two: Id, p: nat, q: nat)
    requires var w := Reached(lim, steps); BoughtAs(w, one, p) && BoughtAs(w, two, q)
    requires var w := Reached(lim, steps);
      && w.calls[one].creation.source.Some? && w.calls[two].creation.source.Some?
      && w.calls[one].creation.source.value.0 == w.calls[two].creation.source.value.0
    ensures p == q
    ensures var w := Reached(lim, steps);
      p < |w.db.purchases| && w.db.purchases[p].source == Some(w.calls[one].creation.source.value.0)
  {
    ReachedInv(lim, steps);
    var w := Reached(lim, steps);
    assert CallOk(w.db, w.locks, one, w.calls[one]) && CallOk(w.db, w.locks, two, w.calls[two]);
    PurchasesDiffer(w.db.purchases, p, q);
  }

  /** All successful plain creations with a key return the same purchase, and all of them carried
      the same request. */
  lemma CreationsAgree(lim: Limits, steps: seq<Step>, one: Id, two: Id, p: nat, q: nat)
    requires var w := Reached(lim, steps); BoughtAs(w, one, p) && BoughtAs(w, two, q)
    requires var w := Reached(lim, steps);
      && w.calls[one].creation.source.None? && w.calls[two].creation.source.None?
      && w.calls[one].creation.key == w.calls[two].creation.key
    ensures p == q && Reached(lim, steps).calls[one].creation.request == Reached(lim, steps).calls[two].creation.request
  {
    ReachedInv(lim, steps);
    var w := Reached(lim, steps);
    assert CallOk(w.db, w.locks, one, w.calls[one]) && CallOk(w.db, w.locks, two, w.calls[two]);
    PurchasesDiffer(w.db.purchases, p, q);
  }

  /** All successful uploads with a key return the same attachment and carried the same request. */
  lemma UploadsAgree(lim: Limits, steps: seq<Step>, one: Id, two: Id, a: nat, b: nat)
    requires var w := Reached(lim, steps); StoredAs(w, one, a) && StoredAs(w, two, b)
    requires Reached(lim, steps).calls[one].upload.key == Reached(lim, steps).calls[two].upload.key
    ensures a == b && Reached(lim, steps).calls[one].upload.request == Reached(lim, steps).calls[two].upload.request
  {
    ReachedInv(lim, steps);
    var w := Reached(lim, steps);
    assert CallOk(w.db, w.locks, one, w.calls[one]) && CallOk(w.db, w.locks, two, w.calls[two]);
    UploadsDiffer(w.db.attachments, a, b);
  }
}
