/**
 What the calls on a draft achieve when nothing stands in their way, and what a repeated call answers.
 */
module IntakeProgress {
  import opened Results
  import opened IntakeRows
  import opened IntakeRuns
  import opened IntakeInvariants
  import opened IntakeTheorems
  import opened IntakeEffects

  /** The same call advanced n times in a row. */
  function Advanced(w: World, lim: Limits, id: Id, n: nat): World {
    if n == 0 then w else Next(Advanced(w, lim, id, n - 1), lim, Advance(id, false))
  }

  lemma OneMore(w: World, lim: Limits, id: Id, n: nat)
    requires id in Advanced(w, lim, id, n).calls
    ensures var v := Advanced(w, lim, id, n); var t := TurnOf(v, lim, id, v.calls[id], false);
      Advanced(w, lim, id, n + 1) == World(t.db, t.locks, v.calls[id := t.call])
  {
    hide TurnOf;
  }

  // ---- Finalizing ----------------------------------------------------------------------

  /** A draft whose attachments are all confirmed and placed, and that nobody else is finalizing, becomes a
      purchase in one go: a look at the intake, two lookups, the lock and the inserts. */
  lemma HonestFinalization(w: World, lim: Limits, id: Id, c: Creation, i: Id, user: Id)
    requires Inv(w, lim) && c.source == Some((i, user)) && id in w.calls && w.calls[id] == Buying(c, Opening)
    requires i in w.db.intakes && w.db.intakes[i].user == user && w.db.intakes[i].status == Draft && i !in w.locks
    requires !KeyTaken(w.db, c) && DistinctItems(c.items) && AllFinalizable(w.db, c, i)
    ensures var v := Advanced(w, lim, id, 5);
      && v.calls == w.calls[id := Buying(c, Bought(Ok(|w.db.purchases|)))]
      && |v.db.purchases| == |w.db.purchases| + 1 && v.db.purchases[|w.db.purchases|] == Purchase(c.key, c.request, Some(i))
      && i in v.db.intakes && v.db.intakes[i].status == Completed && i !in v.locks
  {
    assert IntakeOk(w.db, i);
    FinalizeSucceedsIff(w.db, c);
    PurchaseWrites(w.db, c);
    LookupsLeadToInserts(w, lim, id, c, i, user);
    OneMore(w, lim, id, 4);
    hide CommitPurchase, Inv;
  }

  lemma LookupsLeadToInserts(w: World, lim: Limits, id: Id, c: Creation, i: Id, user: Id)
    requires c.source == Some((i, user)) && id in w.calls && w.calls[id] == Buying(c, Opening)
    requires IsDraft(w.db, i, user) && i !in w.locks && !KeyTaken(w.db, c) && !SourceTaken(w.db, c)
    ensures Advanced(w, lim, id, 4) == World(w.db, w.locks[i := id], w.calls[id := Buying(c, Claimed)])
  {
    hide CommitPurchase;
    assert Advanced(w, lim, id, 0) == w;
    OneMore(w, lim, id, 0);
    assert Advanced(w, lim, id, 1) == World(w.db, w.locks, w.calls[id := Buying(c, Asked)]);
    OneMore(w, lim, id, 1);
    assert Advanced(w, lim, id, 2) == World(w.db, w.locks, w.calls[id := Buying(c, Fresh)]);
    OneMore(w, lim, id, 2);
    assert Advanced(w, lim, id, 3) == World(w.db, w.locks[i := id], w.calls[id := Buying(c, Inside)]);
    OneMore(w, lim, id, 3);
  }

  /** Finalizing a completed intake again answers with its purchase at once, and writes nothing. */
  lemma FinalizedAnswersAgain(w: World, lim: Limits, id: Id, c: Creation, i: Id, user: Id)
    requires Inv(w, lim) && c.source == Some((i, user)) && id in w.calls && w.calls[id] == Buying(c, Opening)
    requires i in w.db.intakes && w.db.intakes[i].user == user && w.db.intakes[i].status == Completed
    ensures exists p | 0 <= p < |w.db.purchases| ::
      w.db.purchases[p].source == Some(i) && TurnOf(w, lim, id, w.calls[id], false).call == Buying(c, Bought(Ok(p)))
    ensures TurnOf(w, lim, id, w.calls[id], false).db == w.db
  {
    assert IntakeOk(w.db, i);
  }

  /** A plain creation with a key that is taken answers with the purchase of that key, to the same request only. */
  lemma CreationAnswersAgain(w: World, lim: Limits, id: Id, c: Creation, p: nat)
    requires Inv(w, lim) && c.source == None && id in w.calls && w.calls[id] == Buying(c, Asked)
    requires p < |w.db.purchases| && w.db.purchases[p].key == c.key
    ensures TurnOf(w, lim, id, w.calls[id], false).db == w.db
    ensures TurnOf(w, lim, id, w.calls[id], false).call
      == Buying(c, Bought(if w.db.purchases[p].request == c.request then Ok(p) else Err(OtherRequest)))
  {
    var found := FindKey(w.db.purchases, |w.db.purchases|, c.key);
    assert found.Some?;
    PurchasesDiffer(w.db.purchases, found.value, p);
  }

  // ---- Uploads -------------------------------------------------------------------------

  /** An upload that may go on, with an unused key, to a draft nobody is finalizing or to an asset, is stored as
      the newest attachment. */
  lemma HonestUpload(w: World, lim: Limits, id: Id, u: Upload)
    requires id in w.calls && w.calls[id] == Uploading(u, Reading)
    requires OwnerRefuses(w.db, lim, u) == None && !KeyUsed(w.db, u)
    requires u.target.ToIntake? ==> u.target.intake !in w.locks && IntakeFits(lim, w.db.attachments, u.target.intake, u.size)
    ensures var v := Advanced(w, lim, id, 4);
      && v.calls == w.calls[id := Uploading(u, Stored(Ok(|w.db.attachments|)))]
      && v.db == w.db.(attachments := w.db.attachments + [NewRow(u)])
  {
    hide IntakeFits, LiveCount, NewRow, KeyUsed;
    assert Advanced(w, lim, id, 0) == w;
    OneMore(w, lim, id, 0);
    assert Advanced(w, lim, id, 1) == World(w.db, w.locks, w.calls[id := Uploading(u, Unanswered)]);
    OneMore(w, lim, id, 1);
    assert Advanced(w, lim, id, 2) == World(w.db, w.locks, w.calls[id := Uploading(u, Weighing)]) by {
      UnusedKey(w.db, u);
    }
    OneMore(w, lim, id, 2);
    assert Advanced(w, lim, id, 3) == World(w.db, w.locks, w.calls[id := Uploading(u, Storing)]);
    OneMore(w, lim, id, 3);
  }

  lemma UnusedKey(db: Db, u: Upload)
    requires !KeyUsed(db, u)
    ensures FindUpload(db.attachments, |db.attachments|, u.key) == None
  {
  }

  /** Repeated, it answers with the attachment of its key, to the same request only. */
  lemma UploadAnswersAgain(w: World, lim: Limits, id: Id, u: Upload, k: nat)
    requires Inv(w, lim) && id in w.calls && w.calls[id] == Uploading(u, Unanswered)
    requires k < |w.db.attachments| && w.db.attachments[k].key == u.key && SameOwner(w.db.attachments[k], u)
    ensures TurnOf(w, lim, id, w.calls[id], false).db == w.db
    ensures TurnOf(w, lim, id, w.calls[id], false).call
      == Uploading(u, Stored(if w.db.attachments[k].request == u.request then Ok(k) else Err(OtherRequest)))
  {
    var found := FindUpload(w.db.attachments, |w.db.attachments|, u.key);
    assert found.Some?;
    UploadsDiffer(w.db.attachments, found.value, k);
  }

  // ---- Changes -------------------------------------------------------------------------

  /** What the uploader of an attachment may change it as: part of the own draft, of an asset or of a purchase. */
  predicate Changeable(db: Db, k: nat, user: Id, scope: Scope) {
    && k < |db.attachments|
    && var a := db.attachments[k];
    && a.uploader == user && !a.deleted
    && match scope
       case OfIntake(i, u) => u == user && a.intake == Some(i) && i in db.intakes && db.intakes[i] == Intake(user, Draft, db.intakes[i].version)
       case OfAsset(s) => a.asset == Some(s)
       case OfPurchase(p) => a.purchase == Some(p)
  }

  /** The row that is looked at is found, for its uploader. */
  lemma LookFinds(db: Db, lim: Limits, k: nat, user: Id, scope: Scope)
    requires DbInv(db, lim) && Changeable(db, k, user, scope)
    ensures Look(db, user, k) == Seen(db.attachments[k], scope) && LookToDelete(db, user, k) == Seen(db.attachments[k], scope)
  {
    assert RowOk(db, lim, db.attachments[k]);
  }

  /** A deletion by the uploader, with the draft not being finalized, deletes. */
  lemma HonestDeletion(w: World, lim: Limits, id: Id, user: Id, k: nat, scope: Scope)
    requires Inv(w, lim) && id in w.calls && w.calls[id] == Deleting(user, k, Looking)
    requires Changeable(w.db, k, user, scope) && (scope.OfIntake? ==> scope.intake !in w.locks)
    ensures var v := Advanced(w, lim, id, 3);
      && v.calls == w.calls[id := Deleting(user, k, Changed(Ok(k)))]
      && k < |v.db.attachments| && v.db.attachments[k].deleted
  {
    LookFinds(w.db, lim, k, user, scope);
    hide Inv, Look, LookToDelete;
    assert Advanced(w, lim, id, 0) == w;
    OneMore(w, lim, id, 0);
    assert Advanced(w, lim, id, 1) == World(w.db, w.locks, w.calls[id := Deleting(user, k, Seen(w.db.attachments[k], scope))]);
    OneMore(w, lim, id, 1);
    assert Advanced(w, lim, id, 2) == World(w.db, w.locks, w.calls[id := Deleting(user, k, Vetted(w.db.attachments[k], scope))]);
    OneMore(w, lim, id, 2);
  }

  /** So does a review that passes its checks, */
  lemma HonestReview(w: World, lim: Limits, id: Id, r: Review, scope: Scope)
    requires Inv(w, lim) && id in w.calls && w.calls[id] == Reviewing(r, Looking)
    requires Changeable(w.db, r.attachment, r.user, scope) && (scope.OfIntake? ==> scope.intake !in w.locks)
    requires VetReview(w.db, r, w.db.attachments[r.attachment], scope) == Vetted(w.db.attachments[r.attachment], scope)
    ensures var v := Advanced(w, lim, id, 3);
      && v.calls == w.calls[id := Reviewing(r, Changed(Ok(r.attachment)))]
      && SaveReview(w.db, r, w.db.attachments[r.attachment], scope) == Ok(v.db)
  {
    LookFinds(w.db, lim, r.attachment, r.user, scope);
    ReviewWrites(w.db, r, w.db.attachments[r.attachment], scope);
    ReviewVettedIff(w.db, r, w.db.attachments[r.attachment], scope);
    hide Inv, Look, VetReview, SaveReview;
    var row := w.db.attachments[r.attachment];
    assert Advanced(w, lim, id, 0) == w;
    OneMore(w, lim, id, 0);
    assert Advanced(w, lim, id, 1) == World(w.db, w.locks, w.calls[id := Reviewing(r, Seen(row, scope))]);
    OneMore(w, lim, id, 1);
    assert Advanced(w, lim, id, 2) == World(w.db, w.locks, w.calls[id := Reviewing(r, Vetted(row, scope))]);
    OneMore(w, lim, id, 2);
  }

  /** and a derivative that passes its checks and fits its intake. */
  lemma HonestDerivative(w: World, lim: Limits, id: Id, d: Derivative, scope: Scope)
    requires Inv(w, lim) && id in w.calls && w.calls[id] == Deriving(d, Looking) && d.kind != Original && 0 < d.size
    requires Changeable(w.db, d.attachment, d.user, scope) && (scope.OfIntake? ==> scope.intake !in w.locks)
    requires VetDerivative(w.db, lim, d, w.db.attachments[d.attachment], scope) == Vetted(w.db.attachments[d.attachment], scope)
    requires scope.OfIntake? ==> FilesIn(w.db.attachments, |w.db.attachments|, scope.intake) + d.size <= lim.intakeBytes
    ensures var v := Advanced(w, lim, id, 3); var row := w.db.attachments[d.attachment];
      && v.calls == w.calls[id := Deriving(d, Changed(Ok(d.attachment)))]
      && AddDerivative(w.db, lim, d, row.version, scope) == Ok(v.db)
  {
    var row := w.db.attachments[d.attachment];
    LookFinds(w.db, lim, d.attachment, d.user, scope);
    assert RowOk(w.db, lim, row);
    DerivativeVettedIff(w.db, lim, d, row, scope);
    OwnedByOne(w.db, lim, d.attachment);
    DerivativeAccepted(w.db, lim, d, row.version, scope);
    hide Inv, Look, VetDerivative, AddDerivative, FileBytes, FilesIn, RowOk;
    assert Advanced(w, lim, id, 0) == w;
    OneMore(w, lim, id, 0);
    assert Advanced(w, lim, id, 1) == World(w.db, w.locks, w.calls[id := Deriving(d, Seen(row, scope))]);
    OneMore(w, lim, id, 1);
    assert Advanced(w, lim, id, 2) == World(w.db, w.locks, w.calls[id := Deriving(d, Vetted(row, scope))]);
    OneMore(w, lim, id, 2);
  }
}
