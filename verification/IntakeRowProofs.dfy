/** Each transaction keeps what the rows satisfy, and only moves rows forward. */
module IntakeRowProofs {
  import opened Results
  import opened IntakeRows
  import opened IntakeInvariants

  // ---- Counting bytes ------------------------------------------------------------------

  function Share(a: Attachment, intake: Id): nat {
    if a.intake == Some(intake) then RetainedBytes(a) else 0
  }

  lemma {:induction false} BytesNoMore(rows: seq<Attachment>, next: seq<Attachment>, n: nat, i: Id)
    requires n <= |rows| && n <= |next|
    requires forall k | 0 <= k < n :: Share(next[k], i) <= Share(rows[k], i)
    ensures IntakeBytes(next, n, i) <= IntakeBytes(rows, n, i)
  {
    if 0 < n {
      BytesNoMore(rows, next, n - 1, i);
      assert Share(next[n - 1], i) <= Share(rows[n - 1], i);
    }
  }

  /** One row replaced: its share of the sum is replaced. */
  lemma {:induction false} BytesReplaced(rows: seq<Attachment>, n: nat, k: nat, row: Attachment, i: Id)
    requires k < |rows| && n <= |rows|
    ensures IntakeBytes(rows[k := row], n, i)
         == IntakeBytes(rows, n, i) + if k < n then Share(row, i) - Share(rows[k], i) else 0
  {
    if 0 < n {
      BytesReplaced(rows, n - 1, k, row, i);
      assert rows[k := row][n - 1] == if n - 1 == k then row else rows[n - 1];
    }
  }

  lemma BytesAppended(rows: seq<Attachment>, row: Attachment, i: Id)
    ensures IntakeBytes(rows + [row], |rows| + 1, i) == IntakeBytes(rows, |rows|, i) + Share(row, i)
  {
    BytesNoMore(rows, rows + [row], |rows|, i);
    BytesNoMore(rows + [row], rows, |rows|, i);
  }

  // ---- A row added ---------------------------------------------------------------------

  lemma NewRowOk(db: Db, lim: Limits, u: Upload)
    requires FitsMode(u.media, u.mode) && !(u.media == AssetPhoto && u.pdf)
    requires match u.target
             case ToIntake(i) => IsDraft(db, i, u.user)
             case ToAsset(a) => a < |db.assets|
    ensures RowOk(db, lim, NewRow(u))
  {
    var vs := NewRow(u).variants;
    assert DerivativeCount(vs, 1) == DerivativeCount(vs, 0) == 0;
    assert DerivativeBytes(vs, 1) == DerivativeBytes(vs, 0) == 0;
    assert CountKind(vs, 0, Original) == 0;
    assert NumberedAt(vs, 0);
  }

  lemma AppendKeeps(db: Db, next: Db, lim: Limits, row: Attachment)
    requires DbInv(db, lim) && RowOk(db, lim, row)
    requires next == db.(attachments := db.attachments + [row])
    requires FindUpload(db.attachments, |db.attachments|, row.key).None? && JoinsDraft(db, row)
    requires forall i :: QuotaAt(next.attachments, lim, i)
    ensures DbInv(next, lim) && Evolves(db, next)
  {
    forall k | 0 <= k < |next.attachments|
      ensures RowOk(next, lim, next.attachments[k])
    {
      assert k < |db.attachments| ==> RowOk(db, lim, db.attachments[k]);
    }
    forall j, k | 0 <= j < k < |next.attachments|
      ensures OtherUpload(next.attachments, j, k)
    {
      assert k < |db.attachments| ==> OtherUpload(db.attachments, j, k);
    }
    SamePurchases(db, next);
    forall k | 0 <= k < |db.attachments|
      ensures RowEvolves(db.attachments[k], next.attachments[k])
    {
    }
  }

  /** Purchases and intakes untouched: what relates them is untouched. */
  lemma SamePurchases(db: Db, next: Db)
    requires IntakesOk(db) && next.purchases == db.purchases && next.intakes == db.intakes
    ensures IntakesOk(next)
  {
    forall i
      ensures IntakeOk(next, i)
    {
      assert IntakeOk(db, i);
    }
  }

  lemma UploadKeeps(db: Db, lim: Limits, u: Upload)
    requires DbInv(db, lim) && !KeyUsed(db, u) && InsertUpload(db, lim, u).Ok?
    requires FitsMode(u.media, u.mode) && !(u.media == AssetPhoto && u.pdf)
    requires u.target.ToAsset? ==> u.target.asset < |db.assets|
    ensures DbInv(InsertUpload(db, lim, u).value, lim) && Evolves(db, InsertUpload(db, lim, u).value)
  {
    var next := InsertUpload(db, lim, u).value;
    NewRowOk(db, lim, u);
    forall i
      ensures QuotaAt(next.attachments, lim, i)
    {
      assert QuotaAt(db.attachments, lim, i);
      NewRowShare(u, i);
      BytesAppended(db.attachments, NewRow(u), i);
    }
    AppendKeeps(db, next, lim, NewRow(u));
  }

  lemma NewRowShare(u: Upload, i: Id)
    ensures Share(NewRow(u), i) == if u.target == ToIntake(i) then u.size else 0
  {
    var vs := NewRow(u).variants;
    assert DerivativeBytes(vs, 1) == DerivativeBytes(vs, 0) == 0;
  }

  // ---- A row replaced ------------------------------------------------------------------

  lemma ReplaceKeeps(db: Db, next: Db, lim: Limits, k: nat, row: Attachment)
    requires DbInv(db, lim) && k < |db.attachments| && RowOk(db, lim, row)
    requires next == db.(attachments := db.attachments[k := row])
    requires RowEvolves(db.attachments[k], row)
    requires forall i :: Share(row, i) <= Share(db.attachments[k], i) || QuotaAt(next.attachments, lim, i)
    ensures DbInv(next, lim) && Evolves(db, next)
  {
    hide MediaOk, Numbered, WithinDerivatives, OneOwner, IntakeBytes;
    forall j | 0 <= j < |next.attachments|
      ensures RowOk(next, lim, next.attachments[j])
    {
      assert RowOk(db, lim, db.attachments[j]);
    }
    forall i, j | 0 <= i < j < |next.attachments|
      ensures OtherUpload(next.attachments, i, j)
    {
      assert OtherUpload(db.attachments, i, j);
    }
    SamePurchases(db, next);
    forall i
      ensures QuotaAt(next.attachments, lim, i)
    {
      assert QuotaAt(db.attachments, lim, i);
      BytesReplaced(db.attachments, |db.attachments|, k, row, i);
    }
  }

  // ---- A derivative --------------------------------------------------------------------

  lemma {:induction false} CountPrefix(vs: seq<Variant>, more: seq<Variant>, n: nat, kind: VariantKind)
    requires n <= |vs| && vs <= more
    ensures CountKind(more, n, kind) == CountKind(vs, n, kind)
  {
    if 0 < n {
      CountPrefix(vs, more, n - 1, kind);
      assert more[n - 1] == vs[n - 1];
    }
  }

  lemma {:induction false} DerivativePrefix(vs: seq<Variant>, more: seq<Variant>, n: nat)
    requires n <= |vs| && vs <= more
    ensures DerivativeCount(more, n) == DerivativeCount(vs, n) && DerivativeBytes(more, n) == DerivativeBytes(vs, n)
  {
    if 0 < n {
      DerivativePrefix(vs, more, n - 1);
      assert more[n - 1] == vs[n - 1];
    }
  }

  /** The latest revision is how many there are. */
  lemma {:induction false} LatestIsCount(vs: seq<Variant>, n: nat, kind: VariantKind)
    requires n <= |vs| && forall j | 0 <= j < |vs| :: NumberedAt(vs, j)
    ensures LatestRevision(vs, n, kind) == CountKind(vs, n, kind)
  {
    if 0 < n {
      LatestIsCount(vs, n - 1, kind);
      assert NumberedAt(vs, n - 1);
    }
  }

  function NextVariant(vs: seq<Variant>, d: Derivative): Variant {
    Variant(d.kind, LatestRevision(vs, |vs|, d.kind) + 1, d.size, d.digest)
  }

  lemma VariantKeepsNumbers(vs: seq<Variant>, d: Derivative)
    requires Numbered(vs) && d.kind != Original && !HasDigest(vs, d.kind, d.digest)
    ensures Numbered(vs + [NextVariant(vs, d)])
  {
    var more := vs + [NextVariant(vs, d)];
    forall j | 0 <= j < |more|
      ensures NumberedAt(more, j)
    {
      if j < |vs| {
        assert NumberedAt(vs, j);
      } else {
        LatestIsCount(vs, |vs|, d.kind);
      }
      CountPrefix(vs, more, j, more[j].kind);
    }
    forall j, k | 0 <= j < k < |more|
      ensures Apart(more, j, k)
    {
      assert k < |vs| ==> Apart(vs, j, k);
    }
  }

  lemma VariantGrows(vs: seq<Variant>, d: Derivative, lim: Limits)
    requires d.kind != Original && DerivativeFits(lim, vs, d.size)
    ensures WithinDerivatives(lim, vs + [NextVariant(vs, d)])
    ensures DerivativeBytes(vs + [NextVariant(vs, d)], |vs| + 1) == DerivativeBytes(vs, |vs|) + d.size
  {
    DerivativePrefix(vs, vs + [NextVariant(vs, d)], |vs|);
  }

  lemma StillServes(vs: seq<Variant>, more: seq<Variant>, mode: Mode)
    requires vs <= more && HasDerivativeFor(vs, mode)
    ensures HasDerivativeFor(more, mode)
  {
    var j :| 0 <= j < |vs| && Serves(vs[j].kind, mode);
    assert more[j] == vs[j];
  }

  lemma DeriveKeeps(db: Db, lim: Limits, d: Derivative, version: nat, scope: Scope)
    requires DbInv(db, lim) && d.kind != Original && AddDerivative(db, lim, d, version, scope).Ok?
    ensures var next := AddDerivative(db, lim, d, version, scope).value;
      DbInv(next, lim) && Evolves(db, next) && next.intakes == db.intakes
  {
    var next := AddDerivative(db, lim, d, version, scope).value;
    var row := db.attachments[d.attachment];
    assert RowOk(db, lim, row);
    if HasDigest(row.variants, d.kind, d.digest) {
      ReplaceKeeps(db, next, lim, d.attachment, next.attachments[d.attachment]);
    } else {
      GrownKeeps(db, next, lim, d, scope);
    }
  }

  lemma GrownRowOk(db: Db, lim: Limits, row: Attachment, d: Derivative)
    requires RowOk(db, lim, row) && d.kind != Original && !HasDigest(row.variants, d.kind, d.digest)
    requires DerivativeFits(lim, row.variants, d.size)
    ensures RowOk(db, lim, row.(version := row.version + 1, variants := row.variants + [NextVariant(row.variants, d)]))
  {
    var more := row.variants + [NextVariant(row.variants, d)];
    VariantKeepsNumbers(row.variants, d);
    VariantGrows(row.variants, d, lim);
    if HasDerivativeFor(row.variants, row.mode) {
      StillServes(row.variants, more, row.mode);
    }
  }

  lemma GrownKeeps(db: Db, next: Db, lim: Limits, d: Derivative, scope: Scope)
    requires DbInv(db, lim) && d.kind != Original && d.attachment < |db.attachments|
    requires var row := db.attachments[d.attachment];
      && InScope(db, row, scope) && !HasDigest(row.variants, d.kind, d.digest)
      && DerivativeFits(lim, row.variants, d.size)
      && (scope.OfIntake? ==> IntakeFits(lim, db.attachments, scope.intake, d.size))
      && next == db.(attachments := db.attachments[d.attachment :=
           row.(version := row.version + 1, variants := row.variants + [NextVariant(row.variants, d)])])
    ensures DbInv(next, lim) && Evolves(db, next)
  {
    var row := db.attachments[d.attachment];
    var grown := next.attachments[d.attachment];
    assert RowOk(db, lim, row);
    GrownRowOk(db, lim, row, d);
    VariantGrows(row.variants, d, lim);
    forall i
      ensures Share(grown, i) <= Share(row, i) || QuotaAt(next.attachments, lim, i)
    {
      BytesReplaced(db.attachments, |db.attachments|, d.attachment, grown, i);
    }
    ReplaceKeeps(db, next, lim, d.attachment, grown);
  }

  // ---- Reviews and deletions -----------------------------------------------------------

  lemma ReviewKeeps(db: Db, lim: Limits, v: Review, read: Attachment, scope: Scope)
    requires DbInv(db, lim) && ReadTells(db, v.attachment, read) && Reviewable(db, v, read)
    requires SaveReview(db, v, read, scope).Ok?
    ensures var next := SaveReview(db, v, read, scope).value;
      DbInv(next, lim) && Evolves(db, next)
  {
    var next := SaveReview(db, v, read, scope).value;
    var row := db.attachments[v.attachment];
    assert RowOk(db, lim, row);
    assert row.media == read.media && row.mode == read.mode && row.confirmed == read.confirmed;
    ReplaceKeeps(db, next, lim, v.attachment, next.attachments[v.attachment]);
  }

  lemma DeleteKeeps(db: Db, lim: Limits, attachment: Id, scope: Scope)
    requires DbInv(db, lim) && MarkDeleted(db, attachment, scope).Ok?
    ensures var next := MarkDeleted(db, attachment, scope).value;
      DbInv(next, lim) && Evolves(db, next)
  {
    var next := MarkDeleted(db, attachment, scope).value;
    assert RowOk(db, lim, db.attachments[attachment]);
    ReplaceKeeps(db, next, lim, attachment, next.attachments[attachment]);
  }

  // ---- Intakes and assets --------------------------------------------------------------

  lemma IntakeRowKeeps(db: Db, next: Db, lim: Limits, intake: Id, row: Intake)
    requires DbInv(db, lim) && next == db.(intakes := db.intakes[intake := row])
    requires row.status != Completed && !Named(db, intake)
    requires intake in db.intakes ==> row.user == db.intakes[intake].user && db.intakes[intake].status == Draft
    ensures DbInv(next, lim) && Evolves(db, next)
  {
    forall k | 0 <= k < |next.attachments|
      ensures RowOk(next, lim, next.attachments[k])
    {
      assert RowOk(db, lim, db.attachments[k]);
    }
    forall i
      ensures IntakeOk(next, i)
    {
      assert IntakeOk(db, i);
    }
  }

  lemma OpenKeeps(db: Db, lim: Limits, intake: Id, user: Id)
    requires DbInv(db, lim) && OpenIntake(db, intake, user).Ok?
    ensures DbInv(OpenIntake(db, intake, user).value, lim) && Evolves(db, OpenIntake(db, intake, user).value)
  {
    if intake !in db.intakes {
      assert IntakeOk(db, intake);
      IntakeRowKeeps(db, OpenIntake(db, intake, user).value, lim, intake, Intake(user, Draft, 1));
    }
  }

  lemma SaveKeeps(db: Db, lim: Limits, intake: Id, user: Id, version: nat)
    requires DbInv(db, lim) && SaveDraft(db, intake, user, version).Ok?
    ensures DbInv(SaveDraft(db, intake, user, version).value, lim)
    ensures Evolves(db, SaveDraft(db, intake, user, version).value)
  {
    assert IntakeOk(db, intake);
    var next := SaveDraft(db, intake, user, version).value;
    IntakeRowKeeps(db, next, lim, intake, next.intakes[intake]);
  }

  lemma CancelKeeps(db: Db, lim: Limits, intake: Id, user: Id)
    requires DbInv(db, lim) && CancelIntake(db, intake, user).Ok?
    ensures DbInv(CancelIntake(db, intake, user).value, lim)
    ensures Evolves(db, CancelIntake(db, intake, user).value)
  {
    assert IntakeOk(db, intake);
    if db.intakes[intake].status == Draft {
      var next := CancelIntake(db, intake, user).value;
      IntakeRowKeeps(db, next, lim, intake, next.intakes[intake]);
    }
  }

  lemma AssetsKeep(db: Db, next: Db, lim: Limits, assets: seq<Asset>)
    requires DbInv(db, lim) && next == db.(assets := assets) && |db.assets| <= |assets|
    ensures DbInv(next, lim) && Evolves(db, next)
  {
    forall k | 0 <= k < |next.attachments|
      ensures RowOk(next, lim, next.attachments[k])
    {
      assert RowOk(db, lim, db.attachments[k]);
    }
    SamePurchases(db, next);
  }

  // ---- Purchases -----------------------------------------------------------------------

  lemma NewPurchaseUnique(db: Db, c: Creation)
    requires PurchaseKeysUnique(db.purchases) && !KeyTaken(db, c) && !SourceTaken(db, c)
    ensures PurchaseKeysUnique(db.purchases + [NewPurchase(c)])
  {
    var ps := db.purchases + [NewPurchase(c)];
    forall j, k | 0 <= j < k < |ps|
      ensures OtherPurchase(ps, j, k)
    {
      assert k < |db.purchases| ==> OtherPurchase(db.purchases, j, k);
    }
  }

  /** A purchase names one more intake, and that one only. */
  lemma {:induction false} SamePrefixSource(ps: seq<Purchase>, p: Purchase, n: nat, i: Id)
    requires n <= |ps|
    ensures FindSource(ps + [p], n, i) == FindSource(ps, n, i)
  {
    if 0 < n {
      SamePrefixSource(ps, p, n - 1, i);
      assert (ps + [p])[n - 1] == ps[n - 1];
    }
  }

  lemma NamedAfter(db: Db, next: Db, p: Purchase, i: Id)
    requires next.purchases == db.purchases + [p]
    ensures Named(next, i) <==> Named(db, i) || p.source == Some(i)
  {
    SamePrefixSource(db.purchases, p, |db.purchases|, i);
  }

  lemma PlainPurchaseKeeps(db: Db, lim: Limits, c: Creation)
    requires DbInv(db, lim) && !KeyTaken(db, c) && !SourceTaken(db, c)
    requires c.source.None? && CommitPurchase(db, c).Ok?
    ensures DbInv(CommitPurchase(db, c).value, lim) && Evolves(db, CommitPurchase(db, c).value)
  {
    var next := CommitPurchase(db, c).value;
    NewPurchaseUnique(db, c);
    forall k | 0 <= k < |next.attachments|
      ensures RowOk(next, lim, next.attachments[k])
    {
      assert RowOk(db, lim, db.attachments[k]);
    }
    forall i
      ensures IntakeOk(next, i)
    {
      assert IntakeOk(db, i);
      NamedAfter(db, next, NewPurchase(c), i);
    }
  }

  /** What finalizing intake i makes of the rows. */
  ghost predicate FinalizedRows(db: Db, next: Db, i: Id) {
    && |next.attachments| == |db.attachments|
    && |next.purchases| == |db.purchases| + 1 && |db.assets| <= |next.assets|
    && i in db.intakes
    && next.intakes == db.intakes[i := db.intakes[i].(status := Completed, version := db.intakes[i].version + 1)]
    && forall k | 0 <= k < |db.attachments| :: FinalizedRow(db, next, i, db.attachments[k], next.attachments[k])
  }

  /** A waiting row moves to the purchase or to one of its assets; no other row changes. */
  predicate FinalizedRow(db: Db, next: Db, i: Id, a: Attachment, b: Attachment) {
    if !Waits(a, i) then b == a
    else
      && b == a.(intake := None, purchase := b.purchase, asset := b.asset)
      && (if b.purchase.Some? then b.purchase.value == |db.purchases| && b.asset.None?
          else b.asset.Some? && |db.assets| <= b.asset.value < |next.assets|)
  }

  lemma FinalizeShape(db: Db, c: Creation)
    requires !KeyTaken(db, c) && !SourceTaken(db, c) && c.source.Some? && CommitPurchase(db, c).Ok?
    ensures FinalizedRows(db, CommitPurchase(db, c).value, c.source.value.0)
  {
    var next := CommitPurchase(db, c).value;
    var i := c.source.value.0;
    var lots := LotsOf(c.items, |c.items|, |db.assets|);
    forall k | 0 <= k < |db.attachments|
      ensures FinalizedRow(db, next, i, db.attachments[k], next.attachments[k])
    {
      assert Reassigned(db.attachments[k], i, |db.purchases|, lots) == Result.Ok(next.attachments[k]);
    }
  }

  lemma FinalizedRowOk(db: Db, next: Db, lim: Limits, i: Id, k: nat)
    requires RowsOk(db, lim) && FinalizedRows(db, next, i) && k < |db.attachments|
    ensures RowOk(next, lim, next.attachments[k]) && RowEvolves(db.attachments[k], next.attachments[k])
  {
    assert RowOk(db, lim, db.attachments[k]);
    assert FinalizedRow(db, next, i, db.attachments[k], next.attachments[k]);
  }

  lemma FinalizedQuota(db: Db, next: Db, lim: Limits, i: Id)
    requires QuotaOk(db.attachments, lim) && FinalizedRows(db, next, i)
    ensures QuotaOk(next.attachments, lim)
  {
    forall j
      ensures QuotaAt(next.attachments, lim, j)
    {
      assert QuotaAt(db.attachments, lim, j);
      forall k | 0 <= k < |db.attachments|
        ensures Share(next.attachments[k], j) <= Share(db.attachments[k], j)
      {
        assert FinalizedRow(db, next, i, db.attachments[k], next.attachments[k]);
      }
      BytesNoMore(db.attachments, next.attachments, |db.attachments|, j);
    }
  }

  lemma FinalizeKeeps(db: Db, lim: Limits, c: Creation)
    requires DbInv(db, lim) && !KeyTaken(db, c) && !SourceTaken(db, c)
    requires c.source.Some? && IsDraft(db, c.source.value.0, c.source.value.1) && CommitPurchase(db, c).Ok?
    ensures DbInv(CommitPurchase(db, c).value, lim) && Evolves(db, CommitPurchase(db, c).value)
  {
    var next := CommitPurchase(db, c).value;
    var i := c.source.value.0;
    FinalizeShape(db, c);
    FinalizedQuota(db, next, lim, i);
    NewPurchaseUnique(db, c);
    FinalizedIntakes(db, next, c);
    FinalizedEvolves(db, next, lim, i);
    forall j, k | 0 <= j < k < |next.attachments|
      ensures OtherUpload(next.attachments, j, k)
    {
      assert OtherUpload(db.attachments, j, k);
    }
  }

  lemma FinalizedIntakes(db: Db, next: Db, c: Creation)
    requires IntakesOk(db) && c.source.Some? && FinalizedRows(db, next, c.source.value.0)
    requires next.purchases == db.purchases + [NewPurchase(c)]
    ensures IntakesOk(next)
  {
    forall j
      ensures IntakeOk(next, j)
    {
      assert IntakeOk(db, j);
      NamedAfter(db, next, NewPurchase(c), j);
    }
  }

  lemma FinalizedEvolves(db: Db, next: Db, lim: Limits, i: Id)
    requires RowsOk(db, lim) && FinalizedRows(db, next, i) && db.purchases <= next.purchases
    requires db.intakes[i].status == Draft
    ensures Evolves(db, next) && RowsOk(next, lim)
  {
    forall k | 0 <= k < |db.attachments|
      ensures RowOk(next, lim, next.attachments[k]) && RowEvolves(db.attachments[k], next.attachments[k])
    {
      FinalizedRowOk(db, next, lim, i, k);
    }
  }
}
