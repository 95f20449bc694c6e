/** Every step of every interleaving keeps the invariant. */
module IntakeRunProofs {
  import opened Results
  import opened IntakeRows
  import opened IntakeRuns
  import opened IntakeInvariants
  import opened IntakeRowProofs

  // ---- Other calls are not disturbed ---------------------------------------------------

  /** What the locks of other calls protect: they stay, and so does the draft they lock. */
  predicate LockKept(w: World, db: Db, locks: map<Id, Id>, id: Id, i: Id) {
    i in w.locks && w.locks[i] != id ==>
      && i in locks && locks[i] == w.locks[i]
      && (i in w.db.intakes ==> i in db.intakes && db.intakes[i] == w.db.intakes[i])
  }

  ghost predicate Respects(w: World, db: Db, locks: map<Id, Id>, id: Id) {
    && Evolves(w.db, db)
    && (forall i :: LockKept(w, db, locks, id, i))
    && (forall i | i in locks :: locks[i] != id ==> i in w.locks && w.locks[i] == locks[i])
  }

  lemma ReadStillTells(db: Db, next: Db, attachment: Id, row: Attachment)
    requires Evolves(db, next) && ReadTells(db, attachment, row)
    ensures ReadTells(next, attachment, row)
  {
    assert RowEvolves(db.attachments[attachment], next.attachments[attachment]);
  }

  lemma ReviewStillVetted(db: Db, next: Db, v: Review, row: Attachment)
    requires Evolves(db, next) && Reviewable(db, v, row)
    ensures Reviewable(next, v, row)
  {
    assert RowEvolves(db.attachments[v.attachment], next.attachments[v.attachment]);
    var mode := Or(v.mode, row.mode);
    if HasDerivativeFor(db.attachments[v.attachment].variants, mode) {
      StillServes(db.attachments[v.attachment].variants, next.attachments[v.attachment].variants, mode);
    }
  }

  lemma AnswerStands(db: Db, next: Db, c: Creation, purchase: nat)
    requires Evolves(db, next) && Answers(db, c, purchase)
    ensures Answers(next, c, purchase)
  {
    assert next.purchases[purchase] == db.purchases[purchase];
  }

  lemma UploadStands(db: Db, next: Db, u: Upload, at: UploadPhase)
    requires Evolves(db, next) && UploadingOk(db, u, at)
    ensures UploadingOk(next, u, at)
  {
    if at.Stored? && at.answer.Ok? {
      assert RowEvolves(db.attachments[at.answer.value], next.attachments[at.answer.value]);
    }
  }

  lemma BuyingStands(w: World, db: Db, locks: map<Id, Id>, id: Id, other: Id, c: Creation, at: CreatePhase)
    requires Respects(w, db, locks, id) && other != id && BuyingOk(w.db, w.locks, other, c, at)
    ensures BuyingOk(db, locks, other, c, at)
  {
    if at.Bought? && at.answer.Ok? {
      AnswerStands(w.db, db, c, at.answer.value);
    }
    if InTransaction(at) && c.source.Some? {
      assert LockKept(w, db, locks, id, c.source.value.0);
    }
  }

  lemma CallStands(w: World, db: Db, locks: map<Id, Id>, id: Id, other: Id, call: Call)
    requires Respects(w, db, locks, id) && other != id && CallOk(w.db, w.locks, other, call)
    ensures CallOk(db, locks, other, call)
  {
    match call
    case Buying(c, at) => BuyingStands(w, db, locks, id, other, c, at);
    case Uploading(u, at) => UploadStands(w.db, db, u, at);
    case Deriving(d, at) =>
      if at.Seen? || at.Vetted? {
        ReadStillTells(w.db, db, d.attachment, if at.Seen? then at.row else at.seen);
      }
    case Reviewing(v, at) =>
      if at.Seen? {
        ReadStillTells(w.db, db, v.attachment, at.row);
      } else if at.Vetted? {
        ReadStillTells(w.db, db, v.attachment, at.seen);
        ReviewStillVetted(w.db, db, v, at.seen);
      }
    case Deleting(_, _, _) =>
  }

  /** One call moved, the others did not: the invariant needs to be shown for that call alone. */
  lemma OneCallMoves(w: World, v: World, lim: Limits, id: Id)
    requires Inv(w, lim) && DbInv(v.db, lim) && Respects(w, v.db, v.locks, id)
    requires id in v.calls && v.calls == w.calls[id := v.calls[id]]
    requires CallOk(v.db, v.locks, id, v.calls[id])
    requires forall i | i in v.locks && v.locks[i] == id :: Holds(v.calls[id], i)
    ensures Inv(v, lim)
  {
    forall r | r in v.calls
      ensures CallOk(v.db, v.locks, r, v.calls[r])
    {
      if r != id {
        assert CallOk(w.db, w.locks, r, w.calls[r]);
        CallStands(w, v.db, v.locks, id, r, w.calls[r]);
      }
    }
    forall i | i in v.locks
      ensures LockOk(v, i)
    {
      if v.locks[i] != id {
        assert LockOk(w, i);
      }
    }
  }

  lemma {:induction false} EvolvesSelf(db: Db)
    ensures Evolves(db, db)
  {
    forall k | 0 <= k < |db.attachments|
      ensures RowEvolves(db.attachments[k], db.attachments[k])
    {
    }
  }

  /** A step of a call that leaves the rows alone. */
  lemma RowsUntouched(w: World, lim: Limits, locks: map<Id, Id>, id: Id)
    requires Inv(w, lim)
    requires forall i | i in w.locks && w.locks[i] != id :: i in locks && locks[i] == w.locks[i]
    requires forall i | i in locks && locks[i] != id :: i in w.locks && w.locks[i] == locks[i]
    ensures Respects(w, w.db, locks, id)
  {
    EvolvesSelf(w.db);
  }

  // ---- Creating a purchase -------------------------------------------------------------

  /** What one turn of a call must establish. */
  ghost predicate TurnOk(w: World, lim: Limits, id: Id, t: Turn) {
    && DbInv(t.db, lim) && Respects(w, t.db, t.locks, id)
    && CallOk(t.db, t.locks, id, t.call)
    && (forall i | i in t.locks && t.locks[i] == id :: Holds(t.call, i))
  }

  lemma QuietTurn(w: World, lim: Limits, id: Id, t: Turn)
    requires Inv(w, lim) && t.db == w.db && t.locks == w.locks
    requires CallOk(w.db, w.locks, id, t.call)
    requires forall i | i in w.locks && w.locks[i] == id :: Holds(t.call, i)
    ensures TurnOk(w, lim, id, t)
  {
    RowsUntouched(w, lim, w.locks, id);
  }

  lemma AnswerTurn(w: World, lim: Limits, id: Id, c: Creation, answer: Result<nat, Refusal>)
    requires Inv(w, lim) && (answer.Ok? ==> Answers(w.db, c, answer.value))
    ensures TurnOk(w, lim, id, Answer(w, id, c, answer))
  {
    RowsUntouched(w, lim, Unlock(w.locks, id), id);
  }

  lemma LookupOk(w: World, lim: Limits, id: Id, c: Creation, at: CreatePhase, otherwise: CreatePhase)
    requires Inv(w, lim) && id in w.calls && w.calls[id] == Buying(c, at)
    requires (at == Asked && otherwise == Fresh) || (at == Inside && otherwise == Claimed)
    ensures TurnOk(w, lim, id, Lookup(w, id, c, otherwise))
  {
    assert CallOk(w.db, w.locks, id, w.calls[id]);
    var found := FindKey(w.db.purchases, |w.db.purchases|, c.key);
    if found.Some? {
      AnswerTurn(w, lim, id, c, Replay(w.db, c, found.value));
    } else {
      OwnLocks(w, lim, id, Buying(c, otherwise));
      QuietTurn(w, lim, id, Lookup(w, id, c, otherwise));
    }
  }

  /** The locks a call has are those its phase entitles it to. */
  lemma OwnLocks(w: World, lim: Limits, id: Id, next: Call)
    requires Inv(w, lim) && id in w.calls
    requires w.calls[id].Buying? && InTransaction(w.calls[id].buyAt) ==>
               next.Buying? && InTransaction(next.buyAt) && next.creation == w.calls[id].creation
    ensures forall i | i in w.locks && w.locks[i] == id :: Holds(next, i)
  {
    forall i | i in w.locks && w.locks[i] == id
      ensures Holds(next, i)
    {
      assert LockOk(w, i);
    }
  }

  lemma IntakeAnswerOk(db: Db, c: Creation)
    requires c.source.Some? && IntakeAnswer(db, c.source.value.0, c.source.value.1).Ok?
    ensures Answers(db, c, IntakeAnswer(db, c.source.value.0, c.source.value.1).value)
  {
  }

  lemma OpenOk(w: World, lim: Limits, id: Id, c: Creation)
    requires Inv(w, lim) && id in w.calls && w.calls[id] == Buying(c, Opening) && c.source.Some?
    ensures TurnOk(w, lim, id, OpenTurn(w, id, c))
  {
    var answer := IntakeAnswer(w.db, c.source.value.0, c.source.value.1);
    if answer.Ok? {
      IntakeAnswerOk(w.db, c);
    }
    AnswerTurn(w, lim, id, c, answer);
    OwnLocks(w, lim, id, Buying(c, Asked));
    QuietTurn(w, lim, id, Turn(w.db, w.locks, Buying(c, Asked)));
  }

  lemma LockOkay(w: World, lim: Limits, id: Id, c: Creation)
    requires Inv(w, lim) && id in w.calls && w.calls[id] == Buying(c, Fresh)
    ensures TurnOk(w, lim, id, LockTurn(w, id, c))
  {
    var t := LockTurn(w, id, c);
    OwnLocks(w, lim, id, t.call);
    if c.source.None? || c.source.value.0 in w.locks {
      QuietTurn(w, lim, id, t);
    } else if IsDraft(w.db, c.source.value.0, c.source.value.1) {
      RowsUntouched(w, lim, t.locks, id);
    } else {
      var answer := IntakeAnswer(w.db, c.source.value.0, c.source.value.1);
      if answer.Ok? {
        IntakeAnswerOk(w.db, c);
      }
      AnswerTurn(w, lim, id, c, answer);
    }
  }

  /** The commit of the call that holds the intake of its purchase, or needs none. */
  lemma CommitKeeps(w: World, lim: Limits, id: Id, c: Creation)
    requires Inv(w, lim) && id in w.calls && w.calls[id] == Buying(c, Claimed)
    requires !KeyTaken(w.db, c) && !SourceTaken(w.db, c) && CommitPurchase(w.db, c).Ok?
    ensures DbInv(CommitPurchase(w.db, c).value, lim)
    ensures Respects(w, CommitPurchase(w.db, c).value, Unlock(w.locks, id), id)
  {
    var next := CommitPurchase(w.db, c).value;
    assert CallOk(w.db, w.locks, id, w.calls[id]);
    if c.source.None? {
      PlainPurchaseKeeps(w.db, lim, c);
    } else {
      FinalizeKeeps(w.db, lim, c);
      FinalizeShape(w.db, c);
    }
    forall i
      ensures LockKept(w, next, Unlock(w.locks, id), id, i)
    {
    }
  }

  lemma CommitOk(w: World, lim: Limits, id: Id, c: Creation, onSource: bool)
    requires Inv(w, lim) && id in w.calls && w.calls[id] == Buying(c, Claimed)
    ensures TurnOk(w, lim, id, CommitTurn(w, id, c, onSource))
  {
    var t := CommitTurn(w, id, c, onSource);
    if KeyTaken(w.db, c) || SourceTaken(w.db, c) {
      RowsUntouched(w, lim, t.locks, id);
    } else if CommitPurchase(w.db, c).Err? {
      AnswerTurn(w, lim, id, c, Err(CommitPurchase(w.db, c).error));
    } else {
      CommitKeeps(w, lim, id, c);
      assert Answers(t.db, c, |w.db.purchases|);
    }
  }

  lemma RecoverOk(w: World, lim: Limits, id: Id, c: Creation, source: bool)
    requires Inv(w, lim)
    ensures TurnOk(w, lim, id, RecoverTurn(w, id, c, source))
  {
    if source {
      var winner := if c.source.Some? then FindSource(w.db.purchases, |w.db.purchases|, c.source.value.0) else None;
      AnswerTurn(w, lim, id, c, if winner.Some? then Result.Ok(winner.value) else Err(Failed));
    } else {
      var winner := FindKey(w.db.purchases, |w.db.purchases|, c.key);
      AnswerTurn(w, lim, id, c, if winner.Some? then Replay(w.db, c, winner.value) else Err(Failed));
    }
  }

  lemma BuyOk(w: World, lim: Limits, id: Id, c: Creation, at: CreatePhase, onSource: bool)
    requires Inv(w, lim) && id in w.calls && w.calls[id] == Buying(c, at)
    ensures TurnOk(w, lim, id, BuyTurn(w, id, c, at, onSource))
  {
    match at
    case Opening =>
      if c.source.Some? {
        OpenOk(w, lim, id, c);
      } else {
        OwnLocks(w, lim, id, Buying(c, Asked));
        QuietTurn(w, lim, id, Turn(w.db, w.locks, Buying(c, Asked)));
      }
    case Asked => LookupOk(w, lim, id, c, at, Fresh);
    case Fresh => LockOkay(w, lim, id, c);
    case Inside => LookupOk(w, lim, id, c, at, Claimed);
    case Claimed => CommitOk(w, lim, id, c, onSource);
    case Conflicted(source) => RecoverOk(w, lim, id, c, source);
    case Bought(_) =>
      assert CallOk(w.db, w.locks, id, w.calls[id]);
      OwnLocks(w, lim, id, Buying(c, at));
      QuietTurn(w, lim, id, Turn(w.db, w.locks, Buying(c, at)));
  }

  // ---- The other calls, which never hold a lock between steps --------------------------

  lemma FreeTurn(w: World, lim: Limits, id: Id, t: Turn)
    requires Inv(w, lim) && id in w.calls && !w.calls[id].Buying?
    requires t.db == w.db && t.locks == w.locks && CallOk(w.db, w.locks, id, t.call)
    ensures TurnOk(w, lim, id, t)
  {
    OwnLocks(w, lim, id, t.call);
    QuietTurn(w, lim, id, t);
  }

  /** A transaction in one step: it may touch no locked intake. */
  lemma WriteTurn(w: World, lim: Limits, id: Id, t: Turn)
    requires Inv(w, lim) && id in w.calls && !w.calls[id].Buying?
    requires DbInv(t.db, lim) && Evolves(w.db, t.db) && t.db.intakes == w.db.intakes && t.locks == w.locks
    requires CallOk(t.db, w.locks, id, t.call)
    ensures TurnOk(w, lim, id, t)
  {
    OwnLocks(w, lim, id, t.call);
  }

  lemma InsertOk(w: World, lim: Limits, id: Id, u: Upload)
    requires Inv(w, lim) && id in w.calls && !w.calls[id].Buying?
    requires UploadingOk(w.db, u, Storing) && !KeyUsed(w.db, u) && InsertUpload(w.db, lim, u).Ok?
    ensures var db := InsertUpload(w.db, lim, u).value;
      TurnOk(w, lim, id, Turn(db, w.locks, Uploading(u, Stored(Ok(|w.db.attachments|)))))
  {
    UploadKeeps(w.db, lim, u);
    var t := Turn(InsertUpload(w.db, lim, u).value, w.locks, Uploading(u, Stored(Ok(|w.db.attachments|))));
    assert t.db.attachments[|w.db.attachments|] == NewRow(u);
    WriteTurn(w, lim, id, t);
  }

  lemma StoreOk(w: World, lim: Limits, id: Id, u: Upload)
    requires Inv(w, lim) && id in w.calls && w.calls[id] == Uploading(u, Storing)
    ensures TurnOk(w, lim, id, StoreTurn(w, lim, u))
  {
    assert CallOk(w.db, w.locks, id, w.calls[id]);
    if !KeyUsed(w.db, u) && InsertUpload(w.db, lim, u).Ok? && !(u.target.ToIntake? && u.target.intake in w.locks) {
      InsertOk(w, lim, id, u);
    } else {
      FreeTurn(w, lim, id, StoreTurn(w, lim, u));
    }
  }

  lemma ReplayUploadOk(db: Db, u: Upload, attachment: nat)
    requires attachment < |db.attachments| && db.attachments[attachment].key == u.key
    ensures UploadingOk(db, u, Stored(ReplayUpload(db, u, attachment)))
  {
  }

  /** Every turn but the insert only reads. */
  lemma QuietUpload(w: World, lim: Limits, u: Upload, at: UploadPhase)
    requires UploadingOk(w.db, u, at) && !at.Storing?
    ensures var t := UploadTurn(w, lim, u, at);
      && t.db == w.db && t.locks == w.locks
      && t.call.Uploading? && t.call.upload == u && UploadingOk(w.db, u, t.call.uploadAt)
  {
    hide StoreTurn, IntakeFits, ReplayUpload, LiveCount;
    var found := FindUpload(w.db.attachments, |w.db.attachments|, u.key);
    if found.Some? {
      ReplayUploadOk(w.db, u, found.value);
    }
  }

  lemma UploadOk(w: World, lim: Limits, id: Id, u: Upload, at: UploadPhase)
    requires Inv(w, lim) && id in w.calls && w.calls[id] == Uploading(u, at)
    ensures TurnOk(w, lim, id, UploadTurn(w, lim, u, at))
  {
    assert CallOk(w.db, w.locks, id, w.calls[id]);
    if at.Storing? {
      hide StoreTurn;
      StoreOk(w, lim, id, u);
    } else {
      hide UploadTurn, UploadingOk, DbInv, LocksOk;
      QuietUpload(w, lim, u, at);
      FreeTurn(w, lim, id, UploadTurn(w, lim, u, at));
    }
  }

  lemma LookOk(db: Db, user: Id, attachment: Id)
    ensures var at := Look(db, user, attachment); at.Seen? ==> ReadTells(db, attachment, at.row) && at.row.uploader == user
    ensures !Look(db, user, attachment).Vetted?
  {
  }

  lemma DeriveOk(w: World, lim: Limits, id: Id, d: Derivative, at: ChangePhase)
    requires Inv(w, lim) && id in w.calls && w.calls[id] == Deriving(d, at)
    ensures TurnOk(w, lim, id, DeriveTurn(w, lim, d, at))
  {
    hide AddDerivative, HasDigest, DerivativeFits, VariantFits;
    assert CallOk(w.db, w.locks, id, w.calls[id]);
    LookOk(w.db, d.user, d.attachment);
    var t := DeriveTurn(w, lim, d, at);
    if at.Vetted? && Free(w, at.entitled) && AddDerivative(w.db, lim, d, at.seen.version, at.entitled).Ok? {
      DeriveKeeps(w.db, lim, d, at.seen.version, at.entitled);
      WriteTurn(w, lim, id, t);
    } else {
      FreeTurn(w, lim, id, t);
    }
  }

  lemma VetReviewOk(db: Db, v: Review, row: Attachment, scope: Scope)
    requires ReadTells(db, v.attachment, row) && row.uploader == v.user
    ensures ReviewingOk(db, v, VetReview(db, v, row, scope))
  {
  }

  lemma ReviewOk(w: World, lim: Limits, id: Id, v: Review, at: ChangePhase)
    requires Inv(w, lim) && id in w.calls && w.calls[id] == Reviewing(v, at)
    ensures TurnOk(w, lim, id, ReviewTurn(w, v, at))
  {
    assert CallOk(w.db, w.locks, id, w.calls[id]);
    LookOk(w.db, v.user, v.attachment);
    var t := ReviewTurn(w, v, at);
    if at.Vetted? && Free(w, at.entitled) && SaveReview(w.db, v, at.seen, at.entitled).Ok? {
      ReviewKeeps(w.db, lim, v, at.seen, at.entitled);
      WriteTurn(w, lim, id, t);
    } else {
      if at.Seen? {
        VetReviewOk(w.db, v, at.row, at.scope);
      }
      FreeTurn(w, lim, id, t);
    }
  }

  lemma DeleteOk(w: World, lim: Limits, id: Id, user: Id, attachment: Id, at: ChangePhase)
    requires Inv(w, lim) && id in w.calls && w.calls[id] == Deleting(user, attachment, at)
    ensures TurnOk(w, lim, id, DeleteTurn(w, user, attachment, at))
  {
    assert CallOk(w.db, w.locks, id, w.calls[id]);
    LookOk(w.db, user, attachment);
    var t := DeleteTurn(w, user, attachment, at);
    if at.Vetted? && Free(w, at.entitled) && MarkDeleted(w.db, attachment, at.entitled).Ok? {
      DeleteKeeps(w.db, lim, attachment, at.entitled);
      WriteTurn(w, lim, id, t);
    } else {
      FreeTurn(w, lim, id, t);
    }
  }

  // ---- All steps -----------------------------------------------------------------------

  lemma TurnsOk(w: World, lim: Limits, id: Id, onSource: bool)
    requires Inv(w, lim) && id in w.calls
    ensures TurnOk(w, lim, id, TurnOf(w, lim, id, w.calls[id], onSource))
  {
    match w.calls[id]
    case Buying(c, at) => BuyOk(w, lim, id, c, at, onSource);
    case Uploading(u, at) => UploadOk(w, lim, id, u, at);
    case Deriving(d, at) => DeriveOk(w, lim, id, d, at);
    case Reviewing(v, at) => ReviewOk(w, lim, id, v, at);
    case Deleting(user, attachment, at) => DeleteOk(w, lim, id, user, attachment, at);
  }

  lemma AdvanceKeeps(w: World, lim: Limits, id: Id, onSource: bool)
    requires Inv(w, lim)
    ensures Inv(Next(w, lim, Advance(id, onSource)), lim)
  {
    if id in w.calls {
      TurnsOk(w, lim, id, onSource);
      OneCallMoves(w, Next(w, lim, Advance(id, onSource)), lim, id);
    }
  }

  lemma BeginKeeps(w: World, lim: Limits, id: Id, call: Call)
    requires Inv(w, lim)
    ensures Inv(Next(w, lim, Begin(id, call)), lim)
  {
    if id !in w.calls && Starts(call) {
      forall i | i in w.locks
        ensures w.locks[i] != id
      {
        assert LockOk(w, i);
      }
      RowsUntouched(w, lim, w.locks, id);
      OneCallMoves(w, Next(w, lim, Begin(id, call)), lim, id);
    }
  }

  lemma AbortKeeps(w: World, lim: Limits, id: Id)
    requires Inv(w, lim)
    ensures Inv(Next(w, lim, Abort(id)), lim)
  {
    if id in w.calls && !Finished(w.calls[id]) {
      RowsUntouched(w, lim, Unlock(w.locks, id), id);
      OneCallMoves(w, Next(w, lim, Abort(id)), lim, id);
    }
  }

  /** A transaction outside the calls, which leaves every locked intake alone. */
  lemma OutsideKeeps(w: World, lim: Limits, db: Db)
    requires Inv(w, lim) && DbInv(db, lim) && Evolves(w.db, db)
    requires forall i | i in w.locks && i in w.db.intakes :: i in db.intakes && db.intakes[i] == w.db.intakes[i]
    ensures Inv(w.(db := db), lim)
  {
    forall r | r in w.calls
      ensures CallOk(db, w.locks, r, w.calls[r])
    {
      assert CallOk(w.db, w.locks, r, w.calls[r]);
      CallStands(w, db, w.locks, r + 1, r, w.calls[r]);
    }
    forall i | i in w.locks
      ensures LockOk(w.(db := db), i)
    {
      assert LockOk(w, i);
    }
  }

  lemma IntakeStepKeeps(w: World, lim: Limits, step: Step)
    requires Inv(w, lim) && (step.Open? || step.Autosave? || step.Cancel?)
    ensures Inv(Next(w, lim, step), lim)
  {
    match step
    case Open(intake, user) =>
      var r := OpenIntake(w.db, intake, user);
      if r.Ok? {
        OpenKeeps(w.db, lim, intake, user);
        OutsideKeeps(w, lim, r.value);
      }
    case Autosave(intake, user, version) =>
      var r := SaveDraft(w.db, intake, user, version);
      if intake !in w.locks && r.Ok? {
        SaveKeeps(w.db, lim, intake, user, version);
        OutsideKeeps(w, lim, r.value);
      }
    case Cancel(intake, user) =>
      var r := CancelIntake(w.db, intake, user);
      if intake !in w.locks && r.Ok? {
        CancelKeeps(w.db, lim, intake, user);
        OutsideKeeps(w, lim, r.value);
      }
  }

  lemma NextKeeps(w: World, lim: Limits, step: Step)
    requires Inv(w, lim)
    ensures Inv(Next(w, lim, step), lim)
  {
    match step
    case Begin(id, call) => BeginKeeps(w, lim, id, call);
    case Advance(id, onSource) => AdvanceKeeps(w, lim, id, onSource);
    case Abort(id) => AbortKeeps(w, lim, id);
    case Open(_, _) => IntakeStepKeeps(w, lim, step);
    case Autosave(_, _, _) => IntakeStepKeeps(w, lim, step);
    case Cancel(_, _) => IntakeStepKeeps(w, lim, step);
    case ReceiveGift =>
      var v := Next(w, lim, step);
      AssetsKeep(w.db, v.db, lim, v.db.assets);
      OutsideKeeps(w, lim, v.db);
    case LeaveHeld(asset) =>
      var v := Next(w, lim, step);
      AssetsKeep(w.db, v.db, lim, v.db.assets);
      OutsideKeeps(w, lim, v.db);
  }

  lemma {:induction false} RunKeeps(w: World, lim: Limits, steps: seq<Step>)
    requires Inv(w, lim)
    ensures Inv(Run(w, lim, steps), lim)
    decreases |steps|
  {
    if steps != [] {
      NextKeeps(w, lim, steps[0]);
      RunKeeps(Next(w, lim, steps[0]), lim, steps[1..]);
    }
  }
}
