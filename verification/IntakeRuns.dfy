/**
 Runs of the intake protocol.  A call is a few reads followed by one transaction; each of its
 steps is atomic and the steps of all calls interleave freely.  Between its reads and its
 transaction a call keeps what it read, however old.  Only the transaction that finalizes an
 intake takes more than one step, and it holds the lock on the intake row meanwhile.
 */
module IntakeRuns {
  import opened Results
  import opened IntakeRows

  datatype CreatePhase =
    | Opening                     // the intake is about to be looked at
    | Asked                       // the first replay lookup is next
    | Fresh                       // no purchase has the key yet; the transaction is next
    | Inside                      // in the transaction, the intake locked; the second lookup is next
    | Claimed                     // in the transaction, nothing replayed; the inserts are next
    | Conflicted(source: bool)    // rolled back on the unique intake (source) or the unique key
    | Bought(answer: Result<nat, Refusal>)

  datatype UploadPhase =
    | Reading                     // the owner is about to be looked at
    | Unanswered                  // the replay lookup is next
    | Weighing                    // the first quota check is next
    | Storing                     // the transaction is next
    | Lost                        // rolled back on the unique upload key
    | Stored(answer: Result<nat, Refusal>)

  /** What a call to change one attachment has read: the row, and what entitles it to the change. */
  datatype ChangePhase =
    | Looking
    | Seen(row: Attachment, scope: Scope)
    | Vetted(seen: Attachment, entitled: Scope)
    | Changed(answer: Result<nat, Refusal>)

  datatype Call =
    | Buying(creation: Creation, buyAt: CreatePhase)
    | Uploading(upload: Upload, uploadAt: UploadPhase)
    | Deriving(derivative: Derivative, changeAt: ChangePhase)
    | Reviewing(review: Review, changeAt: ChangePhase)
    | Deleting(user: Id, attachment: Id, changeAt: ChangePhase)

  /** locks tells which call holds the row of an intake. */
  datatype World = World(db: Db, locks: map<Id, Id>, calls: map<Id, Call>)

  datatype Step =
    | Begin(id: Id, call: Call)
    | Advance(id: Id, onSource: bool)
    | Abort(id: Id)
    | Open(intake: Id, user: Id)
    | Autosave(intake: Id, user: Id, version: nat)
    | Cancel(intake: Id, user: Id)
    | ReceiveGift
    | LeaveHeld(asset: Id)

  const EMPTY_WORLD := World(EMPTY_DB, map[], map[])

  predicate Starts(c: Call) {
    match c
    case Buying(creation, at) => at == if creation.source.Some? then Opening else Asked
    case Uploading(_, at) => at == Reading
    case Deriving(_, at) => at == Looking
    case Reviewing(_, at) => at == Looking
    case Deleting(_, _, at) => at == Looking
  }

  predicate Finished(c: Call) {
    match c
    case Buying(_, at) => at.Bought?
    case Uploading(_, at) => at.Stored?
    case Deriving(_, at) => at.Changed?
    case Reviewing(_, at) => at.Changed?
    case Deleting(_, _, at) => at.Changed?
  }

  /** A call whose transaction threw. */
  function Failing(c: Call): Call {
    match c
    case Buying(creation, _) => Buying(creation, Bought(Err(Failed)))
    case Uploading(upload, _) => Uploading(upload, Stored(Err(Failed)))
    case Deriving(d, _) => Deriving(d, Changed(Err(Failed)))
    case Reviewing(v, _) => Reviewing(v, Changed(Err(Failed)))
    case Deleting(user, attachment, _) => Deleting(user, attachment, Changed(Err(Failed)))
  }

  // ---- Creating a purchase -------------------------------------------------------------

  /** An existing purchase answers a request, or refuses it. */
  function Replay(db: Db, c: Creation, purchase: nat): Result<nat, Refusal>
    requires purchase < |db.purchases|
  {
    var row := db.purchases[purchase];
    if c.source.Some? && row.source != Some(c.source.value.0) then Err(OtherIntake)
    else if row.request != c.request then Err(OtherRequest)
    else Ok(purchase)
  }

  datatype Turn = Turn(db: Db, locks: map<Id, Id>, call: Call)

  function Unlock(locks: map<Id, Id>, id: Id): map<Id, Id> {
    map i | i in locks && locks[i] != id :: locks[i]
  }

  function Answer(w: World, id: Id, c: Creation, answer: Result<nat, Refusal>): Turn {
    Turn(w.db, Unlock(w.locks, id), Buying(c, Bought(answer)))
  }

  function Lookup(w: World, id: Id, c: Creation, otherwise: CreatePhase): Turn {
    var found := FindKey(w.db.purchases, |w.db.purchases|, c.key);
    if found.Some? then Answer(w, id, c, Replay(w.db, c, found.value))
    else Turn(w.db, w.locks, Buying(c, otherwise))
  }

  /** What a finalized or missing intake answers. */
  function IntakeAnswer(db: Db, intake: Id, user: Id): Result<nat, Refusal> {
    if intake !in db.intakes || db.intakes[intake].user != user then Err(NotFound)
    else
      var bought := FindSource(db.purchases, |db.purchases|, intake);
      if bought.Some? then Ok(bought.value) else Err(NotDraft)
  }

  function OpenTurn(w: World, id: Id, c: Creation): Turn
    requires c.source.Some?
  {
    var (i, user) := c.source.value;
    var answer := IntakeAnswer(w.db, i, user);
    if answer.Ok? || answer.error == NotFound || w.db.intakes[i].status != Draft then Answer(w, id, c, answer)
    else Turn(w.db, w.locks, Buying(c, Asked))
  }

  /** Takes the row lock, waits for whoever has it, or finds the intake no longer a draft. */
  function LockTurn(w: World, id: Id, c: Creation): Turn {
    if c.source.None? then Turn(w.db, w.locks, Buying(c, Inside))
    else
      var (i, user) := c.source.value;
      if i in w.locks then Turn(w.db, w.locks, Buying(c, Fresh))
      else if IsDraft(w.db, i, user) then Turn(w.db, w.locks[i := id], Buying(c, Inside))
      else Answer(w, id, c, IntakeAnswer(w.db, i, user))
  }

  /** The inserts: one of the unique keys stops them, or the rows refuse, or all is written. */
  function CommitTurn(w: World, id: Id, c: Creation, onSource: bool): Turn {
    if KeyTaken(w.db, c) || SourceTaken(w.db, c) then
      var reported := SourceTaken(w.db, c) && (onSource || !KeyTaken(w.db, c));
      Turn(w.db, Unlock(w.locks, id), Buying(c, Conflicted(reported)))
    else
      match CommitPurchase(w.db, c)
      case Err(e) => Answer(w, id, c, Err(e))
      case Ok(db) => Turn(db, Unlock(w.locks, id), Buying(c, Bought(Ok(|w.db.purchases|))))
  }

  function RecoverTurn(w: World, id: Id, c: Creation, source: bool): Turn {
    if source then
      var winner := if c.source.Some? then FindSource(w.db.purchases, |w.db.purchases|, c.source.value.0) else None;
      Answer(w, id, c, if winner.Some? then Ok(winner.value) else Err(Failed))
    else
      var winner := FindKey(w.db.purchases, |w.db.purchases|, c.key);
      Answer(w, id, c, if winner.Some? then Replay(w.db, c, winner.value) else Err(Failed))
  }

  function BuyTurn(w: World, id: Id, c: Creation, at: CreatePhase, onSource: bool): Turn {
    match at
    case Opening => if c.source.Some? then OpenTurn(w, id, c) else Turn(w.db, w.locks, Buying(c, Asked))
    case Asked => Lookup(w, id, c, Fresh)
    case Fresh => LockTurn(w, id, c)
    case Inside => Lookup(w, id, c, Claimed)
    case Claimed => CommitTurn(w, id, c, onSource)
    case Conflicted(source) => RecoverTurn(w, id, c, source)
    case Bought(_) => Turn(w.db, w.locks, Buying(c, at))
  }

  // ---- Uploading -----------------------------------------------------------------------

  function AnswerUpload(w: World, u: Upload, answer: Result<nat, Refusal>): Turn {
    Turn(w.db, w.locks, Uploading(u, Stored(answer)))
  }

  predicate OnAsset(row: Attachment, asset: Id) {
    row.asset == Some(asset) && !row.deleted
  }

  function LiveCount(rows: seq<Attachment>, n: nat, asset: Id): nat
    requires n <= |rows|
  {
    if n == 0 then 0 else LiveCount(rows, n - 1, asset) + if OnAsset(rows[n - 1], asset) then 1 else 0
  }

  /** Can the owner take another attachment, and does the mode suit the media? */
  function OwnerRefuses(db: Db, lim: Limits, u: Upload): Option<Refusal> {
    if u.size == 0 || (u.pdf && u.media != Document) then Some(BadKind)
    else
      match u.target
      case ToIntake(i) =>
        if i !in db.intakes || db.intakes[i].user != u.user then Some(NotFound)
        else if db.intakes[i].status != Draft then Some(NotDraft)
        else if !FitsMode(u.media, u.mode) then Some(BadMode)
        else None
      case ToAsset(a) =>
        if |db.assets| <= a then Some(NotFound)
        else if !db.assets[a].held then Some(NotHeld)
        else if lim.perAsset <= LiveCount(db.attachments, |db.attachments|, a) then Some(OverQuota)
        else if !FitsMode(u.media, u.mode) then Some(BadMode)
        else None
  }

  /** Is this row the one the same upload stored before? */
  predicate SameOwner(row: Attachment, u: Upload) {
    match u.target
    case ToIntake(i) => row.uploader == u.user && row.intake == Some(i)
    case ToAsset(a) => row.asset == Some(a)
  }

  function ReplayUpload(db: Db, u: Upload, attachment: nat): Result<nat, Refusal>
    requires attachment < |db.attachments|
  {
    var row := db.attachments[attachment];
    if SameOwner(row, u) && row.request == u.request then Ok(attachment) else Err(OtherRequest)
  }

  function UploadLookup(w: World, u: Upload): Turn {
    var found := FindUpload(w.db.attachments, |w.db.attachments|, u.key);
    if found.None? || (u.target.ToAsset? && !SameOwner(w.db.attachments[found.value], u)) then
      Turn(w.db, w.locks, Uploading(u, Weighing))
    else AnswerUpload(w, u, ReplayUpload(w.db, u, found.value))
  }

  function StoreTurn(w: World, lim: Limits, u: Upload): Turn {
    if u.target.ToIntake? && u.target.intake in w.locks then Turn(w.db, w.locks, Uploading(u, Storing))
    else if KeyUsed(w.db, u) then
      // The draft is tested before the insert that meets the unique key.
      if u.target.ToIntake? && !IsDraft(w.db, u.target.intake, u.user) then AnswerUpload(w, u, Err(NotDraft))
      else if u.target.ToIntake? && !IntakeFits(lim, w.db.attachments, u.target.intake, u.size) then
        AnswerUpload(w, u, Err(OverQuota))
      else Turn(w.db, w.locks, Uploading(u, Lost))
    else
      match InsertUpload(w.db, lim, u)
      case Err(e) => AnswerUpload(w, u, Err(e))
      case Ok(db) => Turn(db, w.locks, Uploading(u, Stored(Ok(|w.db.attachments|))))
  }

  function UploadTurn(w: World, lim: Limits, u: Upload, at: UploadPhase): Turn {
    match at
    case Reading =>
      var refusal := OwnerRefuses(w.db, lim, u);
      if refusal.Some? then AnswerUpload(w, u, Err(refusal.value)) else Turn(w.db, w.locks, Uploading(u, Unanswered))
    case Unanswered => UploadLookup(w, u)
    case Weighing =>
      if u.target.ToIntake? && !IntakeFits(lim, w.db.attachments, u.target.intake, u.size) then
        AnswerUpload(w, u, Err(OverQuota))
      else Turn(w.db, w.locks, Uploading(u, Storing))
    case Storing => StoreTurn(w, lim, u)
    case Lost =>
      var winner := FindUpload(w.db.attachments, |w.db.attachments|, u.key);
      if winner.None? || (u.target.ToAsset? && !SameOwner(w.db.attachments[winner.value], u)) then
        AnswerUpload(w, u, Err(Failed))
      else AnswerUpload(w, u, ReplayUpload(w.db, u, winner.value))
    case Stored(_) => Turn(w.db, w.locks, Uploading(u, at))
  }

  // ---- Changing an attachment ----------------------------------------------------------

  /** Reads the row and settles what entitles the user to change it. */
  function Look(db: Db, user: Id, attachment: Id): ChangePhase {
    if |db.attachments| <= attachment then Changed(Err(NotFound))
    else
      var row := db.attachments[attachment];
      if !Authorized(db, row, user) || row.deleted then Changed(Err(NotFound))
      else
        var scope := ScopeOf(db, row, user);
        if scope.None? then Changed(Err(Immutable)) else Seen(row, scope.value)
  }

  /** The scope's intake row, if any, is free to be locked. */
  predicate Free(w: World, scope: Scope) {
    scope.OfIntake? ==> scope.intake !in w.locks
  }

  function VetDerivative(db: Db, lim: Limits, d: Derivative, row: Attachment, scope: Scope): ChangePhase {
    if !VariantFits(row.media, d.kind, d.pdf, d.heic) then Changed(Err(BadKind))
    else if d.attachment < |db.attachments| && HasDigest(db.attachments[d.attachment].variants, d.kind, d.digest) then
      Changed(Ok(d.attachment))
    else if !DerivativeFits(lim, row.variants, d.size) then Changed(Err(OverQuota))
    else Vetted(row, scope)
  }

  function DeriveTurn(w: World, lim: Limits, d: Derivative, at: ChangePhase): Turn {
    match at
    case Looking =>
      // The original is immutable.
      if d.kind == Original || d.size == 0 then Turn(w.db, w.locks, Deriving(d, Changed(Err(BadKind))))
      else Turn(w.db, w.locks, Deriving(d, Look(w.db, d.user, d.attachment)))
    case Seen(row, scope) => Turn(w.db, w.locks, Deriving(d, VetDerivative(w.db, lim, d, row, scope)))
    case Vetted(row, scope) =>
      if !Free(w, scope) then Turn(w.db, w.locks, Deriving(d, at))
      else
        (match AddDerivative(w.db, lim, d, row.version, scope)
         case Err(e) => Turn(w.db, w.locks, Deriving(d, Changed(Err(e))))
         case Ok(db) => Turn(db, w.locks, Deriving(d, Changed(Ok(d.attachment)))))
    case Changed(_) => Turn(w.db, w.locks, Deriving(d, at))
  }

  /** The checks of a review; the derivative is looked up when the row has long been read. */
  function VetReview(db: Db, v: Review, row: Attachment, scope: Scope): ChangePhase {
    var media := Or(v.media, row.media);
    var mode := Or(v.mode, row.mode);
    if v.version != row.version then Changed(Err(Stale))
    else if !FitsMode(media, mode) then Changed(Err(BadMode))
    else if media == AssetPhoto && row.pdf then Changed(Err(BadKind))
    else if Or(v.confirmed, row.confirmed) && mode != Untouched
            && !(v.attachment < |db.attachments| && HasDerivativeFor(db.attachments[v.attachment].variants, mode)) then
      Changed(Err(NeedsDerivative))
    else Vetted(row, scope)
  }

  function ReviewTurn(w: World, v: Review, at: ChangePhase): Turn {
    match at
    case Looking => Turn(w.db, w.locks, Reviewing(v, Look(w.db, v.user, v.attachment)))
    case Seen(row, scope) => Turn(w.db, w.locks, Reviewing(v, VetReview(w.db, v, row, scope)))
    case Vetted(row, scope) =>
      if !Free(w, scope) then Turn(w.db, w.locks, Reviewing(v, at))
      else
        (match SaveReview(w.db, v, row, scope)
         case Err(e) => Turn(w.db, w.locks, Reviewing(v, Changed(Err(e))))
         case Ok(db) => Turn(db, w.locks, Reviewing(v, Changed(Ok(v.attachment)))))
    case Changed(_) => Turn(w.db, w.locks, Reviewing(v, at))
  }

  /** Deleting what is already deleted answers at once. */
  function LookToDelete(db: Db, user: Id, attachment: Id): ChangePhase {
    if attachment < |db.attachments| && Authorized(db, db.attachments[attachment], user) && db.attachments[attachment].deleted then
      Changed(Ok(attachment))
    else Look(db, user, attachment)
  }

  function DeleteTurn(w: World, user: Id, attachment: Id, at: ChangePhase): Turn {
    match at
    case Looking => Turn(w.db, w.locks, Deleting(user, attachment, LookToDelete(w.db, user, attachment)))
    case Seen(row, scope) => Turn(w.db, w.locks, Deleting(user, attachment, Vetted(row, scope)))
    case Vetted(row, scope) =>
      if !Free(w, scope) then Turn(w.db, w.locks, Deleting(user, attachment, at))
      else
        (match MarkDeleted(w.db, attachment, scope)
         case Err(e) => Turn(w.db, w.locks, Deleting(user, attachment, Changed(Err(e))))
         case Ok(db) => Turn(db, w.locks, Deleting(user, attachment, Changed(Ok(attachment)))))
    case Changed(_) => Turn(w.db, w.locks, Deleting(user, attachment, at))
  }

  // ---- Runs ----------------------------------------------------------------------------

  function TurnOf(w: World, lim: Limits, id: Id, call: Call, onSource: bool): Turn {
    match call
    case Buying(c, at) => BuyTurn(w, id, c, at, onSource)
    case Uploading(u, at) => UploadTurn(w, lim, u, at)
    case Deriving(d, at) => DeriveTurn(w, lim, d, at)
    case Reviewing(v, at) => ReviewTurn(w, v, at)
    case Deleting(user, attachment, at) => DeleteTurn(w, user, attachment, at)
  }

  function Written(w: World, r: Result<Db, Refusal>): World {
    if r.Ok? then w.(db := r.value) else w
  }

  function Next(w: World, lim: Limits, step: Step): World {
    match step
    case Begin(id, call) =>
      if id in w.calls || !Starts(call) then w else w.(calls := w.calls[id := call])
    case Advance(id, onSource) =>
      if id !in w.calls then w
      else
        var t := TurnOf(w, lim, id, w.calls[id], onSource);
        World(t.db, t.locks, w.calls[id := t.call])
    case Abort(id) =>
      if id !in w.calls || Finished(w.calls[id]) then w
      else World(w.db, Unlock(w.locks, id), w.calls[id := Failing(w.calls[id])])
    case Open(intake, user) => Written(w, OpenIntake(w.db, intake, user))
    case Autosave(intake, user, version) =>
      if intake in w.locks then w else Written(w, SaveDraft(w.db, intake, user, version))
    case Cancel(intake, user) =>
      if intake in w.locks then w else Written(w, CancelIntake(w.db, intake, user))
    case ReceiveGift => w.(db := w.db.(assets := w.db.assets + [Asset(None, true)]))
    case LeaveHeld(asset) =>
      if |w.db.assets| <= asset then w
      else w.(db := w.db.(assets := w.db.assets[asset := w.db.assets[asset].(held := false)]))
  }

  function Run(w: World, lim: Limits, steps: seq<Step>): World
    decreases |steps|
  {
    if steps == [] then w else Run(Next(w, lim, steps[0]), lim, steps[1..])
  }
}
