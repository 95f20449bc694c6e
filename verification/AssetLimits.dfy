/**
 The limit on attachments of one asset (apps/api/src/attachments/attachments.service.ts).  It is tested on
 rows read before the insert and without a lock: how far uploads that overlap can exceed it, and that they do.
 */
module AssetLimits {
  import opened Results
  import opened IntakeRows
  import opened IntakeRuns
  import opened IntakeInvariants
  import opened IntakeRunProofs
  import opened IntakeTheorems

  /** Uploads to the asset that have passed the test and not inserted yet. */
  predicate Under(c: Call, asset: Id) {
    && c.Uploading? && c.upload.target == ToAsset(asset)
    && (c.uploadAt.Unanswered? || c.uploadAt.Weighing? || c.uploadAt.Storing?)
  }

  function UnderWay(calls: map<Id, Call>, asset: Id): set<Id> {
    set id | id in calls && Under(calls[id], asset)
  }

  function Live(db: Db, asset: Id): nat {
    LiveCount(db.attachments, |db.attachments|, asset)
  }

  /** What is on the asset and what may yet come. */
  function Load(w: World, asset: Id): nat {
    Live(w.db, asset) + |UnderWay(w.calls, asset)|
  }

  // ---- Rows ----------------------------------------------------------------------------

  /** No row comes onto the asset but by an insert. */
  ghost predicate NoneJoins(rows: seq<Attachment>, next: seq<Attachment>, asset: Id) {
    |next| == |rows| && forall k | 0 <= k < |rows| :: OnAsset(next[k], asset) ==> OnAsset(rows[k], asset)
  }

  lemma {:induction false} NoneJoinsCount(rows: seq<Attachment>, next: seq<Attachment>, n: nat, asset: Id)
    requires NoneJoins(rows, next, asset) && n <= |rows|
    ensures LiveCount(next, n, asset) <= LiveCount(rows, n, asset)
  {
    if 0 < n {
      NoneJoinsCount(rows, next, n - 1, asset);
    }
  }

  lemma {:induction false} AppendedCount(rows: seq<Attachment>, row: Attachment, n: nat, asset: Id)
    requires n <= |rows|
    ensures LiveCount(rows + [row], n, asset) == LiveCount(rows, n, asset)
  {
    if 0 < n {
      AppendedCount(rows, row, n - 1, asset);
    }
  }

  lemma InsertedCount(rows: seq<Attachment>, row: Attachment, asset: Id)
    ensures LiveCount(rows + [row], |rows| + 1, asset) == LiveCount(rows, |rows|, asset) + if OnAsset(row, asset) then 1 else 0
  {
    AppendedCount(rows, row, |rows|, asset);
  }

  // ---- Calls ---------------------------------------------------------------------------

  lemma CallChanges(calls: map<Id, Call>, id: Id, c: Call, asset: Id)
    ensures var after := UnderWay(calls[id := c], asset);
      && (Under(c, asset) ==> |after| == |UnderWay(calls, asset) - {id}| + 1)
      && (!Under(c, asset) ==> |after| == |UnderWay(calls, asset) - {id}|)
  {
    var before, after := UnderWay(calls, asset), UnderWay(calls[id := c], asset);
    if Under(c, asset) {
      assert after == (before - {id}) + {id};
    } else {
      assert after == before - {id};
    }
  }

  /** How one changed call moves the number under way. */
  lemma CallMoves(calls: map<Id, Call>, id: Id, c: Call, asset: Id)
    ensures var before, after := UnderWay(calls, asset), UnderWay(calls[id := c], asset);
      && (!Under(c, asset) ==> |after| <= |before|)
      && (id in calls && Under(calls[id], asset) ==> |after| == |before| + (if Under(c, asset) then 0 else -1))
  {
    CallChanges(calls, id, c, asset);
    var before := UnderWay(calls, asset);
    if id in before {
      assert before == (before - {id}) + {id};
    } else {
      assert before == before - {id};
    }
  }

  // ---- Steps ---------------------------------------------------------------------------

  /** A turn that brings no row onto the asset and passes no test. */
  lemma QuietLoad(w: World, v: World, id: Id, c: Call, asset: Id)
    requires id in w.calls && v.calls == w.calls[id := c] && (Under(c, asset) ==> Under(w.calls[id], asset))
    requires NoneJoins(w.db.attachments, v.db.attachments, asset)
    ensures Load(v, asset) <= Load(w, asset)
  {
    CallMoves(w.calls, id, c, asset);
    NoneJoinsCount(w.db.attachments, v.db.attachments, |w.db.attachments|, asset);
  }

  /** An insert takes the place its upload held. */
  lemma InsertLoad(w: World, v: World, id: Id, u: Upload, c: Call, asset: Id)
    requires id in w.calls && w.calls[id] == Uploading(u, Storing) && v.calls == w.calls[id := c] && !Under(c, asset)
    requires v.db.attachments == w.db.attachments + [NewRow(u)]
    ensures Load(v, asset) <= Load(w, asset)
  {
    CallMoves(w.calls, id, c, asset);
    InsertedCount(w.db.attachments, NewRow(u), asset);
  }

  lemma UploadLoad(w: World, lim: Limits, id: Id, u: Upload, at: UploadPhase, asset: Id)
    requires id in w.calls && w.calls[id] == Uploading(u, at)
    ensures var t := UploadTurn(w, lim, u, at);
      var v := World(t.db, t.locks, w.calls[id := t.call]);
      Load(v, asset) <= Load(w, asset) || Live(v.db, asset) < lim.perAsset
  {
    hide Under, Load;
    var t := UploadTurn(w, lim, u, at);
    var v := World(t.db, t.locks, w.calls[id := t.call]);
    if at.Storing? && t.db != w.db {
      InsertLoad(w, v, id, u, t.call, asset) by {
        NotUnder(u, asset);
      }
    } else if at.Reading? && u.target == ToAsset(asset) && t.call == Uploading(u, Unanswered) {
    } else {
      QuietLoad(w, v, id, t.call, asset) by {
        UploadGoesOn(w, lim, u, at, asset);
      }
    }
  }

  lemma NotUnder(u: Upload, asset: Id)
    ensures forall answer :: !Under(Uploading(u, Stored(answer)), asset)
  {
  }

  lemma UploadGoesOn(w: World, lim: Limits, u: Upload, at: UploadPhase, asset: Id)
    requires !(at.Reading? && u.target == ToAsset(asset) && UploadTurn(w, lim, u, at).call == Uploading(u, Unanswered))
    ensures Under(UploadTurn(w, lim, u, at).call, asset) ==> Under(Uploading(u, at), asset)
  {
  }

  /** A purchase moves attachments only onto the assets it creates. */
  lemma PurchaseJoinsNone(db: Db, c: Creation, asset: Id)
    requires !KeyTaken(db, c) && !SourceTaken(db, c) && CommitPurchase(db, c).Ok? && asset < |db.assets|
    ensures NoneJoins(db.attachments, CommitPurchase(db, c).value.attachments, asset)
  {
    if c.source.Some? {
      var i, lots := c.source.value.0, LotsOf(c.items, |c.items|, |db.assets|);
      var rows := CommitPurchase(db, c).value.attachments;
      forall k | 0 <= k < |rows| && OnAsset(rows[k], asset)
        ensures OnAsset(db.attachments[k], asset)
      {
        assert Reassigned(db.attachments[k], i, |db.purchases|, lots) == Ok(rows[k]);
      }
    }
  }

  lemma BuyJoinsNone(w: World, id: Id, c: Creation, at: CreatePhase, onSource: bool, asset: Id)
    requires asset < |w.db.assets|
    ensures var t := BuyTurn(w, id, c, at, onSource);
      NoneJoins(w.db.attachments, t.db.attachments, asset) && t.call.Buying?
  {
    hide CommitPurchase, NoneJoins;
    assert NoneJoins(w.db.attachments, w.db.attachments, asset) by {
      SameRowsJoinNone(w.db.attachments, asset);
    }
    if at.Claimed? && !KeyTaken(w.db, c) && !SourceTaken(w.db, c) && CommitPurchase(w.db, c).Ok? {
      PurchaseJoinsNone(w.db, c, asset);
    }
  }

  lemma SameRowsJoinNone(rows: seq<Attachment>, asset: Id)
    ensures NoneJoins(rows, rows, asset)
  {
  }

  /** Derivatives, reviews and deletions leave every row on its asset or take it off. */
  lemma ChangeJoinsNone(w: World, lim: Limits, id: Id, call: Call, asset: Id)
    requires call.Deriving? || call.Reviewing? || call.Deleting?
    ensures var t := TurnOf(w, lim, id, call, false);
      NoneJoins(w.db.attachments, t.db.attachments, asset) && !t.call.Uploading?
  {
    match call
    case Deriving(d, at) => DeriveJoinsNone(w, lim, d, at, asset);
    case Reviewing(v, at) => ReviewJoinsNone(w, v, at, asset);
    case Deleting(user, attachment, at) => DeleteJoinsNone(w, user, attachment, at, asset);
  }

  lemma DeriveJoinsNone(w: World, lim: Limits, d: Derivative, at: ChangePhase, asset: Id)
    ensures NoneJoins(w.db.attachments, DeriveTurn(w, lim, d, at).db.attachments, asset)
    ensures DeriveTurn(w, lim, d, at).call.Deriving?
  {
  }

  lemma ReviewJoinsNone(w: World, v: Review, at: ChangePhase, asset: Id)
    ensures NoneJoins(w.db.attachments, ReviewTurn(w, v, at).db.attachments, asset)
    ensures ReviewTurn(w, v, at).call.Reviewing?
  {
  }

  lemma DeleteJoinsNone(w: World, user: Id, attachment: Id, at: ChangePhase, asset: Id)
    ensures NoneJoins(w.db.attachments, DeleteTurn(w, user, attachment, at).db.attachments, asset)
    ensures DeleteTurn(w, user, attachment, at).call.Deleting?
  {
  }

  lemma AdvanceLoad(w: World, lim: Limits, id: Id, onSource: bool, asset: Id)
    requires asset < |w.db.assets| && id in w.calls
    ensures var v := Next(w, lim, Advance(id, onSource));
      Load(v, asset) <= Load(w, asset) || Live(v.db, asset) < lim.perAsset
  {
    hide Load, Live, NoneJoins, BuyTurn, UploadTurn, DeriveTurn, ReviewTurn, DeleteTurn;
    var call := w.calls[id];
    var v := Next(w, lim, Advance(id, onSource));
    match call
    case Uploading(u, at) => UploadLoad(w, lim, id, u, at, asset);
    case Buying(c, at) =>
      BuyJoinsNone(w, id, c, at, onSource, asset);
      QuietLoad(w, v, id, v.calls[id], asset);
    case _ =>
      ChangeJoinsNone(w, lim, id, call, asset);
      QuietLoad(w, v, id, v.calls[id], asset);
  }

  /** No step adds to the load but an upload that passes the test, and then the limit is not reached yet. */
  lemma StepLoad(w: World, lim: Limits, step: Step, asset: Id)
    requires asset < |w.db.assets|
    ensures var v := Next(w, lim, step);
      Load(v, asset) <= Load(w, asset) || Live(v.db, asset) < lim.perAsset
  {
    match step
    case Advance(id, onSource) =>
      if id in w.calls {
        hide Load, Live, Next;
        AdvanceLoad(w, lim, id, onSource, asset);
      }
    case Begin(id, call) =>
      if id !in w.calls && Starts(call) {
        CallMoves(w.calls, id, call, asset);
      }
    case Abort(id) =>
      if id in w.calls && !Finished(w.calls[id]) {
        CallMoves(w.calls, id, Failing(w.calls[id]), asset);
      }
    case _ =>
  }

  // ---- Runs ----------------------------------------------------------------------------

  /** At no time more than so many uploads to the asset are between test and insert. */
  ghost predicate Overlaps(w: World, lim: Limits, steps: seq<Step>, asset: Id, most: nat)
    decreases |steps|
  {
    && |UnderWay(w.calls, asset)| <= most
    && (steps == [] || Overlaps(Next(w, lim, steps[0]), lim, steps[1..], asset, most))
  }

  lemma LoadWithin(w: World, asset: Id, most: nat, bound: nat)
    requires |UnderWay(w.calls, asset)| <= most && Live(w.db, asset) + most <= bound
    ensures Load(w, asset) <= bound
  {
  }

  /** From any state on, with at most that many uploads overlapping, an asset never carries more than the
      limit and the uploads beyond the first; unless it carried more to begin with, as it can when a
      finalization brings its photos. */
  lemma {:induction false} UploadsBounded(w: World, lim: Limits, steps: seq<Step>, asset: Id, most: nat, bound: nat)
    requires Inv(w, lim) && asset < |w.db.assets| && Load(w, asset) <= bound
    requires Overlaps(w, lim, steps, asset, most) && lim.perAsset + most <= bound + 1
    ensures Load(Run(w, lim, steps), asset) <= bound
    decreases |steps|
  {
    hide Inv, Next, Load, Live, UnderWay;
    if steps != [] {
      var v := Next(w, lim, steps[0]);
      StepLoad(w, lim, steps[0], asset);
      StepEvolves(w, lim, steps[0]);
      NextKeeps(w, lim, steps[0]);
      assert |UnderWay(v.calls, asset)| <= most;
      if Live(v.db, asset) < lim.perAsset {
        LoadWithin(v, asset, most, bound);
      }
      UploadsBounded(v, lim, steps[1..], asset, most, bound);
    }
  }

  /** Assets stay what they came from; one without a purchase is a gift. */
  ghost predicate AssetsStay(db: Db, next: Db, asset: Id) {
    && |db.assets| <= |next.assets|
    && (asset < |db.assets| ==> next.assets[asset].purchase == db.assets[asset].purchase)
    && (|db.assets| <= asset < |next.assets| ==> next.assets[asset].purchase.Some?)
  }

  lemma TurnAssets(w: World, lim: Limits, id: Id, call: Call, onSource: bool, asset: Id)
    ensures AssetsStay(w.db, TurnOf(w, lim, id, call, onSource).db, asset)
  {
    match call
    case Buying(c, at) => BuyAssets(w, id, c, at, onSource, asset);
    case Uploading(u, at) =>
    case Deriving(d, at) =>
    case Reviewing(v, at) =>
    case Deleting(user, attachment, at) =>
  }

  lemma BuyAssets(w: World, id: Id, c: Creation, at: CreatePhase, onSource: bool, asset: Id)
    ensures AssetsStay(w.db, BuyTurn(w, id, c, at, onSource).db, asset)
  {
    hide ReassignedRows;
  }

  lemma StepAssets(w: World, lim: Limits, step: Step, asset: Id)
    ensures step == ReceiveGift || AssetsStay(w.db, Next(w, lim, step).db, asset)
  {
    hide TurnOf;
    if step.Advance? && step.id in w.calls {
      TurnAssets(w, lim, step.id, w.calls[step.id], step.onSource, asset);
    }
  }

  lemma {:induction false} NoRowCount(rows: seq<Attachment>, n: nat, asset: Id)
    requires n <= |rows| && forall k | 0 <= k < n :: !OnAsset(rows[k], asset)
    ensures LiveCount(rows, n, asset) == 0
  {
    if 0 < n {
      NoRowCount(rows, n - 1, asset);
    }
  }

  /** Nothing is on an asset that is not there, nor under way to it. */
  lemma NothingBefore(w: World, lim: Limits, asset: Id)
    requires Inv(w, lim) && |w.db.assets| <= asset
    ensures Load(w, asset) == 0
  {
    forall k | 0 <= k < |w.db.attachments|
      ensures !OnAsset(w.db.attachments[k], asset)
    {
      assert RowOk(w.db, lim, w.db.attachments[k]);
    }
    NoRowCount(w.db.attachments, |w.db.attachments|, asset);
    forall id | id in w.calls
      ensures !Under(w.calls[id], asset)
    {
      assert CallOk(w.db, w.locks, id, w.calls[id]);
    }
    assert UnderWay(w.calls, asset) == {};
  }

  predicate IsGift(db: Db, asset: Id) {
    asset < |db.assets| && db.assets[asset].purchase.None?
  }

  lemma {:induction false} GiftBounded(w: World, lim: Limits, steps: seq<Step>, asset: Id, most: nat, bound: nat)
    requires Inv(w, lim) && (IsGift(w.db, asset) ==> Load(w, asset) <= bound)
    requires Overlaps(w, lim, steps, asset, most) && lim.perAsset + most <= bound + 1
    ensures IsGift(Run(w, lim, steps).db, asset) ==> Load(Run(w, lim, steps), asset) <= bound
    decreases |steps|
  {
    hide Inv, Load, Live, UnderWay;
    if steps != [] {
      var v := Next(w, lim, steps[0]);
      NextKeeps(w, lim, steps[0]);
      GiftStep(w, lim, steps[0], asset, most, bound);
      GiftBounded(v, lim, steps[1..], asset, most, bound);
    }
  }

  lemma GiftStep(w: World, lim: Limits, step: Step, asset: Id, most: nat, bound: nat)
    requires Inv(w, lim) && (IsGift(w.db, asset) ==> Load(w, asset) <= bound)
    requires |UnderWay(Next(w, lim, step).calls, asset)| <= most && lim.perAsset + most <= bound + 1
    ensures IsGift(Next(w, lim, step).db, asset) ==> Load(Next(w, lim, step), asset) <= bound
  {
    hide Inv, Live, UnderWay;
    var v := Next(w, lim, step);
    StepAssets(w, lim, step, asset);
    if IsGift(v.db, asset) {
      if asset < |w.db.assets| {
        hide Next;
        assert IsGift(w.db, asset) by {
          GiftFromBefore(w, lim, step, asset);
        }
        StepLoad(w, lim, step, asset);
      } else {
        NothingBefore(w, lim, asset);
        GiftLoad(w, lim, asset);
      }
    }
  }

  lemma GiftLoad(w: World, lim: Limits, asset: Id)
    ensures Load(Next(w, lim, ReceiveGift), asset) == Load(w, asset)
  {
  }

  lemma GiftFromBefore(w: World, lim: Limits, step: Step, asset: Id)
    requires IsGift(Next(w, lim, step).db, asset) && asset < |w.db.assets|
    ensures IsGift(w.db, asset)
  {
    StepAssets(w, lim, step, asset);
  }

  /** In every run from the empty tables: an asset received as a gift carries at most the limit, and one more
      for each upload beyond the first that overlaps another.  Without overlap the limit holds. */
  lemma GiftUploadsBounded(lim: Limits, steps: seq<Step>, asset: Id, most: nat)
    requires 1 <= most && Overlaps(EMPTY_WORLD, lim, steps, asset, most)
    ensures var db := Reached(lim, steps).db;
      IsGift(db, asset) ==> Live(db, asset) <= lim.perAsset + (most - 1)
  {
    EmptyInv(lim);
    GiftBounded(EMPTY_WORLD, lim, steps, asset, most, lim.perAsset + (most - 1));
  }

  // ---- Racing uploads ------------------------------------------------------------------

  /** An upload to the asset that nothing but the limit could refuse. */
  predicate Acceptable(db: Db, u: Upload, asset: Id) {
    && u.target == ToAsset(asset) && asset < |db.assets| && db.assets[asset].held
    && 0 < u.size && (u.pdf ==> u.media == Document) && FitsMode(u.media, u.mode)
  }

  lemma PassesTest(w: World, lim: Limits, id: Id, u: Upload, asset: Id)
    requires Acceptable(w.db, u, asset) && id in w.calls && w.calls[id] == Uploading(u, Reading)
    requires Live(w.db, asset) < lim.perAsset
    ensures Next(w, lim, Advance(id, false)) == World(w.db, w.locks, w.calls[id := Uploading(u, Unanswered)])
  {
  }

  /** Once past the test, three more steps insert the row, whatever is on the asset by then. */
  lemma Inserts(w: World, lim: Limits, id: Id, u: Upload, asset: Id)
    requires u.target == ToAsset(asset) && id in w.calls && w.calls[id] == Uploading(u, Unanswered) && !KeyUsed(w.db, u)
    ensures var steps := [Advance(id, false), Advance(id, false), Advance(id, false)];
      var done := Uploading(u, Stored(Ok(|w.db.attachments|)));
      Run(w, lim, steps) == World(w.db.(attachments := w.db.attachments + [NewRow(u)]), w.locks, w.calls[id := done])
  {
    var step := Advance(id, false);
    var a := Next(w, lim, step);
    assert a == World(w.db, w.locks, w.calls[id := Uploading(u, Weighing)]);
    var b := Next(a, lim, step);
    assert b == World(w.db, w.locks, w.calls[id := Uploading(u, Storing)]);
    var c := Next(b, lim, step);
    assert c == World(w.db.(attachments := w.db.attachments + [NewRow(u)]), w.locks,
                      w.calls[id := Uploading(u, Stored(Ok(|w.db.attachments|)))]);
    ThreeSteps(w, lim, step);
  }

  lemma ThreeSteps(w: World, lim: Limits, s: Step)
    ensures Run(w, lim, [s, s, s]) == Next(Next(Next(w, lim, s), lim, s), lim, s)
  {
    hide Next;
    var a := Next(w, lim, s);
    var b := Next(a, lim, s);
    assert [s, s, s][1..] == [s, s] && [s, s][1..] == [s] && [s][1..] == [];
    assert Run(w, lim, [s, s, s]) == Run(a, lim, [s, s]) == Run(b, lim, [s]);
    assert Run(b, lim, [s]) == Run(Next(b, lim, s), lim, []);
  }

  lemma {:induction false} RunAppend(w: World, lim: Limits, first: seq<Step>, rest: seq<Step>)
    ensures Run(w, lim, first + rest) == Run(Run(w, lim, first), lim, rest)
    decreases |first|
  {
    hide Next;
    if first == [] {
      assert first + rest == rest;
    } else {
      assert (first + rest)[0] == first[0] && (first + rest)[1..] == first[1..] + rest;
      RunAppend(Next(w, lim, first[0]), lim, first[1..], rest);
    }
  }

  lemma TwoSteps(w: World, lim: Limits, s: Step, t: Step)
    ensures Run(w, lim, [s, t]) == Next(Next(w, lim, s), lim, t)
  {
    hide Next;
    var a := Next(w, lim, s);
    assert [s, t][1..] == [t] && [t][1..] == [];
    assert Run(w, lim, [s, t]) == Run(a, lim, [t]) == Run(Next(a, lim, t), lim, []);
  }

  function Thrice(id: Id): seq<Step> {
    [Advance(id, false), Advance(id, false), Advance(id, false)]
  }

  /** Both begin, both pass the test, then one inserts and then the other. */
  function Race(i: Id, u: Upload, j: Id, v: Upload): seq<Step> {
    [Begin(i, Uploading(u, Reading)), Begin(j, Uploading(v, Reading))] + [Advance(i, false), Advance(j, false)]
      + Thrice(i) + Thrice(j)
  }

  lemma OtherKeyUnused(db: Db, u: Upload, v: Upload)
    requires !KeyUsed(db, v) && u.key != v.key
    ensures !KeyUsed(db.(attachments := db.attachments + [NewRow(u)]), v)
  {
    var rows := db.attachments + [NewRow(u)];
    var found := FindUpload(rows, |rows|, v.key);
  }

  /** Whatever the limit: with one place left on an asset, two overlapping uploads both succeed and leave one
      attachment more than the limit. */
  lemma RacingUploadsExceed(w: World, lim: Limits, asset: Id, i: Id, u: Upload, j: Id, v: Upload)
    requires Acceptable(w.db, u, asset) && Acceptable(w.db, v, asset)
    requires i !in w.calls && j !in w.calls && i != j && u.key != v.key && !KeyUsed(w.db, u) && !KeyUsed(w.db, v)
    requires Live(w.db, asset) + 1 == lim.perAsset
    ensures Live(Run(w, lim, Race(i, u, j, v)).db, asset) == lim.perAsset + 1
  {
    hide Live, KeyUsed, Next, Run, NewRow;
    var a := World(w.db, w.locks, w.calls[i := Uploading(u, Reading)][j := Uploading(v, Reading)]);
    assert Run(w, lim, [Begin(i, Uploading(u, Reading)), Begin(j, Uploading(v, Reading))]) == a by {
      TwoBegin(w, lim, i, u, j, v);
    }
    var b := World(w.db, w.locks, a.calls[i := Uploading(u, Unanswered)]);
    PassesTest(a, lim, i, u, asset);
    var c := World(w.db, w.locks, b.calls[j := Uploading(v, Unanswered)]);
    PassesTest(b, lim, j, v, asset);
    TwoSteps(a, lim, Advance(i, false), Advance(j, false));
    Inserts(c, lim, i, u, asset);
    var d := Run(c, lim, Thrice(i));
    OtherKeyUnused(w.db, u, v);
    Inserts(d, lim, j, v, asset);
    var begins := [Begin(i, Uploading(u, Reading)), Begin(j, Uploading(v, Reading))];
    var tests := [Advance(i, false), Advance(j, false)];
    RunAppend(w, lim, begins, tests);
    RunAppend(w, lim, begins + tests, Thrice(i));
    RunAppend(w, lim, begins + tests + Thrice(i), Thrice(j));
    BothCounted(w.db, u, v, asset);
  }

  lemma TwoBegin(w: World, lim: Limits, i: Id, u: Upload, j: Id, v: Upload)
    requires i !in w.calls && j !in w.calls && i != j
    ensures Run(w, lim, [Begin(i, Uploading(u, Reading)), Begin(j, Uploading(v, Reading))])
         == World(w.db, w.locks, w.calls[i := Uploading(u, Reading)][j := Uploading(v, Reading)])
  {
    TwoSteps(w, lim, Begin(i, Uploading(u, Reading)), Begin(j, Uploading(v, Reading)));
  }

  lemma BothCounted(db: Db, u: Upload, v: Upload, asset: Id)
    requires u.target == ToAsset(asset) && v.target == ToAsset(asset)
    ensures Live(db.(attachments := db.attachments + [NewRow(u)] + [NewRow(v)]), asset) == Live(db, asset) + 2
  {
    InsertedCount(db.attachments, NewRow(u), asset);
    InsertedCount(db.attachments + [NewRow(u)], NewRow(v), asset);
  }
}
