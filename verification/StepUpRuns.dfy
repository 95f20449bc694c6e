/**
 Runs of the step-up protocol: a passkey prompt redeems a challenge, elevates one session, and the
 elevation is spent on one sensitive change.  Callers are those of passkeys.service.ts and
 auth.service.ts; the steps of any number of them interleave, and each conditional update carries
 a time read earlier.
 */
module StepUpRuns {
  import opened Results
  import opened StepUp

  /** Who redeemed which challenge, as what, by a clock that said stamp. */
  datatype Redemption = Redemption(challenge: Id, purpose: Purpose, user: Option<Id>, stamp: int)

  /** A session elevated at stamp, on the strength of a redemption. */
  datatype Mark = Mark(session: Id, user: Id, stamp: int, redemption: nat)

  /** A sensitive change allowed at stamp, on the strength of a mark. */
  datatype Change = Change(session: Id, user: Id, stamp: int, mark: nat)

  datatype RedeemPhase =
    | Reading
    | Claiming(stamp: int)
    | Holding(redemption: nat)
    | Marking(proof: nat, at: int)

  /** session is the session to elevate, for a step-up; other ceremonies have none. */
  datatype Call =
    | Redeeming(challenge: Id, purpose: Purpose, user: Option<Id>, session: Id, phase: RedeemPhase)
    | Changing(who: Id, on: Id, sent: Option<int>)
    | Finished

  /** issued keeps every challenge as it was issued; marked tells which mark elevated a session. */
  datatype World = World(
    clock: int,
    rows: map<Id, Challenge>, nextSweepAt: int, sessions: map<Id, Session>, calls: map<Id, Call>,
    issued: seq<Challenge>, redemptions: seq<Redemption>, marks: seq<Mark>, changes: seq<Change>,
    marked: map<Id, nat>)

  datatype Step =
    | Tick(ms: nat)
    | Issue(purpose: Purpose, user: Id)
    | Sweep(now: int)
    | OpenSession(session: Id, user: Id)
    | Revoke(session: Id)
    | BeginRedeem(id: Id, challenge: Id, purpose: Purpose, claimant: Option<Id>, session: Id)
    | BeginChange(id: Id, user: Id, session: Id)
    | Advance(id: Id, verified: bool)

  const START := World(0, map[], 0, map[], map[], [], [], [], [], map[])

  /** Sign-in challenges belong to nobody yet; the others to the user who asked. */
  function IssuedFor(purpose: Purpose, user: Id): Option<Id> {
    if purpose == Authentication then None else Some(user)
  }

  function ClaimTurn(w: World, id: Id, c: Call): World
    requires c.Redeeming? && c.phase.Claiming?
  {
    if Claimable(w.rows, c.challenge, c.phase.stamp) then
      w.(rows := Claimed(w.rows, c.challenge, c.phase.stamp),
         redemptions := w.redemptions + [Redemption(c.challenge, c.purpose, c.user, c.phase.stamp)],
         calls := w.calls[id := c.(phase := Holding(|w.redemptions|))])
    else w.(calls := w.calls[id := Finished])
  }

  function MarkTurn(w: World, id: Id, c: Call): World
    requires c.Redeeming? && c.phase.Marking? && c.user.Some?
  {
    var done := w.(calls := w.calls[id := Finished]);
    if Markable(w.sessions, c.session, c.user.value) then
      done.(sessions := WithElevation(w.sessions, c.session, Some(c.phase.at)),
            marks := w.marks + [Mark(c.session, c.user.value, c.phase.at, c.phase.proof)],
            marked := w.marked[c.session := |w.marks|])
    else done
  }

  function RedeemTurn(w: World, id: Id, c: Call, verified: bool): World
    requires c.Redeeming?
  {
    match c.phase
    case Reading =>
      if c.challenge in w.rows && Redeemable(w.rows[c.challenge], c.purpose, c.user) then
        w.(calls := w.calls[id := c.(phase := Claiming(w.clock))])
      else w.(calls := w.calls[id := Finished])
    case Claiming(_) => ClaimTurn(w, id, c)
    case Holding(redemption) =>
      // The assertion is checked against the account; only a step-up goes on to elevate.
      if c.purpose == Reauth && c.user.Some? && verified then
        w.(calls := w.calls[id := c.(phase := Marking(redemption, w.clock))])
      else w.(calls := w.calls[id := Finished])
    case Marking(_, _) => if c.user.Some? then MarkTurn(w, id, c) else w.(calls := w.calls[id := Finished])
  }

  /** The mark that elevated a session. */
  function MarkOf(w: World, session: Id): nat {
    if session in w.marked then w.marked[session] else 0
  }

  function ChangeTurn(w: World, id: Id, c: Call): World
    requires c.Changing?
  {
    if c.sent.None? then w.(calls := w.calls[id := c.(sent := Some(w.clock))])
    else
      var done := w.(calls := w.calls[id := Finished]);
      if Elevated(w.sessions, c.on, c.who, c.sent.value) then
        done.(sessions := WithElevation(w.sessions, c.on, None),
              changes := w.changes + [Change(c.on, c.who, c.sent.value, MarkOf(w, c.on))])
      else done
  }

  function Next(w: World, step: Step): World {
    match step
    case Tick(ms) => w.(clock := w.clock + ms)
    case Issue(purpose, user) =>
      var row := Challenge(purpose, IssuedFor(purpose, user), w.clock + CHALLENGE_TTL_MS, None);
      w.(rows := w.rows[|w.issued| := row], issued := w.issued + [row])
    case Sweep(now) =>
      if now < w.nextSweepAt || w.clock < now then w
      else w.(rows := Swept(w.rows, now), nextSweepAt := now + SWEEP_MIN_INTERVAL_MS)
    case OpenSession(session, user) =>
      if session in w.sessions then w else w.(sessions := w.sessions[session := Session(user, false, None)])
    case Revoke(session) =>
      if session !in w.sessions then w
      else w.(sessions := w.sessions[session := w.sessions[session].(revoked := true)])
    case BeginRedeem(id, challenge, purpose, claimant, session) =>
      if id in w.calls then w else w.(calls := w.calls[id := Redeeming(challenge, purpose, claimant, session, Reading)])
    case BeginChange(id, user, session) =>
      if id in w.calls then w else w.(calls := w.calls[id := Changing(user, session, None)])
    case Advance(id, verified) =>
      if id !in w.calls then w
      else
        match w.calls[id]
        case Redeeming(_, _, _, _, _) => RedeemTurn(w, id, w.calls[id], verified)
        case Changing(_, _, _) => ChangeTurn(w, id, w.calls[id])
        case Finished => w
  }

  function Run(w: World, steps: seq<Step>): World
    decreases |steps|
  {
    if steps == [] then w else Run(Next(w, steps[0]), steps[1..])
  }

  // ---- What every reachable state satisfies --------------------------------------------

  /** A row is the challenge that was issued, claimed or not. */
  predicate RowOk(w: World, id: Id)
    requires id in w.rows
  {
    id < |w.issued| && w.issued[id].consumedAt.None? && w.rows[id].(consumedAt := None) == w.issued[id]
  }

  /** A redeemed challenge can never be claimed again. */
  predicate Spent(w: World, id: Id) {
    id < |w.issued| && (id in w.rows ==> w.rows[id].consumedAt.Some?)
  }

  predicate RightlyRedeemed(issued: seq<Challenge>, e: Redemption) {
    && e.challenge < |issued|
    && e.purpose == issued[e.challenge].purpose
    && (issued[e.challenge].user.Some? ==> e.user == issued[e.challenge].user)
    && e.stamp < issued[e.challenge].expiresAt
  }

  predicate RedemptionOk(w: World, k: nat)
    requires k < |w.redemptions|
  {
    RightlyRedeemed(w.issued, w.redemptions[k]) && Spent(w, w.redemptions[k].challenge)
  }

  predicate OtherChallenge(es: seq<Redemption>, j: nat, k: nat)
    requires j < |es| && k < |es|
  {
    es[j].challenge != es[k].challenge
  }

  predicate Proves(w: World, redemption: nat, user: Id) {
    redemption < |w.redemptions| && w.redemptions[redemption].purpose == Reauth && w.redemptions[redemption].user == Some(user)
  }

  predicate MarkOk(w: World, m: nat)
    requires m < |w.marks|
  {
    Proves(w, w.marks[m].redemption, w.marks[m].user)
  }

  predicate OtherProof(ms: seq<Mark>, j: nat, k: nat)
    requires j < |ms| && k < |ms|
  {
    ms[j].redemption != ms[k].redemption
  }

  predicate RightlyChanged(marks: seq<Mark>, c: Change) {
    && c.mark < |marks|
    && marks[c.mark].session == c.session && marks[c.mark].user == c.user
    && c.stamp <= marks[c.mark].stamp + REAUTH_VALIDITY_MS
  }

  predicate OtherMark(cs: seq<Change>, j: nat, k: nat)
    requires j < |cs| && k < |cs|
  {
    cs[j].mark != cs[k].mark
  }

  predicate Unspent(w: World, mark: nat) {
    forall j | 0 <= j < |w.changes| :: w.changes[j].mark != mark
  }

  /** An elevated session remembers a mark of its own that no change has used. */
  predicate SessionOk(w: World, s: Id)
    requires s in w.sessions
  {
    w.sessions[s].reauthenticatedAt.Some? ==>
      && s in w.marked && w.marked[s] < |w.marks|
      && w.marks[w.marked[s]].session == s && w.marks[w.marked[s]].user == w.sessions[s].user
      && w.marks[w.marked[s]].stamp == w.sessions[s].reauthenticatedAt.value
      && Unspent(w, w.marked[s])
  }

  /** The redemption a call still holds in its hands. */
  function Held(c: Call): Option<nat> {
    if c.Redeeming? && c.phase.Holding? then Some(c.phase.redemption)
    else if c.Redeeming? && c.phase.Marking? then Some(c.phase.proof)
    else None
  }

  predicate Unmarked(w: World, redemption: nat) {
    forall m | 0 <= m < |w.marks| :: w.marks[m].redemption != redemption
  }

  predicate CallOk(w: World, c: Call) {
    && (c.Redeeming? && c.phase.Claiming? ==>
          && c.challenge < |w.issued| && c.purpose == w.issued[c.challenge].purpose
          && (w.issued[c.challenge].user.Some? ==> c.user == w.issued[c.challenge].user))
    && (Held(c).Some? ==>
          && Held(c).value < |w.redemptions| && Unmarked(w, Held(c).value)
          && w.redemptions[Held(c).value].purpose == c.purpose && w.redemptions[Held(c).value].user == c.user)
    && (c.Redeeming? && c.phase.Marking? ==> c.purpose == Reauth && c.user.Some?)
  }

  predicate OtherHolding(w: World, a: Id, b: Id)
    requires a in w.calls && b in w.calls
  {
    a != b && Held(w.calls[a]).Some? ==> Held(w.calls[a]) != Held(w.calls[b])
  }

  ghost predicate Redeemed(w: World) {
    && (forall id | id in w.rows :: RowOk(w, id))
    && (forall k | 0 <= k < |w.redemptions| :: RedemptionOk(w, k))
    && (forall j, k | 0 <= j < k < |w.redemptions| :: OtherChallenge(w.redemptions, j, k))
  }

  ghost predicate Marked(w: World) {
    && (forall m | 0 <= m < |w.marks| :: MarkOk(w, m))
    && (forall j, k | 0 <= j < k < |w.marks| :: OtherProof(w.marks, j, k))
    && (forall s | s in w.sessions :: SessionOk(w, s))
  }

  ghost predicate Changed(w: World) {
    && (forall j | 0 <= j < |w.changes| :: RightlyChanged(w.marks, w.changes[j]))
    && (forall j, k | 0 <= j < k < |w.changes| :: OtherMark(w.changes, j, k))
  }

  ghost predicate CallsOk(w: World) {
    && (forall r | r in w.calls :: CallOk(w, w.calls[r]))
    && (forall a, b | a in w.calls && b in w.calls :: OtherHolding(w, a, b))
  }

  ghost predicate Inv(w: World) {
    Redeemed(w) && Marked(w) && Changed(w) && CallsOk(w)
  }

  // ---- Each step keeps it --------------------------------------------------------------

  /** Nothing was redeemed, marked or changed, and issued rows only grew. */
  ghost predicate SameHistory(w: World, v: World) {
    && v.redemptions == w.redemptions && v.marks == w.marks && v.changes == w.changes && v.marked == w.marked
    && w.issued <= v.issued
  }

  lemma HistoryKeepsCalls(w: World, v: World)
    requires CallsOk(w) && SameHistory(w, v) && v.calls == w.calls
    ensures CallsOk(v)
  {
    forall r | r in v.calls
      ensures CallOk(v, v.calls[r])
    {
      assert CallOk(w, w.calls[r]);
    }
    forall a, b | a in v.calls && b in v.calls
      ensures OtherHolding(v, a, b)
    {
      assert OtherHolding(w, a, b);
    }
  }

  lemma HistoryKeepsMarks(w: World, v: World)
    requires Marked(w) && Changed(w) && SameHistory(w, v) && v.sessions == w.sessions
    ensures Marked(v) && Changed(v)
  {
    forall m | 0 <= m < |v.marks|
      ensures MarkOk(v, m)
    {
      assert MarkOk(w, m);
    }
    forall j, k | 0 <= j < k < |v.marks|
      ensures OtherProof(v.marks, j, k)
    {
      assert OtherProof(w.marks, j, k);
    }
    forall s | s in v.sessions
      ensures SessionOk(v, s)
    {
      assert SessionOk(w, s);
    }
  }

  /** Rows may be added, dropped or stay. */
  lemma HistoryKeepsRedemptions(w: World, v: World)
    requires Redeemed(w) && SameHistory(w, v)
    requires forall id | id in v.rows :: if id in w.rows then v.rows[id] == w.rows[id] else |w.issued| <= id
    requires forall id | id in v.rows :: RowOk(v, id)
    ensures Redeemed(v)
  {
    forall k | 0 <= k < |v.redemptions|
      ensures RedemptionOk(v, k)
    {
      assert RedemptionOk(w, k);
    }
    forall j, k | 0 <= j < k < |v.redemptions|
      ensures OtherChallenge(v.redemptions, j, k)
    {
      assert OtherChallenge(w.redemptions, j, k);
    }
  }

  lemma RowsKeep(w: World, v: World)
    requires Inv(w) && SameHistory(w, v) && v.sessions == w.sessions && v.calls == w.calls
    requires forall id | id in v.rows :: if id in w.rows then v.rows[id] == w.rows[id] else |w.issued| <= id
    requires forall id | id in v.rows :: RowOk(v, id)
    ensures Inv(v)
  {
    HistoryKeepsRedemptions(w, v);
    HistoryKeepsMarks(w, v);
    HistoryKeepsCalls(w, v);
  }

  lemma SessionsKeep(w: World, v: World, s: Id)
    requires Inv(w) && v == w.(sessions := v.sessions) && s in v.sessions
    requires v.sessions == w.sessions[s := v.sessions[s]] && SessionOk(v, s)
    ensures Inv(v)
  {
    assert SameHistory(w, v);
    HistoryKeepsRedemptions(w, v) by {
      forall id | id in v.rows
        ensures RowOk(v, id)
      {
        assert RowOk(w, id);
      }
    }
    HistoryKeepsCalls(w, v);
    forall m | 0 <= m < |v.marks|
      ensures MarkOk(v, m)
    {
      assert MarkOk(w, m);
    }
    forall t | t in v.sessions
      ensures SessionOk(v, t)
    {
      assert t != s ==> SessionOk(w, t);
    }
  }

  /** One call moves on; what it holds, nobody else holds. */
  lemma CallMoves(w: World, v: World, id: Id)
    requires CallsOk(w) && SameHistory(w, v)
    requires id in v.calls && v.calls == w.calls[id := v.calls[id]] && CallOk(v, v.calls[id])
    requires Held(v.calls[id]).Some? ==> id in w.calls && Held(w.calls[id]) == Held(v.calls[id])
    ensures CallsOk(v)
  {
    forall r | r in v.calls
      ensures CallOk(v, v.calls[r])
    {
      assert r != id ==> CallOk(w, w.calls[r]);
    }
    forall a, b | a in v.calls && b in v.calls
      ensures OtherHolding(v, a, b)
    {
      assert a in w.calls && b in w.calls ==> OtherHolding(w, a, b);
    }
  }

  lemma OnlyCallKeeps(w: World, v: World, id: Id)
    requires Inv(w) && v == w.(calls := v.calls)
    requires id in v.calls && v.calls == w.calls[id := v.calls[id]] && CallOk(v, v.calls[id])
    requires Held(v.calls[id]).Some? ==> id in w.calls && Held(w.calls[id]) == Held(v.calls[id])
    ensures Inv(v)
  {
    assert SameHistory(w, v);
    CallMoves(w, v, id);
    HistoryKeepsMarks(w, v);
    HistoryKeepsRedemptions(w, v) by {
      forall k | k in v.rows
        ensures RowOk(v, k)
      {
        assert RowOk(w, k);
      }
    }
  }

  // ---- Claiming a challenge ------------------------------------------------------------

  lemma ClaimKeepsRedemptions(w: World, v: World, e: Redemption)
    requires Redeemed(w) && Claimable(w.rows, e.challenge, e.stamp) && RightlyRedeemed(w.issued, e)
    requires v.rows == Claimed(w.rows, e.challenge, e.stamp) && v.issued == w.issued
    requires v.redemptions == w.redemptions + [e]
    ensures Redeemed(v)
  {
    forall id | id in v.rows
      ensures RowOk(v, id)
    {
      assert RowOk(w, id);
    }
    forall k | 0 <= k < |v.redemptions|
      ensures RedemptionOk(v, k)
    {
      assert k < |w.redemptions| ==> RedemptionOk(w, k);
      assert RowOk(w, e.challenge);
    }
    forall j, k | 0 <= j < k < |v.redemptions|
      ensures OtherChallenge(v.redemptions, j, k)
    {
      assert k < |w.redemptions| ==> OtherChallenge(w.redemptions, j, k);
      assert RedemptionOk(w, j);
    }
  }

  lemma ClaimKeepsCalls(w: World, v: World, id: Id)
    requires CallsOk(w) && (forall m | 0 <= m < |w.marks| :: MarkOk(w, m))
    requires w.redemptions <= v.redemptions && |v.redemptions| == |w.redemptions| + 1
    requires v.marks == w.marks && v.issued == w.issued
    requires id in v.calls && v.calls == w.calls[id := v.calls[id]] && CallOk(v, v.calls[id])
    requires Held(v.calls[id]) == Some(|w.redemptions|)
    ensures CallsOk(v)
  {
    forall r | r in v.calls
      ensures CallOk(v, v.calls[r])
    {
      assert r != id ==> CallOk(w, w.calls[r]);
    }
    forall a, b | a in v.calls && b in v.calls
      ensures OtherHolding(v, a, b)
    {
      assert a in w.calls && b in w.calls ==> OtherHolding(w, a, b);
      assert a in w.calls ==> CallOk(w, w.calls[a]);
      assert b in w.calls ==> CallOk(w, w.calls[b]);
    }
  }

  /** A redemption nobody has marked yet. */
  lemma NewProofUnmarked(w: World)
    requires forall m | 0 <= m < |w.marks| :: MarkOk(w, m)
    ensures Unmarked(w, |w.redemptions|)
  {
    forall m | 0 <= m < |w.marks|
      ensures w.marks[m].redemption != |w.redemptions|
    {
      assert MarkOk(w, m);
    }
  }

  lemma ClaimKeepsMarks(w: World, v: World)
    requires Marked(w) && Changed(w) && w.redemptions <= v.redemptions
    requires v.marks == w.marks && v.changes == w.changes && v.marked == w.marked && v.sessions == w.sessions
    ensures Marked(v) && Changed(v)
  {
    forall m | 0 <= m < |v.marks|
      ensures MarkOk(v, m)
    {
      assert MarkOk(w, m);
    }
    forall s | s in v.sessions
      ensures SessionOk(v, s)
    {
      assert SessionOk(w, s);
    }
  }

  lemma ClaimKeeps(w: World, id: Id)
    requires Inv(w) && id in w.calls && w.calls[id].Redeeming? && w.calls[id].phase.Claiming?
    ensures Inv(ClaimTurn(w, id, w.calls[id]))
  {
    var c := w.calls[id];
    var v := ClaimTurn(w, id, c);
    assert CallOk(w, c);
    if Claimable(w.rows, c.challenge, c.phase.stamp) {
      assert RowOk(w, c.challenge);
      NewProofUnmarked(w);
      ClaimKeepsRedemptions(w, v, Redemption(c.challenge, c.purpose, c.user, c.phase.stamp));
      ClaimKeepsMarks(w, v);
      assert Unmarked(v, |w.redemptions|);
      ClaimKeepsCalls(w, v, id);
    } else {
      OnlyCallKeeps(w, v, id);
    }
  }

  // ---- Elevating a session -------------------------------------------------------------

  lemma MarkKeepsMarks(w: World, v: World, m: Mark)
    requires Marked(w) && Changed(w) && Markable(w.sessions, m.session, m.user)
    requires Proves(w, m.redemption, m.user) && Unmarked(w, m.redemption)
    requires v.sessions == WithElevation(w.sessions, m.session, Some(m.stamp)) && v.marks == w.marks + [m]
    requires v.marked == w.marked[m.session := |w.marks|]
    requires v.redemptions == w.redemptions && v.changes == w.changes
    ensures Marked(v) && Changed(v)
  {
    forall k | 0 <= k < |v.marks|
      ensures MarkOk(v, k)
    {
      assert k < |w.marks| ==> MarkOk(w, k);
    }
    forall j, k | 0 <= j < k < |v.marks|
      ensures OtherProof(v.marks, j, k)
    {
      assert k < |w.marks| ==> OtherProof(w.marks, j, k);
    }
    NewMarkUnspent(w);
    forall s | s in v.sessions
      ensures SessionOk(v, s)
    {
      assert SessionOk(w, s);
    }
    forall j | 0 <= j < |v.changes|
      ensures RightlyChanged(v.marks, v.changes[j])
    {
      assert RightlyChanged(w.marks, w.changes[j]);
    }
  }

  lemma NewMarkUnspent(w: World)
    requires Changed(w)
    ensures Unspent(w, |w.marks|)
  {
    forall j | 0 <= j < |w.changes|
      ensures w.changes[j].mark != |w.marks|
    {
      assert RightlyChanged(w.marks, w.changes[j]);
    }
  }

  /** The proof goes from the call's hands into the mark. */
  lemma MarkKeepsCalls(w: World, v: World, id: Id, m: Mark)
    requires CallsOk(w) && id in w.calls && Held(w.calls[id]) == Some(m.redemption)
    requires v.calls == w.calls[id := Finished] && v.marks == w.marks + [m]
    requires v.redemptions == w.redemptions && v.issued == w.issued
    ensures CallsOk(v)
  {
    forall r | r in v.calls
      ensures CallOk(v, v.calls[r])
    {
      if r != id {
        assert CallOk(w, w.calls[r]) && OtherHolding(w, id, r);
      }
    }
    forall a, b | a in v.calls && b in v.calls
      ensures OtherHolding(v, a, b)
    {
      assert a in w.calls && b in w.calls ==> OtherHolding(w, a, b);
    }
  }

  lemma MarkKeeps(w: World, id: Id)
    requires Inv(w) && id in w.calls && w.calls[id].Redeeming? && w.calls[id].phase.Marking?
    requires w.calls[id].user.Some?
    ensures Inv(MarkTurn(w, id, w.calls[id]))
  {
    var c := w.calls[id];
    var v := MarkTurn(w, id, c);
    assert CallOk(w, c);
    if Markable(w.sessions, c.session, c.user.value) {
      var m := Mark(c.session, c.user.value, c.phase.at, c.phase.proof);
      MarkKeepsMarks(w, v, m);
      MarkKeepsCalls(w, v, id, m);
      SameRedemptions(w, v);
    } else {
      OnlyCallKeeps(w, v, id);
    }
  }

  lemma SameRedemptions(w: World, v: World)
    requires Redeemed(w) && v.rows == w.rows && v.issued == w.issued && v.redemptions == w.redemptions
    ensures Redeemed(v)
  {
    forall id | id in v.rows
      ensures RowOk(v, id)
    {
      assert RowOk(w, id);
    }
    forall k | 0 <= k < |v.redemptions|
      ensures RedemptionOk(v, k)
    {
      assert RedemptionOk(w, k);
    }
  }

  // ---- Spending an elevation -----------------------------------------------------------

  lemma ChangeKeepsMarks(w: World, v: World, c: Change)
    requires Marked(w) && Changed(w) && Elevated(w.sessions, c.session, c.user, c.stamp)
    requires c.session in w.marked && c.mark == w.marked[c.session]
    requires v.sessions == WithElevation(w.sessions, c.session, None) && v.changes == w.changes + [c]
    requires v.marks == w.marks && v.marked == w.marked && v.redemptions == w.redemptions
    ensures Marked(v) && Changed(v)
  {
    assert SessionOk(w, c.session);
    forall m | 0 <= m < |v.marks|
      ensures MarkOk(v, m)
    {
      assert MarkOk(w, m);
    }
    forall s | s in v.sessions
      ensures SessionOk(v, s)
    {
      assert SessionOk(w, s);
    }
    forall j | 0 <= j < |v.changes|
      ensures RightlyChanged(v.marks, v.changes[j])
    {
      assert j < |w.changes| ==> RightlyChanged(w.marks, w.changes[j]);
    }
    forall j, k | 0 <= j < k < |v.changes|
      ensures OtherMark(v.changes, j, k)
    {
      assert k < |w.changes| ==> OtherMark(w.changes, j, k);
    }
  }

  lemma ChangeKeeps(w: World, id: Id)
    requires Inv(w) && id in w.calls && w.calls[id].Changing?
    ensures Inv(ChangeTurn(w, id, w.calls[id]))
  {
    var c := w.calls[id];
    var v := ChangeTurn(w, id, c);
    if c.sent.Some? && Elevated(w.sessions, c.on, c.who, c.sent.value) {
      ChangeKeepsMarks(w, v, Change(c.on, c.who, c.sent.value, MarkOf(w, c.on)));
      SameRedemptions(w, v);
      FinishKeepsCalls(w, v, id);
    } else {
      OnlyCallKeeps(w, v, id);
    }
  }

  lemma FinishKeepsCalls(w: World, v: World, id: Id)
    requires CallsOk(w) && v.calls == w.calls[id := Finished]
    requires v.redemptions == w.redemptions && v.marks == w.marks && v.issued == w.issued
    ensures CallsOk(v)
  {
    forall r | r in v.calls
      ensures CallOk(v, v.calls[r])
    {
      assert r != id ==> CallOk(w, w.calls[r]);
    }
    forall a, b | a in v.calls && b in v.calls
      ensures OtherHolding(v, a, b)
    {
      assert a in w.calls && b in w.calls ==> OtherHolding(w, a, b);
    }
  }

  // ---- All steps -----------------------------------------------------------------------

  lemma RedeemKeeps(w: World, id: Id, verified: bool)
    requires Inv(w) && id in w.calls && w.calls[id].Redeeming?
    ensures Inv(RedeemTurn(w, id, w.calls[id], verified))
  {
    var c := w.calls[id];
    assert CallOk(w, c);
    match c.phase
    case Claiming(_) => ClaimKeeps(w, id);
    case Marking(_, _) => MarkKeeps(w, id);
    case Reading =>
      assert c.challenge in w.rows ==> RowOk(w, c.challenge);
      OnlyCallKeeps(w, RedeemTurn(w, id, c, verified), id);
    case Holding(_) => OnlyCallKeeps(w, RedeemTurn(w, id, c, verified), id);
  }

  lemma IssueKeeps(w: World, purpose: Purpose, user: Id)
    requires Inv(w)
    ensures Inv(Next(w, Issue(purpose, user)))
  {
    var v := Next(w, Issue(purpose, user));
    forall id | id in v.rows
      ensures RowOk(v, id) && if id in w.rows then v.rows[id] == w.rows[id] else |w.issued| <= id
    {
      assert id in w.rows ==> RowOk(w, id);
    }
    RowsKeep(w, v);
  }

  lemma SweepKeeps(w: World, now: int)
    requires Inv(w)
    ensures Inv(Next(w, Sweep(now)))
  {
    var v := Next(w, Sweep(now));
    forall id | id in v.rows
      ensures RowOk(v, id)
    {
      assert RowOk(w, id);
    }
    RowsKeep(w, v);
  }

  lemma SessionStepKeeps(w: World, step: Step)
    requires Inv(w) && (step.OpenSession? || step.Revoke?)
    ensures Inv(Next(w, step))
  {
    var v := Next(w, step);
    match step
    case OpenSession(s, user) =>
      if s !in w.sessions {
        SessionsKeep(w, v, s);
      }
    case Revoke(s) =>
      if s in w.sessions {
        assert SessionOk(w, s);
        SessionsKeep(w, v, s);
      }
  }

  lemma NextKeeps(w: World, step: Step)
    requires Inv(w)
    ensures Inv(Next(w, step))
  {
    match step
    case Tick(ms) =>
      forall id | id in w.rows
        ensures RowOk(Next(w, step), id)
      {
        assert RowOk(w, id);
      }
      RowsKeep(w, Next(w, step));
    case Issue(purpose, user) => IssueKeeps(w, purpose, user);
    case Sweep(now) => SweepKeeps(w, now);
    case OpenSession(_, _) => SessionStepKeeps(w, step);
    case Revoke(_) => SessionStepKeeps(w, step);
    case BeginRedeem(id, _, _, _, _) =>
      if id !in w.calls {
        OnlyCallKeeps(w, Next(w, step), id);
      }
    case BeginChange(id, _, _) =>
      if id !in w.calls {
        OnlyCallKeeps(w, Next(w, step), id);
      }
    case Advance(id, verified) =>
      if id in w.calls && w.calls[id].Redeeming? {
        RedeemKeeps(w, id, verified);
      } else if id in w.calls && w.calls[id].Changing? {
        ChangeKeeps(w, id);
      }
  }

  lemma {:induction false} RunKeeps(w: World, steps: seq<Step>)
    requires Inv(w)
    ensures Inv(Run(w, steps))
    decreases |steps|
  {
    if steps != [] {
      NextKeeps(w, steps[0]);
      RunKeeps(Next(w, steps[0]), steps[1..]);
    }
  }

  // ---- The guarantees ------------------------------------------------------------------

  /** Every redemption is of a challenge issued for that purpose, to that user if to anyone, and not
      yet expired by the redeemer's clock; no challenge is redeemed twice. */
  lemma ChallengesRedeemedOnce(steps: seq<Step>, j: nat, k: nat)
    requires j < |Run(START, steps).redemptions| && k < |Run(START, steps).redemptions|
    ensures var w := Run(START, steps);
      && RightlyRedeemed(w.issued, w.redemptions[j])
      && (w.redemptions[j].challenge == w.redemptions[k].challenge ==> j == k)
  {
    RunKeeps(START, steps);
    var w := Run(START, steps);
    assert RedemptionOk(w, j);
    assert j < k ==> OtherChallenge(w.redemptions, j, k);
    assert k < j ==> OtherChallenge(w.redemptions, k, j);
  }

  /** Every change rests on a mark of its own session and user, no older than the validity allows,
      and that mark on a redeemed step-up challenge of the same user. */
  lemma ChangesRestOnPrompts(steps: seq<Step>, j: nat)
    requires j < |Run(START, steps).changes|
    ensures var w := Run(START, steps);
      && RightlyChanged(w.marks, w.changes[j])
      && Proves(w, w.marks[w.changes[j].mark].redemption, w.changes[j].user)
  {
    RunKeeps(START, steps);
    var w := Run(START, steps);
    assert RightlyChanged(w.marks, w.changes[j]);
    assert MarkOk(w, w.changes[j].mark);
  }

  /** Indices of the changes of one user, and of the step-up challenges that user redeemed. */
  ghost function ChangesOf(w: World, user: Id): set<nat> {
    set j | 0 <= j < |w.changes| && w.changes[j].user == user
  }

  ghost function PromptsOf(w: World, user: Id): set<nat> {
    set k | 0 <= k < |w.redemptions| && w.redemptions[k].purpose == Reauth && w.redemptions[k].user == Some(user)
  }

  function PromptOf(w: World, j: nat): nat {
    if j < |w.changes| && w.changes[j].mark < |w.marks| then w.marks[w.changes[j].mark].redemption else 0
  }

  /** An injection from one finite set into another. */
  lemma {:induction false} InjectionCounts(s: set<nat>, t: set<nat>, w: World)
    requires forall j | j in s :: PromptOf(w, j) in t
    requires forall i, j | i in s && j in s && i != j :: PromptOf(w, i) != PromptOf(w, j)
    ensures |s| <= |t|
    decreases s
  {
    if s != {} {
      var j :| j in s;
      InjectionCounts(s - {j}, t - {PromptOf(w, j)}, w);
    }
  }

  lemma PromptsDiffer(w: World, i: nat, j: nat)
    requires Inv(w) && i < j < |w.changes|
    ensures PromptOf(w, i) != PromptOf(w, j)
  {
    assert RightlyChanged(w.marks, w.changes[i]) && RightlyChanged(w.marks, w.changes[j]);
    assert OtherMark(w.changes, i, j);
    var a, b := w.changes[i].mark, w.changes[j].mark;
    assert if a < b then OtherProof(w.marks, a, b) else OtherProof(w.marks, b, a);
  }

  /** One passkey prompt authorizes at most one sensitive change: for every user, the changes never
      outnumber the step-up challenges redeemed. */
  lemma ChangesNeverOutnumberPrompts(steps: seq<Step>, user: Id)
    ensures |ChangesOf(Run(START, steps), user)| <= |PromptsOf(Run(START, steps), user)|
  {
    RunKeeps(START, steps);
    var w := Run(START, steps);
    forall j | j in ChangesOf(w, user)
      ensures PromptOf(w, j) in PromptsOf(w, user)
    {
      ChangesRestOnPrompts(steps, j);
    }
    forall i, j | i in ChangesOf(w, user) && j in ChangesOf(w, user) && i != j
      ensures PromptOf(w, i) != PromptOf(w, j)
    {
      if i < j {
        PromptsDiffer(w, i, j);
      } else {
        PromptsDiffer(w, j, i);
      }
    }
    InjectionCounts(ChangesOf(w, user), PromptsOf(w, user), w);
  }
}
