/**
 What the step-up protocol does for those who follow it, and what it never does for a session that has
 been revoked.
 */
module StepUpEffects {
  import opened Results
  import opened StepUp
  import opened StepUpRuns

  // ---- Revoked sessions ----------------------------------------------------------------

  predicate IsRevoked(w: World, s: Id) {
    s in w.sessions && w.sessions[s].revoked
  }

  /** Nothing new was marked or changed for the session. */
  ghost predicate GainsNothing(w: World, v: World, s: Id) {
    && w.marks <= v.marks && w.changes <= v.changes
    && (forall m | |w.marks| <= m < |v.marks| :: v.marks[m].session != s)
    && (forall j | |w.changes| <= j < |v.changes| :: v.changes[j].session != s)
  }

  lemma StepAfterRevocation(w: World, step: Step, s: Id)
    requires IsRevoked(w, s)
    ensures IsRevoked(Next(w, step), s) && GainsNothing(w, Next(w, step), s)
  {
    match step
    case Advance(id, verified) =>
      if id in w.calls {
        hide Swept;
        AdvanceAfterRevocation(w, id, verified, s);
      }
    case _ =>
  }

  lemma AdvanceAfterRevocation(w: World, id: Id, verified: bool, s: Id)
    requires IsRevoked(w, s) && id in w.calls
    ensures var v := Next(w, Advance(id, verified)); IsRevoked(v, s) && GainsNothing(w, v, s)
  {
  }

  lemma GainsChain(w: World, v: World, u: World, s: Id)
    requires GainsNothing(w, v, s) && GainsNothing(v, u, s)
    ensures GainsNothing(w, u, s)
  {
    forall m | |w.marks| <= m < |u.marks|
      ensures u.marks[m].session != s
    {
      assert m < |v.marks| ==> u.marks[m] == v.marks[m];
    }
    forall j | |w.changes| <= j < |u.changes|
      ensures u.changes[j].session != s
    {
      assert j < |v.changes| ==> u.changes[j] == v.changes[j];
    }
  }

  /** However calls interleave and whatever was under way: a revoked session stays revoked, is never elevated
      and never allowed a change again. */
  lemma {:induction false} RevokedGainsNothing(w: World, steps: seq<Step>, s: Id)
    requires IsRevoked(w, s)
    ensures IsRevoked(Run(w, steps), s) && GainsNothing(w, Run(w, steps), s)
    decreases |steps|
  {
    hide Next;
    if steps != [] {
      StepAfterRevocation(w, steps[0], s);
      RevokedGainsNothing(Next(w, steps[0]), steps[1..], s);
      GainsChain(w, Next(w, steps[0]), Run(w, steps), s);
    }
  }

  // ---- An honest prompt ----------------------------------------------------------------

  /** Reading, claiming, checking and marking. */
  function Redeems(r: Id): seq<Step> {
    [Advance(r, true), Advance(r, true), Advance(r, true), Advance(r, true)]
  }

  /** A challenge is issued, answered after a while, and the change asked for a while later. */
  function Prompted(user: Id, session: Id, challenge: Id, r: Id, c: Id, answer: nat, use: nat): seq<Step> {
    [Issue(Reauth, user), Tick(answer), BeginRedeem(r, challenge, Reauth, Some(user), session)] + Redeems(r)
    + [Tick(use), BeginChange(c, user, session), Advance(c, true), Advance(c, true)]
  }

  lemma {:induction false} RunAppend(w: World, first: seq<Step>, rest: seq<Step>)
    ensures Run(w, first + rest) == Run(Run(w, first), rest)
    decreases |first|
  {
    hide Next;
    if first == [] {
      assert first + rest == rest;
    } else {
      assert (first + rest)[0] == first[0] && (first + rest)[1..] == first[1..] + rest;
      RunAppend(Next(w, first[0]), first[1..], rest);
    }
  }

  lemma FourSteps(w: World, s: seq<Step>)
    requires |s| == 4
    ensures Run(w, s) == Next(Next(Next(Next(w, s[0]), s[1]), s[2]), s[3])
  {
    hide Next;
    var t := s[1..];
    assert t[0] == s[1] && t[1..][0] == s[2] && t[1..][1..][0] == s[3] && t[1..][1..][1..] == [];
    var a := Next(w, s[0]);
    var b := Next(a, s[1]);
    var c := Next(b, s[2]);
    assert Run(w, s) == Run(a, t) == Run(b, t[1..]) == Run(c, t[1..][1..]) == Run(Next(c, s[3]), t[1..][1..][1..]);
  }

  lemma ThreeSteps(w: World, s: seq<Step>)
    requires |s| == 3
    ensures Run(w, s) == Next(Next(Next(w, s[0]), s[1]), s[2])
  {
    hide Next;
    var t := s[1..];
    assert t[0] == s[1] && t[1..][0] == s[2] && t[1..][1..] == [];
    var a := Next(w, s[0]);
    var b := Next(a, s[1]);
    assert Run(w, s) == Run(a, t) == Run(b, t[1..]) == Run(Next(b, s[2]), t[1..][1..]);
  }

  /** The session once the prompt has been answered: elevated at the time of the answer. */
  lemma RedeemElevates(w: World, user: Id, session: Id, n: Id, r: Id)
    requires n in w.rows && w.rows[n] == Challenge(Reauth, Some(user), w.rows[n].expiresAt, None) && w.clock < w.rows[n].expiresAt
    requires session in w.sessions && w.sessions[session].user == user && !w.sessions[session].revoked
    requires r in w.calls && w.calls[r] == Redeeming(n, Reauth, Some(user), session, Reading)
    ensures var v := Run(w, Redeems(r));
      && v.clock == w.clock && v.changes == w.changes && v.calls == w.calls[r := Finished]
      && v.sessions == w.sessions[session := Session(user, false, Some(w.clock))]
      && session in v.marked && v.marked[session] == |w.marks|
  {
    var step := Advance(r, true);
    FourSteps(w, Redeems(r));
    var a := Next(w, step);
    assert a == w.(calls := w.calls[r := Redeeming(n, Reauth, Some(user), session, Claiming(w.clock))]);
    var b := Next(a, step);
    assert b.calls == w.calls[r := Redeeming(n, Reauth, Some(user), session, Holding(|w.redemptions|))];
    var c := Next(b, step);
    assert c.calls == w.calls[r := Redeeming(n, Reauth, Some(user), session, Marking(|w.redemptions|, w.clock))];
  }

  /** Whoever answers a prompt within its five minutes and asks for the change within five more is allowed it,
      whatever else is going on before. */
  lemma HonestPromptAllowsChange(w: World, user: Id, session: Id, r: Id, c: Id, answer: nat, use: nat)
    requires session in w.sessions && w.sessions[session].user == user && !w.sessions[session].revoked
    requires r !in w.calls && c !in w.calls && r != c && answer < 300_000 && use <= 300_000
    ensures var v := Run(w, Prompted(user, session, |w.issued|, r, c, answer, use));
      && v.changes == w.changes + [Change(session, user, w.clock + answer + use, |w.marks|)]
      && session in v.sessions && v.sessions[session].reauthenticatedAt == None
  {
    hide Run, Next;
    var n := |w.issued|;
    var opening := [Issue(Reauth, user), Tick(answer), BeginRedeem(r, n, Reauth, Some(user), session)];
    var closing := [Tick(use), BeginChange(c, user, session), Advance(c, true), Advance(c, true)];
    RunAppend(w, opening + Redeems(r), closing);
    RunAppend(w, opening, Redeems(r));
    var a := Run(w, opening);
    Opening(w, user, session, n, r, answer);
    RedeemElevates(a, user, session, n, r);
    Closing(Run(a, Redeems(r)), user, session, c, use, |w.marks|);
  }

  lemma Opening(w: World, user: Id, session: Id, n: Id, r: Id, answer: nat)
    requires n == |w.issued| && r !in w.calls
    ensures var a := Run(w, [Issue(Reauth, user), Tick(answer), BeginRedeem(r, n, Reauth, Some(user), session)]);
      && a.clock == w.clock + answer && a.changes == w.changes && a.marks == w.marks && a.sessions == w.sessions
      && a.calls == w.calls[r := Redeeming(n, Reauth, Some(user), session, Reading)]
      && n in a.rows && a.rows[n] == Challenge(Reauth, Some(user), w.clock + 300_000, None)
  {
    ThreeSteps(w, [Issue(Reauth, user), Tick(answer), BeginRedeem(r, n, Reauth, Some(user), session)]);
  }

  lemma Closing(w: World, user: Id, session: Id, c: Id, use: nat, mark: nat)
    requires session in w.sessions && w.sessions[session].user == user && !w.sessions[session].revoked && c !in w.calls
    requires w.sessions[session].reauthenticatedAt == Some(w.clock) && use <= 300_000
    requires session in w.marked && w.marked[session] == mark
    ensures var v := Run(w, [Tick(use), BeginChange(c, user, session), Advance(c, true), Advance(c, true)]);
      && v.changes == w.changes + [Change(session, user, w.clock + use, mark)]
      && session in v.sessions && v.sessions[session].reauthenticatedAt == None
  {
    var steps := [Tick(use), BeginChange(c, user, session), Advance(c, true), Advance(c, true)];
    FourSteps(w, steps);
    var a := Next(Next(w, steps[0]), steps[1]);
    assert a.calls[c] == Changing(user, session, None) && a.clock == w.clock + use;
    var b := Next(a, steps[2]);
    assert b.calls[c] == Changing(user, session, Some(a.clock)) && b.sessions == w.sessions;
  }

  // ---- Sweeping and checking -----------------------------------------------------------

  /** A sweep drops exactly the challenges that are used or expired, so whoever can still claim one finds it. */
  lemma SweepSparesTheUsable(rows: map<Id, Challenge>, now: int, id: Id, later: int)
    requires now <= later
    ensures id in Swept(rows, now) <==> id in rows && rows[id].consumedAt == None && now <= rows[id].expiresAt
    ensures id in Swept(rows, now) ==> Swept(rows, now)[id] == rows[id]
    ensures Claimable(rows, id, later) ==> Claimable(Swept(rows, now), id, later)
  {
  }

  /** A redemption whose response does not check out, or that is no step-up, ends there: nothing is marked. */
  lemma UnverifiedEnds(w: World, id: Id, verified: bool)
    requires id in w.calls && w.calls[id].Redeeming? && w.calls[id].phase.Holding?
    requires !verified || w.calls[id].purpose != Reauth || w.calls[id].user == None
    ensures Next(w, Advance(id, verified)) == w.(calls := w.calls[id := Finished])
  {
  }
}
