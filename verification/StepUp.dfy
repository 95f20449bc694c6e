/**
 One-shot claims: WebAuthn challenges (apps/api/src/webauthn/webauthn-challenge.service.ts) and the
 elevation of a session (apps/api/src/auth/session.service.ts).  Times are milliseconds.  A
 conditional update compares rows with a time its caller read before sending it.
 */
module StepUp {
  import opened Results

  type Id = nat

  const CHALLENGE_TTL_MS := 5 * 60 * 1000

  const SWEEP_MIN_INTERVAL_MS := 60 * 1000

  const REAUTH_VALIDITY_MS := 5 * 60 * 1000

  datatype Purpose = Registration | Authentication | Reauth

  datatype Challenge = Challenge(purpose: Purpose, user: Option<Id>, expiresAt: int, consumedAt: Option<int>)

  datatype Session = Session(user: Id, revoked: bool, reauthenticatedAt: Option<int>)

  // ---- Challenges ----------------------------------------------------------------------

  /** The reasons the first read already gives to refuse. */
  predicate Redeemable(row: Challenge, purpose: Purpose, user: Option<Id>) {
    row.purpose == purpose && row.consumedAt.None? && (row.user.Some? ==> row.user == user)
  }

  predicate Claimable(rows: map<Id, Challenge>, id: Id, now: int) {
    id in rows && rows[id].consumedAt.None? && now < rows[id].expiresAt
  }

  function Claimed(rows: map<Id, Challenge>, id: Id, now: int): map<Id, Challenge>
    requires id in rows
  {
    rows[id := rows[id].(consumedAt := Some(now))]
  }

  predicate Sweepable(row: Challenge, now: int) {
    row.expiresAt < now || row.consumedAt.Some?
  }

  function Swept(rows: map<Id, Challenge>, now: int): map<Id, Challenge> {
    map id | id in rows && !Sweepable(rows[id], now) :: rows[id]
  }

  class ChallengeStore {
    var rows: map<Id, Challenge>
    var nextId: Id
    var nextSweepAt: int

    constructor ()
      ensures rows == map[] && nextId == 0 && nextSweepAt == 0
    {
      rows, nextId, nextSweepAt := map[], 0, 0;
    }

    method SweepExpired(now: int)
      modifies this`rows, this`nextSweepAt
      ensures rows == if old(nextSweepAt) <= now then Swept(old(rows), now) else old(rows)
      ensures nextSweepAt == if old(nextSweepAt) <= now then now + SWEEP_MIN_INTERVAL_MS else old(nextSweepAt)
    {
      if now < nextSweepAt {
        return;
      }
      nextSweepAt := now + SWEEP_MIN_INTERVAL_MS;
      rows := map id | id in rows && !(rows[id].expiresAt < now || rows[id].consumedAt.Some?) :: rows[id];
    }

    /** Ids are never used twice. */
    method Issue(purpose: Purpose, user: Option<Id>, now: int) returns (id: Id)
      modifies this
      ensures id == old(nextId) && nextId == old(nextId) + 1
      ensures var kept := if old(nextSweepAt) <= now then Swept(old(rows), now) else old(rows);
        rows == kept[id := Challenge(purpose, user, now + CHALLENGE_TTL_MS, None)]
    {
      SweepExpired(now);
      id := nextId;
      rows := rows[id := Challenge(purpose, user, now + CHALLENGE_TTL_MS, None)];
      nextId := nextId + 1;
    }

    /** The informative first read. */
    method Lookup(id: Id, purpose: Purpose, user: Option<Id>) returns (pending: Option<Challenge>)
      ensures pending == if id in rows && Redeemable(rows[id], purpose, user) then Some(rows[id]) else None
    {
      if id !in rows {
        return None;
      }
      var row := rows[id];
      if row.purpose != purpose {
        return None;
      }
      if row.consumedAt.Some? {
        return None;
      }
      if row.user.Some? && row.user != user {
        return None;
      }
      pending := Some(row);
    }

    /** The conditional update that makes a challenge single-use. */
    method Claim(id: Id, now: int) returns (count: nat)
      modifies this`rows
      ensures count == if Claimable(old(rows), id, now) then 1 else 0
      ensures rows == if count == 1 then Claimed(old(rows), id, now) else old(rows)
    {
      count := 0;
      if id in rows && rows[id].consumedAt.None? && now < rows[id].expiresAt {
        rows := rows[id := rows[id].(consumedAt := Some(now))];
        count := 1;
      }
    }
  }

  // ---- Sessions ------------------------------------------------------------------------

  predicate Markable(sessions: map<Id, Session>, id: Id, user: Id) {
    id in sessions && sessions[id].user == user && !sessions[id].revoked
  }

  /** An elevation that is recent enough for someone whose clock said now. */
  predicate Elevated(sessions: map<Id, Session>, id: Id, user: Id, now: int) {
    && Markable(sessions, id, user)
    && sessions[id].reauthenticatedAt.Some?
    && now - REAUTH_VALIDITY_MS <= sessions[id].reauthenticatedAt.value
  }

  function WithElevation(sessions: map<Id, Session>, id: Id, at: Option<int>): map<Id, Session>
    requires id in sessions
  {
    sessions[id := sessions[id].(reauthenticatedAt := at)]
  }

  class SessionStore {
    var sessions: map<Id, Session>

    constructor ()
      ensures sessions == map[]
    {
      sessions := map[];
    }

    method MarkReauthenticated(user: Id, id: Id, now: int)
      modifies this
      ensures sessions == if Markable(old(sessions), id, user) then WithElevation(old(sessions), id, Some(now)) else old(sessions)
    {
      if id in sessions && sessions[id].user == user && !sessions[id].revoked {
        sessions := sessions[id := sessions[id].(reauthenticatedAt := Some(now))];
      }
    }

    method ConsumeReauthentication(user: Id, id: Id, now: int) returns (claimed: bool)
      modifies this
      ensures claimed == Elevated(old(sessions), id, user, now)
      ensures sessions == if claimed then WithElevation(old(sessions), id, None) else old(sessions)
    {
      var notBefore := now - REAUTH_VALIDITY_MS;
      claimed := false;
      if id in sessions {
        var row := sessions[id];
        if row.user == user && !row.revoked && row.reauthenticatedAt.Some? && row.reauthenticatedAt.value >= notBefore {
          sessions := sessions[id := row.(reauthenticatedAt := None)];
          claimed := true;
        }
      }
    }

    /** A password that was given decides alone; otherwise an elevation is spent. */
    method RequireReauthentication(user: Id, password: Option<bool>, id: Option<Id>, now: int) returns (allowed: bool)
      modifies this
      ensures allowed == if password.Some? then password.value else id.Some? && Elevated(old(sessions), id.value, user, now)
      ensures sessions == if password.None? && allowed then WithElevation(old(sessions), id.value, None) else old(sessions)
    {
      if password.Some? {
        return password.value;
      }
      allowed := false;
      if id.Some? {
        allowed := ConsumeReauthentication(user, id.value, now);
      }
    }
  }
}
