/** Server-side sessions: a stored expiry that slides with every accepted lookup. */
module Sessions {
  import opened Wrappers

  /** The SHA-256 hash of a cookie value, taken to be injective. */
  datatype Digest = Digest(token: string)

  datatype SessionRow = SessionRow(
    userId: nat, createdAt: int, expiresAt: int, lastSeenAt: int, revokedAt: Option<int>)

  type Rows = map<Digest, SessionRow>

  /** The two limits, in seconds. */
  datatype Limits = Limits(idle: int, absolute: int)

  datatype SessionError = IntegrityError

  function Min(a: int, b: int): int
  {
    if a <= b then a else b
  }

  // ----- What each call does to the table -----

  datatype Event =
    | Create(token: string, userId: nat, userStored: bool, now: int)
    | LookUp(token: string, now: int)
    | Revoke(token: string, now: int)
    | RevokeAll(userId: nat, now: int)

  /** A row is refused when its user is missing or its key is taken. */
  predicate Creates(rows: Rows, e: Event)
    requires e.Create?
  {
    e.userStored && Digest(e.token) !in rows
  }

  predicate Accepts(limits: Limits, rows: Rows, token: string, now: int)
  {
    && Digest(token) in rows
    && var row := rows[Digest(token)];
       row.revokedAt.None? && now < row.expiresAt && now < row.createdAt + limits.absolute
  }

  /** The row of an accepted lookup. */
  function Seen(limits: Limits, row: SessionRow, now: int): SessionRow
  {
    row.(lastSeenAt := now, expiresAt := Min(now + limits.idle, row.createdAt + limits.absolute))
  }

  function RevokeRow(row: SessionRow, now: int): SessionRow
  {
    if row.revokedAt.None? then row.(revokedAt := Some(now)) else row
  }

  function Apply(limits: Limits, rows: Rows, e: Event): Rows
  {
    match e
    case Create(token, userId, _, now) =>
      if Creates(rows, e) then rows[Digest(token) := SessionRow(userId, now, now + limits.idle, now, None)] else rows
    case LookUp(token, now) =>
      if Accepts(limits, rows, token, now) then rows[Digest(token) := Seen(limits, rows[Digest(token)], now)] else rows
    case Revoke(token, now) =>
      if Digest(token) in rows then rows[Digest(token) := RevokeRow(rows[Digest(token)], now)] else rows
    case RevokeAll(userId, now) =>
      map key | key in rows :: if rows[key].userId == userId then RevokeRow(rows[key], now) else rows[key]
  }

  class SessionStore {
    const limits: Limits
    var rows: Rows

    constructor (limits: Limits)
      ensures this.limits == limits && rows == map[]
    {
      this.limits := limits;
      rows := map[];
    }

    /** Returns the expiry shown to the client. */
    method CreateSession(token: string, userId: nat, userStored: bool, now: int) returns (r: Result<int, SessionError>)
      modifies this
      ensures rows == Apply(limits, old(rows), Create(token, userId, userStored, now))
      ensures r == if Creates(old(rows), Create(token, userId, userStored, now)) then Ok(rows[Digest(token)].expiresAt)
                   else Err(IntegrityError)
    {
      var expiresAt := now + limits.idle;
      if !userStored || Digest(token) in rows {
        return Err(IntegrityError);
      }
      rows := rows[Digest(token) := SessionRow(userId, now, expiresAt, now, None)];
      r := Ok(expiresAt);
    }

    method GetValidSession(token: string, now: int) returns (r: Option<SessionRow>)
      modifies this
      ensures rows == Apply(limits, old(rows), LookUp(token, now))
      ensures r == if Accepts(limits, old(rows), token, now) then Some(rows[Digest(token)]) else None
    {
      if Digest(token) !in rows || rows[Digest(token)].revokedAt.Some? {
        return None;
      }
      var session := rows[Digest(token)];
      var absoluteDeadline := session.createdAt + limits.absolute;
      if now >= session.expiresAt || now >= absoluteDeadline {
        return None;
      }
      session := session.(lastSeenAt := now);
      session := session.(expiresAt := Min(now + limits.idle, absoluteDeadline));
      rows := rows[Digest(token) := session];
      r := Some(session);
    }

    method RevokeSession(token: string, now: int)
      modifies this
      ensures rows == Apply(limits, old(rows), Revoke(token, now))
    {
      if Digest(token) in rows && rows[Digest(token)].revokedAt.None? {
        rows := rows[Digest(token) := rows[Digest(token)].(revokedAt := Some(now))];
      }
    }

    method RevokeAllSessionsForUser(userId: nat, now: int)
      modifies this
      ensures rows == Apply(limits, old(rows), RevokeAll(userId, now))
    {
      rows := map key | key in rows ::
        if rows[key].userId == userId && rows[key].revokedAt.None? then rows[key].(revokedAt := Some(now))
        else rows[key];
    }
  }

  // ----- Histories -----

  function Run(limits: Limits, events: seq<Event>): Rows
  {
    if events == [] then map[] else Apply(limits, Run(limits, events[..|events| - 1]), events[|events| - 1])
  }

  /** The table before event n. */
  function Before(limits: Limits, events: seq<Event>, n: nat): Rows
    requires n <= |events|
  {
    Run(limits, events[..n])
  }

  lemma BeforeNext(limits: Limits, events: seq<Event>, n: nat)
    requires n < |events|
    ensures Before(limits, events, n + 1) == Apply(limits, Before(limits, events, n), events[n])
  {
    assert events[..n + 1][..n] == events[..n];
  }

  /** Event n is a lookup of this token that the code accepts. */
  predicate AcceptedAt(limits: Limits, events: seq<Event>, token: string, n: nat)
  {
    && n < |events| && events[n].LookUp? && events[n].token == token
    && Accepts(limits, Before(limits, events, n), token, events[n].now)
  }

  predicate Creation(e: Event, token: string)
  {
    e.Create? && e.token == token && e.userStored
  }

  /** Event b is the one that stores the session. */
  predicate CreatedAt(events: seq<Event>, token: string, b: nat)
  {
    && b < |events| && Creation(events[b], token)
    && forall m :: 0 <= m < b ==> !Creation(events[m], token)
  }

  predicate Revokes(e: Event, token: string, userId: nat)
  {
    (e.Revoke? && e.token == token) || (e.RevokeAll? && e.userId == userId)
  }

  /** Event k created the session or is an accepted lookup, and no accepted lookup lies between k and n. */
  predicate LastSeenAt(limits: Limits, events: seq<Event>, token: string, b: nat, k: nat, n: nat)
  {
    && b <= k < n && (k == b || AcceptedAt(limits, events, token, k))
    && forall m :: k < m < n ==> !AcceptedAt(limits, events, token, m)
  }

  predicate RevokedBetween(events: seq<Event>, token: string, userId: nat, b: nat, n: nat)
    requires n <= |events|
  {
    exists m :: b < m < n && Revokes(events[m], token, userId)
  }

  /** What a stored row says about the history before event n. */
  ghost predicate Tells(limits: Limits, events: seq<Event>, token: string, b: nat, k: nat, n: nat, row: SessionRow)
    requires n <= |events|
  {
    && CreatedAt(events, token, b) && LastSeenAt(limits, events, token, b, k, n)
    && row.userId == events[b].userId && row.createdAt == events[b].now && row.lastSeenAt == events[k].now
    && (row.revokedAt.Some? <==> RevokedBetween(events, token, row.userId, b, n))
    && (k == b ==> row.expiresAt == events[b].now + limits.idle)
    && (k > b ==>
          && row.expiresAt <= events[k].now + limits.idle && row.expiresAt <= events[b].now + limits.absolute
          && (row.expiresAt == events[k].now + limits.idle || row.expiresAt == events[b].now + limits.absolute))
  }

  /** In every reachable table a row tells when it was created, last seen, revoked, and when it expires. */
  lemma {:induction false} RowTells(limits: Limits, events: seq<Event>, token: string, n: nat) returns (b: nat, k: nat)
    requires n <= |events| && Digest(token) in Before(limits, events, n)
    ensures Tells(limits, events, token, b, k, n, Before(limits, events, n)[Digest(token)])
  {
    hide Tells;
    BeforeNext(limits, events, n - 1);
    var before := Before(limits, events, n - 1);
    hide Before, Apply;
    if Digest(token) in before {
      b, k := RowTells(limits, events, token, n - 1);
      k := TellsNext(limits, events, token, b, k, n - 1, before[Digest(token)]);
      RowNext(limits, before, events[n - 1], token);
    } else {
      b, k := n - 1, n - 1;
      NotStored(limits, events, token, n - 1);
      FirstTells(limits, events, token, n - 1);
    }
  }

  /** One step of a stored row. */
  function Next(limits: Limits, row: SessionRow, token: string, e: Event): SessionRow
  {
    if Revokes(e, token, row.userId) then RevokeRow(row, e.now)
    else if e.LookUp? && e.token == token && row.revokedAt.None? && e.now < row.expiresAt
        && e.now < row.createdAt + limits.absolute
    then Seen(limits, row, e.now)
    else row
  }

  lemma RowNext(limits: Limits, rows: Rows, e: Event, token: string)
    requires Digest(token) in rows
    ensures Digest(token) in Apply(limits, rows, e)
    ensures Apply(limits, rows, e)[Digest(token)] == Next(limits, rows[Digest(token)], token, e)
  {
  }

  lemma TellsNext(limits: Limits, events: seq<Event>, token: string, b: nat, k: nat, n: nat, row: SessionRow)
    returns (k': nat)
    requires n < |events| && Tells(limits, events, token, b, k, n, row)
    requires Digest(token) in Before(limits, events, n) && Before(limits, events, n)[Digest(token)] == row
    ensures Tells(limits, events, token, b, k', n + 1, Next(limits, row, token, events[n]))
  {
    hide Before, RevokedBetween, CreatedAt;
    k' := if AcceptedAt(limits, events, token, n) then n else k;
    RevokedStep(events, token, row.userId, b, n);
  }

  lemma FirstTells(limits: Limits, events: seq<Event>, token: string, n: nat)
    requires n < |events| && (forall m :: 0 <= m < n ==> !Creation(events[m], token))
    requires Digest(token) !in Before(limits, events, n)
    ensures
      var rows := Apply(limits, Before(limits, events, n), events[n]);
      Digest(token) in rows ==> Tells(limits, events, token, n, n, n + 1, rows[Digest(token)])
  {
  }

  lemma RevokedStep(events: seq<Event>, token: string, userId: nat, b: nat, n: nat)
    requires b < n < |events|
    ensures RevokedBetween(events, token, userId, b, n + 1) <==>
              RevokedBetween(events, token, userId, b, n) || Revokes(events[n], token, userId)
  {
  }

  lemma {:induction false} NotStored(limits: Limits, events: seq<Event>, token: string, n: nat)
    requires n <= |events| && Digest(token) !in Before(limits, events, n)
    ensures forall m :: 0 <= m < n ==> !Creation(events[m], token)
  {
    if n > 0 {
      BeforeNext(limits, events, n - 1);
      NotStored(limits, events, token, n - 1);
    }
  }

  lemma {:induction false} StaysStored(limits: Limits, events: seq<Event>, token: string, b: nat, n: nat)
    requires b < n <= |events| && Creation(events[b], token)
    ensures Digest(token) in Before(limits, events, n)
  {
    BeforeNext(limits, events, n - 1);
    if b < n - 1 {
      StaysStored(limits, events, token, b, n - 1);
    }
  }

  /**
   A lookup is accepted exactly when the session was created, has not been revoked since, was last seen
   (created or accepted) less than the idle limit ago and created less than the absolute limit ago.
   This holds for any clock readings.
   */
  lemma AcceptedExactly(limits: Limits, events: seq<Event>, token: string, n: nat)
    requires n < |events| && events[n] == LookUp(token, events[n].now)
    ensures AcceptedAt(limits, events, token, n) <==>
              exists b: nat, k: nat ::
                && CreatedAt(events, token, b) && LastSeenAt(limits, events, token, b, k, n)
                && !RevokedBetween(events, token, events[b].userId, b, n)
                && events[n].now - events[k].now < limits.idle && events[n].now - events[b].now < limits.absolute
  {
    if Digest(token) in Before(limits, events, n) {
      var b, k := RowTells(limits, events, token, n);
      hide Before, RevokedBetween;
      if b': nat, k': nat :|
        && CreatedAt(events, token, b') && LastSeenAt(limits, events, token, b', k', n)
        && !RevokedBetween(events, token, events[b'].userId, b', n)
        && events[n].now - events[k'].now < limits.idle && events[n].now - events[b'].now < limits.absolute
      {
        assert b' == b && k' == k;
      }
    } else {
      NotStored(limits, events, token, n);
    }
  }

  predicate Chronological(events: seq<Event>)
  {
    forall i, j :: 0 <= i < j < |events| ==> events[i].now <= events[j].now
  }

  /** With a clock that does not run backwards, a session turned away once is turned away from then on. */
  lemma {:induction false} NeverAgain(limits: Limits, events: seq<Event>, token: string, b: nat, i: nat, j: nat)
    requires Chronological(events) && CreatedAt(events, token, b) && b < i < j < |events|
    requires events[i] == LookUp(token, events[i].now)
    ensures !AcceptedAt(limits, events, token, i) ==> !AcceptedAt(limits, events, token, j)
    decreases j
  {
    if AcceptedAt(limits, events, token, j) {
      AcceptedExactly(limits, events, token, j);
      hide AcceptedAt;
      var b': nat, k: nat :|
        && CreatedAt(events, token, b') && LastSeenAt(limits, events, token, b', k, j)
        && !RevokedBetween(events, token, events[b'].userId, b', j)
        && events[j].now - events[k].now < limits.idle && events[j].now - events[b'].now < limits.absolute;
      assert b' == b;
      if k > i {
        NeverAgain(limits, events, token, b, i, k);
      } else if k < i {
        assert LastSeenAt(limits, events, token, b, k, i);
        AcceptedExactly(limits, events, token, i);
      }
    }
  }

  /** A revoked row never changes again, its revocation time included. */
  lemma {:induction false} RevokedForGood(limits: Limits, events: seq<Event>, token: string, n: nat, n': nat)
    requires n <= n' <= |events| && Digest(token) in Before(limits, events, n)
    requires Before(limits, events, n)[Digest(token)].revokedAt.Some?
    ensures Digest(token) in Before(limits, events, n')
    ensures Before(limits, events, n')[Digest(token)] == Before(limits, events, n)[Digest(token)]
    decreases n'
  {
    if n < n' {
      RevokedForGood(limits, events, token, n, n' - 1);
      BeforeNext(limits, events, n' - 1);
    }
  }

  /** The first revocation is the one on record. */
  lemma RevokedExactly(limits: Limits, events: seq<Event>, token: string, b: nat, m: nat, n: nat)
    requires CreatedAt(events, token, b) && b < m < n <= |events|
    requires Revokes(events[m], token, events[b].userId) && !RevokedBetween(events, token, events[b].userId, b, m)
    ensures Digest(token) in Before(limits, events, n)
    ensures Before(limits, events, n)[Digest(token)].revokedAt == Some(events[m].now)
  {
    StaysStored(limits, events, token, b, m);
    var b', k := RowTells(limits, events, token, m);
    BeforeNext(limits, events, m);
    hide Before;
    assert b' == b;
    RevokedForGood(limits, events, token, m + 1, n);
  }
}
