/** API tokens: found through an index on a prefix of the secret, checked by hash. */
module Tokens {
  import opened Wrappers

  const TOKEN_PREFIX := "catk_"
  const LOOKUP_PREFIX_LEN := 12

  /** The SHA-256 hash of a raw token, taken to be injective. */
  datatype Digest = Digest(raw: string)

  datatype TokenRow = TokenRow(
    userId: nat, name: string, tokenPrefix: string, tokenHash: Digest, createdAt: int, expiresAt: Option<int>,
    lastUsedAt: Option<int>, revokedAt: Option<int>, revokedBy: Option<nat>)

  datatype TokenError = NotFound | Forbidden | IntegrityError

  /** Tokens are never deleted: the row with id n is the n-th. */
  predicate HasId(rows: seq<TokenRow>, id: nat)
  {
    1 <= id <= |rows|
  }

  function LookupPrefix(secret: string): string
  {
    if |secret| < LOOKUP_PREFIX_LEN then secret else secret[..LOOKUP_PREFIX_LEN]
  }

  // ----- Looking a token up -----

  /** The ids of the rows with this prefix, in id order. */
  function Candidates(rows: seq<TokenRow>, prefix: string): (ids: seq<nat>)
    ensures forall i :: 0 <= i < |ids| ==> HasId(rows, ids[i])
  {
    if rows == [] then []
    else
      var n := |rows| - 1;
      Candidates(rows[..n], prefix) + if rows[n].tokenPrefix == prefix then [n + 1] else []
  }

  /** The first of these rows with the given hash. */
  function FirstOf(rows: seq<TokenRow>, ids: seq<nat>, hash: Digest): (r: Option<nat>)
    requires forall i :: 0 <= i < |ids| ==> HasId(rows, ids[i])
    ensures r.Some? ==> HasId(rows, r.value)
  {
    if ids == [] then None
    else
      var n := |ids| - 1;
      assert HasId(rows, ids[n]);
      var earlier := FirstOf(rows, ids[..n], hash);
      if earlier.Some? then earlier
      else if rows[ids[n] - 1].tokenHash == hash then Some(ids[n])
      else None
  }

  function FindByPrefix(rows: seq<TokenRow>, raw: string): (r: Option<nat>)
    ensures r.Some? ==> HasId(rows, r.value)
  {
    if TOKEN_PREFIX <= raw then
      FirstOf(rows, Candidates(rows, LookupPrefix(raw[|TOKEN_PREFIX|..])), Digest(raw))
    else None
  }

  /** Found, not revoked, not expired, and its user is active. */
  predicate Usable(row: TokenRow, activeUsers: set<nat>, now: int)
  {
    row.revokedAt.None? && (row.expiresAt.Some? ==> now < row.expiresAt.value) && row.userId in activeUsers
  }

  function Authenticate(rows: seq<TokenRow>, activeUsers: set<nat>, raw: string, now: int): (r: Option<nat>)
    ensures r.Some? ==> HasId(rows, r.value)
  {
    var id := FindByPrefix(rows, raw);
    if id.Some? && Usable(rows[id.value - 1], activeUsers, now) then id else None
  }

  // ----- What each call does to the table -----

  datatype Event =
    | Create(userId: nat, userStored: bool, name: string, secret: string, expiresAt: Option<int>, now: int)
    | Use(raw: string, activeUsers: set<nat>, now: int)
    | Revoke(tokenId: nat, actor: nat, isAdmin: bool, actorStored: bool, now: int)

  function RevokeError(rows: seq<TokenRow>, e: Event): Option<TokenError>
    requires e.Revoke?
  {
    if !HasId(rows, e.tokenId) then Some(NotFound)
    else if rows[e.tokenId - 1].userId != e.actor && !e.isAdmin then Some(Forbidden)
    else if rows[e.tokenId - 1].revokedAt.None? && !e.actorStored then Some(IntegrityError)
    else None
  }

  function NewRow(e: Event): TokenRow
    requires e.Create?
  {
    TokenRow(e.userId, e.name, LookupPrefix(e.secret), Digest(TOKEN_PREFIX + e.secret), e.now, e.expiresAt, None,
             None, None)
  }

  function Apply(rows: seq<TokenRow>, e: Event): seq<TokenRow>
  {
    match e
    case Create(_, userStored, _, _, _, _) =>
      if userStored then rows + [NewRow(e)] else rows
    case Use(raw, activeUsers, now) =>
      var id := Authenticate(rows, activeUsers, raw, now);
      if id.Some? then rows[id.value - 1 := rows[id.value - 1].(lastUsedAt := Some(now))] else rows
    case Revoke(tokenId, actor, _, _, now) =>
      if RevokeError(rows, e) == None && rows[tokenId - 1].revokedAt.None?
      then rows[tokenId - 1 := rows[tokenId - 1].(revokedAt := Some(now), revokedBy := Some(actor))]
      else rows
  }

  /** The loop over the rows with the right prefix. */
  method FirstMatch(rows: seq<TokenRow>, candidates: seq<nat>, hash: Digest) returns (id: Option<nat>)
    requires forall i :: 0 <= i < |candidates| ==> HasId(rows, candidates[i])
    ensures id == FirstOf(rows, candidates, hash)
  {
    for i := 0 to |candidates|
      invariant FirstOf(rows, candidates[..i], hash) == None
    {
      assert candidates[..i + 1][..i] == candidates[..i];
      if rows[candidates[i] - 1].tokenHash == hash {
        FirstOfPrefix(rows, candidates, i + 1, hash);
        return Some(candidates[i]);
      }
    }
    assert candidates[..|candidates|] == candidates;
    id := None;
  }

  class TokenStore {
    var rows: seq<TokenRow>

    constructor ()
      ensures rows == []
    {
      rows := [];
    }

    /** Returns the new id and the raw token, which is stored nowhere. */
    method CreateToken(userId: nat, userStored: bool, name: string, secret: string, expiresAt: Option<int>, now: int)
      returns (r: Result<(nat, string), TokenError>)
      modifies this
      ensures rows == Apply(old(rows), Create(userId, userStored, name, secret, expiresAt, now))
      ensures r == if userStored then Ok((|old(rows)| + 1, "catk_" + secret)) else Err(IntegrityError)
    {
      var raw := TOKEN_PREFIX + secret;
      var token := TokenRow(userId, name, LookupPrefix(secret), Digest(raw), now, expiresAt, None, None, None);
      if !userStored {
        return Err(IntegrityError);
      }
      rows := rows + [token];
      r := Ok((|rows|, raw));
    }

    method AuthenticateToken(raw: string, activeUsers: set<nat>, now: int) returns (r: Option<nat>)
      modifies this
      ensures rows == Apply(old(rows), Use(raw, activeUsers, now))
      ensures r == Authenticate(old(rows), activeUsers, raw, now)
    {
      hide Candidates, LookupPrefix;
      if !(TOKEN_PREFIX <= raw) {
        return None;
      }
      var candidates := Candidates(rows, LookupPrefix(raw[|TOKEN_PREFIX|..]));
      var id := FirstMatch(rows, candidates, Digest(raw));
      if id.None? {
        return None;
      }
      var token := rows[id.value - 1];
      if token.revokedAt.Some? || (token.expiresAt.Some? && now >= token.expiresAt.value) {
        return None;
      }
      if token.userId !in activeUsers {
        return None;
      }
      rows := rows[id.value - 1 := token.(lastUsedAt := Some(now))];
      r := id;
    }

    method RevokeToken(tokenId: nat, actor: nat, isAdmin: bool, actorStored: bool, now: int)
      returns (r: Result<nat, TokenError>)
      modifies this
      ensures rows == Apply(old(rows), Revoke(tokenId, actor, isAdmin, actorStored, now))
      ensures r == match RevokeError(old(rows), Revoke(tokenId, actor, isAdmin, actorStored, now))
                   case Some(error) => Err(error)
                   case None => Ok(tokenId)
      ensures r == Err(NotFound) <==> !HasId(old(rows), tokenId)
      ensures r == Err(Forbidden) <==>
                HasId(old(rows), tokenId) && old(rows)[tokenId - 1].userId != actor && !isAdmin
      ensures r == Err(IntegrityError) <==>
                && HasId(old(rows), tokenId) && (old(rows)[tokenId - 1].userId == actor || isAdmin)
                && old(rows)[tokenId - 1].revokedAt.None? && !actorStored
    {
      if !HasId(rows, tokenId) {
        return Err(NotFound);
      }
      var token := rows[tokenId - 1];
      if token.userId != actor && !isAdmin {
        return Err(Forbidden);
      }
      if token.revokedAt.None? {
        if !actorStored {
          return Err(IntegrityError);
        }
        token := token.(revokedAt := Some(now));
        token := token.(revokedBy := Some(actor));
        rows := rows[tokenId - 1 := token];
      }
      r := Ok(tokenId);
    }
  }

  lemma {:induction false} FirstOfPrefix(rows: seq<TokenRow>, ids: seq<nat>, n: nat, hash: Digest)
    requires n <= |ids| && (forall i :: 0 <= i < |ids| ==> HasId(rows, ids[i])) && FirstOf(rows, ids[..n], hash).Some?
    ensures FirstOf(rows, ids, hash) == FirstOf(rows, ids[..n], hash)
    decreases |ids|
  {
    if n < |ids| {
      assert ids[..|ids| - 1][..n] == ids[..n];
      FirstOfPrefix(rows, ids[..|ids| - 1], n, hash);
    } else {
      assert ids[..n] == ids;
    }
  }

  // ----- The index changes no answer -----

  function Run(events: seq<Event>): seq<TokenRow>
  {
    if events == [] then [] else Apply(Run(events[..|events| - 1]), events[|events| - 1])
  }

  /** The row's prefix is that of the secret behind its hash. */
  predicate OwnPrefix(row: TokenRow)
  {
    && TOKEN_PREFIX <= row.tokenHash.raw
    && row.tokenPrefix == LookupPrefix(row.tokenHash.raw[|TOKEN_PREFIX|..])
  }

  lemma {:induction false} PrefixesOwn(events: seq<Event>)
    ensures forall i :: 0 <= i < |Run(events)| ==> OwnPrefix(Run(events)[i])
  {
    if events != [] {
      PrefixesOwn(events[..|events| - 1]);
      var e := events[|events| - 1];
      hide Authenticate;
      assert e.Create? ==> (TOKEN_PREFIX + e.secret)[|TOKEN_PREFIX|..] == e.secret;
    }
  }

  /** A search of the whole table by hash alone. */
  predicate FirstWithHash(rows: seq<TokenRow>, hash: Digest, id: nat)
  {
    HasId(rows, id) && rows[id - 1].tokenHash == hash && forall i :: 0 <= i < id - 1 ==> rows[i].tokenHash != hash
  }

  lemma {:induction false} FindInPrefix(rows: seq<TokenRow>, ids: seq<nat>, rows': seq<TokenRow>, hash: Digest)
    requires rows <= rows' && (forall i :: 0 <= i < |ids| ==> HasId(rows, ids[i]))
    ensures forall i :: 0 <= i < |ids| ==> HasId(rows', ids[i])
    ensures FirstOf(rows', ids, hash) == FirstOf(rows, ids, hash)
  {
    if ids != [] {
      FindInPrefix(rows, ids[..|ids| - 1], rows', hash);
    }
  }

  lemma FirstOfSnoc(rows: seq<TokenRow>, ids: seq<nat>, id: nat, hash: Digest)
    requires HasId(rows, id) && forall i :: 0 <= i < |ids| ==> HasId(rows, ids[i])
    ensures
      var found := FirstOf(rows, ids, hash);
      FirstOf(rows, ids + [id], hash) ==
      if found.Some? then found else if rows[id - 1].tokenHash == hash then Some(id) else None
  {
  }

  function FirstCandidate(rows: seq<TokenRow>, prefix: string, hash: Digest): (r: Option<nat>)
  {
    FirstOf(rows, Candidates(rows, prefix), hash)
  }

  lemma FirstCandidateSnoc(rows: seq<TokenRow>, prefix: string, hash: Digest)
    requires rows != []
    ensures
      var n := |rows| - 1;
      var found := FirstCandidate(rows[..n], prefix, hash);
      FirstCandidate(rows, prefix, hash) ==
      if found.Some? then found
      else if rows[n].tokenPrefix == prefix && rows[n].tokenHash == hash then Some(n + 1)
      else None
  {
    var n := |rows| - 1;
    var before := Candidates(rows[..n], prefix);
    FindInPrefix(rows[..n], before, rows, hash);
    FirstOfSnoc(rows, before, n + 1, hash);
    assert before + [] == before;
  }

  lemma {:induction false} CandidatesMiss(rows: seq<TokenRow>, prefix: string, hash: Digest, k: nat)
    requires k < |rows| && rows[k].tokenHash == hash && rows[k].tokenPrefix == prefix
    ensures FirstCandidate(rows, prefix, hash) != None
    decreases rows
  {
    hide FirstCandidate;
    FirstCandidateSnoc(rows, prefix, hash);
    if k < |rows| - 1 {
      CandidatesMiss(rows[..|rows| - 1], prefix, hash, k);
    }
  }

  lemma {:induction false} CandidatesSuffice(rows: seq<TokenRow>, prefix: string, hash: Digest, id: nat)
    requires forall i :: 0 <= i < |rows| && rows[i].tokenHash == hash ==> rows[i].tokenPrefix == prefix
    ensures FirstCandidate(rows, prefix, hash) == Some(id) <==> FirstWithHash(rows, hash, id)
    decreases rows
  {
    if rows != [] {
      var n := |rows| - 1;
      FirstCandidateSnoc(rows, prefix, hash);
      CandidatesSuffice(rows[..n], prefix, hash, id);
      var found := FirstCandidate(rows[..n], prefix, hash);
      hide FirstCandidate;
      if found.Some? {
        CandidatesSuffice(rows[..n], prefix, hash, found.value);
      }
      forall i | 0 <= i < n && rows[i].tokenHash == hash
        ensures found.Some?
      {
        CandidatesMiss(rows[..n], prefix, hash, i);
      }
    } else {
      assert Candidates(rows, prefix) == [];
    }
  }

  /**
   In every reachable table, authenticating through the prefix index gives the same answer as searching
   all rows by hash and then checking revocation, expiry and the user.
   */
  lemma PrefixLookupExact(events: seq<Event>, activeUsers: set<nat>, raw: string, now: int, id: nat)
    ensures
      var rows := Run(events);
      Authenticate(rows, activeUsers, raw, now) == Some(id) <==>
        FirstWithHash(rows, Digest(raw), id) && Usable(rows[id - 1], activeUsers, now)
  {
    PrefixesOwn(events);
    hide Run;
    if TOKEN_PREFIX <= raw {
      CandidatesSuffice(Run(events), LookupPrefix(raw[|TOKEN_PREFIX|..]), Digest(raw), id);
    }
  }

  // ----- Histories -----

  /** What never changes in a row, and a revocation once it is there. */
  predicate Keeps(row: TokenRow, row': TokenRow)
  {
    && row' == row.(lastUsedAt := row'.lastUsedAt, revokedAt := row'.revokedAt, revokedBy := row'.revokedBy)
    && (row.revokedAt.Some? ==> row'.revokedAt == row.revokedAt && row'.revokedBy == row.revokedBy)
  }

  lemma {:induction false} RowsKept(events: seq<Event>, n: nat)
    requires n <= |events|
    ensures |Run(events[..n])| <= |Run(events)|
    ensures forall i :: 0 <= i < |Run(events[..n])| ==> Keeps(Run(events[..n])[i], Run(events)[i])
    decreases |events|
  {
    if n < |events| {
      var init := events[..|events| - 1];
      assert init[..n] == events[..n];
      RowsKept(init, n);
      hide Authenticate;
      assert Run(events) == Apply(Run(init), events[|events| - 1]);
    } else {
      assert events[..n] == events;
    }
  }

  lemma LengthsKept(events: seq<Event>, m: nat, n: nat)
    requires m <= n <= |events|
    ensures |Run(events[..m])| <= |Run(events[..n])|
  {
    assert events[..n][..m] == events[..m];
    RowsKept(events[..n], m);
  }

  predicate Creation(e: Event, raw: string)
  {
    e.Create? && e.userStored && "catk_" + e.secret == raw
  }

  /** Event b stores a row with this id for the raw token. */
  predicate StoredBy(events: seq<Event>, raw: string, b: nat, id: nat)
  {
    b < |events| && Creation(events[b], raw) && id == |Run(events[..b])| + 1
  }

  /** Event b is the first to create this raw token. */
  predicate CreatedAt(events: seq<Event>, raw: string, b: nat, id: nat)
  {
    StoredBy(events, raw, b, id) && forall m :: 0 <= m < b ==> !Creation(events[m], raw)
  }

  /** The owner or an administrator, a stored user in either case, revokes the token. */
  predicate Revokes(e: Event, id: nat, userId: nat)
  {
    e.Revoke? && e.tokenId == id && (e.actor == userId || e.isAdmin) && e.actorStored
  }

  /** Event m is the first to revoke the token created by event b. */
  predicate RevokedAt(events: seq<Event>, id: nat, b: nat, m: nat)
    requires b < |events| && events[b].Create?
  {
    && b < m < |events| && Revokes(events[m], id, events[b].userId)
    && forall k :: b < k < m ==> !Revokes(events[k], id, events[b].userId)
  }

  /** Event m is a use of the token with this id that is accepted. */
  predicate UsedAt(events: seq<Event>, id: nat, m: nat)
  {
    && m < |events| && events[m].Use?
    && Authenticate(Run(events[..m]), events[m].activeUsers, events[m].raw, events[m].now) == Some(id)
  }

  /** Event m is the last accepted use. */
  predicate LastUsedAt(events: seq<Event>, id: nat, m: nat)
  {
    UsedAt(events, id, m) && forall k :: m < k < |events| ==> !UsedAt(events, id, k)
  }

  /** The start of a secret that is stored in the clear. */
  predicate FirstTwelve(prefix: string, secret: string)
  {
    prefix <= secret && |prefix| == if |secret| < 12 then |secret| else 12
  }

  /** What the row says about the history. */
  ghost predicate Tells(events: seq<Event>, raw: string, b: nat, row: TokenRow, id: nat)
    requires b < |events| && Creation(events[b], raw)
  {
    && row.userId == events[b].userId && row.expiresAt == events[b].expiresAt && row.tokenHash == Digest(raw)
    && row.name == events[b].name && row.createdAt == events[b].now && FirstTwelve(row.tokenPrefix, events[b].secret)
    && (row.lastUsedAt.None? ==> forall m :: b < m < |events| ==> !UsedAt(events, id, m))
    && (row.lastUsedAt.Some? ==>
          exists m: nat :: b < m && LastUsedAt(events, id, m) && row.lastUsedAt == Some(events[m].now))
    && (row.revokedAt.None? ==> forall m :: b < m < |events| ==> !Revokes(events[m], id, events[b].userId))
    && (row.revokedAt.Some? ==>
          exists m: nat :: RevokedAt(events, id, b, m) && row.revokedAt == Some(events[m].now)
              && row.revokedBy == Some(events[m].actor))
  }

  /** In every reachable table a token's row tells who created it, when it was last used and who revoked it first. */
  lemma {:induction false} RowTells(events: seq<Event>, raw: string, b: nat, id: nat)
    requires StoredBy(events, raw, b, id)
    ensures HasId(Run(events), id) && Tells(events, raw, b, Run(events)[id - 1], id)
    decreases |events|
  {
    var n := |events| - 1;
    var init, e := events[..n], events[n];
    var rows := Run(init);
    assert Run(events) == Apply(rows, e);
    hide Run;
    if b < n {
      assert init[..b] == events[..b];
      RowTells(init, raw, b, id);
      TellsNext(events, raw, b, rows, id);
    }
  }

  lemma UsedNext(events: seq<Event>, id: nat, m: nat)
    requires m < |events| - 1
    ensures UsedAt(events, id, m) <==> UsedAt(events[..|events| - 1], id, m)
  {
    assert events[..|events| - 1][..m] == events[..m];
  }

  lemma LastUseNext(events: seq<Event>, b: nat, id: nat, before: Option<int>)
    requires b < |events| - 1
    requires
      var init := events[..|events| - 1];
      && (before.None? ==> forall m :: b < m < |init| ==> !UsedAt(init, id, m))
      && (before.Some? ==> exists m: nat :: b < m && LastUsedAt(init, id, m) && before == Some(init[m].now))
    ensures
      var n := |events| - 1;
      var after := if UsedAt(events, id, n) then Some(events[n].now) else before;
      && (after.None? ==> forall m :: b < m < |events| ==> !UsedAt(events, id, m))
      && (after.Some? ==> exists m: nat :: b < m && LastUsedAt(events, id, m) && after == Some(events[m].now))
  {
    hide UsedAt;
    var n := |events| - 1;
    forall m: nat | m < n
      ensures UsedAt(events, id, m) <==> UsedAt(events[..n], id, m)
    {
      UsedNext(events, id, m);
    }
    if UsedAt(events, id, n) {
      assert LastUsedAt(events, id, n);
    } else if before.Some? {
      forall m: nat | LastUsedAt(events[..n], id, m)
        ensures m < n
      {
        InBounds(events[..n], id, m);
      }
      var m: nat :| b < m && LastUsedAt(events[..n], id, m) && before == Some(events[..n][m].now);
      assert LastUsedAt(events, id, m);
    }
  }

  lemma InBounds(events: seq<Event>, id: nat, m: nat)
    requires UsedAt(events, id, m)
    ensures m < |events|
  {
  }

  lemma TellsNext(events: seq<Event>, raw: string, b: nat, rows: seq<TokenRow>, id: nat)
    requires b < |events| - 1 && Creation(events[b], raw) && HasId(rows, id) && rows == Run(events[..|events| - 1])
    requires Tells(events[..|events| - 1], raw, b, rows[id - 1], id)
    ensures
      var rows' := Apply(rows, events[|events| - 1]);
      HasId(rows', id) && Tells(events, raw, b, rows'[id - 1], id)
  {
    hide Authenticate, Run;
    var n := |events| - 1;
    var row, row' := rows[id - 1], Apply(rows, events[n])[id - 1];
    LastUseNext(events, b, id, row.lastUsedAt);
    hide UsedAt, LastUsedAt;
    if row.revokedAt.Some? {
      var m: nat :| RevokedAt(events[..n], id, b, m) && row.revokedAt == Some(events[m].now)
          && row.revokedBy == Some(events[m].actor);
      assert RevokedAt(events, id, b, m);
    } else if Revokes(events[n], id, row.userId) {
      assert RevokedAt(events, id, b, n);
    }
  }

  lemma {:induction false} RowStored(events: seq<Event>, id: nat) returns (b: nat)
    requires HasId(Run(events), id)
    ensures StoredBy(events, Run(events)[id - 1].tokenHash.raw, b, id)
    decreases |events|
  {
    var n := |events| - 1;
    RowsKept(events, n);
    if id <= |Run(events[..n])| {
      b := RowStored(events[..n], id);
      assert events[..n][..b] == events[..b];
    } else {
      b := n;
    }
  }

  lemma FirstRowCreated(events: seq<Event>, raw: string, id: nat)
    ensures FirstWithHash(Run(events), Digest(raw), id) <==> exists b: nat :: CreatedAt(events, raw, b, id)
  {
    if FirstWithHash(Run(events), Digest(raw), id) {
      var b := RowStored(events, id);
      forall m: nat | m < b
        ensures !Creation(events[m], raw)
      {
        if Creation(events[m], raw) {
          RowTells(events, raw, m, |Run(events[..m])| + 1);
          assert events[..m + 1][..m] == events[..m];
          LengthsKept(events, m + 1, b);
        }
      }
      assert CreatedAt(events, raw, b, id);
    }
    if b: nat :| CreatedAt(events, raw, b, id) {
      RowTells(events, raw, b, id);
      forall i: nat | i < id - 1
        ensures Run(events)[i].tokenHash != Digest(raw)
      {
        var b' := RowStored(events, i + 1);
        if b <= b' {
          LengthsKept(events, b, b');
        }
      }
    }
  }

  /**
   A raw token is accepted, as the token with this id, exactly when it was created under that id, no
   owner or administrator has revoked it since, it has not expired and its user is active.
   */
  lemma AcceptedExactly(events: seq<Event>, activeUsers: set<nat>, raw: string, now: int, id: nat)
    ensures Authenticate(Run(events), activeUsers, raw, now) == Some(id) <==>
              exists b: nat ::
                && CreatedAt(events, raw, b, id)
                && (forall m :: b < m < |events| ==> !Revokes(events[m], id, events[b].userId))
                && (events[b].expiresAt.Some? ==> now < events[b].expiresAt.value)
                && events[b].userId in activeUsers
  {
    PrefixLookupExact(events, activeUsers, raw, now, id);
    FirstRowCreated(events, raw, id);
    hide Authenticate, FirstWithHash, Run;
    if b: nat :| CreatedAt(events, raw, b, id) {
      RowTells(events, raw, b, id);
    }
  }

  /** The row keeps the time and the actor of the first revocation, whoever asks again. */
  lemma FirstRevokerKept(events: seq<Event>, raw: string, b: nat, id: nat, m: nat)
    requires StoredBy(events, raw, b, id) && RevokedAt(events, id, b, m)
    ensures HasId(Run(events), id)
    ensures Run(events)[id - 1].revokedAt == Some(events[m].now)
        && Run(events)[id - 1].revokedBy == Some(events[m].actor)
  {
    RowTells(events, raw, b, id);
    hide Run;
  }
}
