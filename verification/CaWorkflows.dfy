/** Revocation, renewal and the request workflow. */
module CaWorkflows {
  import opened Wrappers
  import opened Crypto
  import opened X509
  import opened CertPolicy
  import opened CaState
  import opened CaInvariant
  import opened CaMachine
  import opened CaHistory
  import opened CaTheorems
  import opened CaOperations

  // ----- Revocation -----

  /** Why a certificate cannot be revoked. */
  predicate RevocationRefused(
      db: Db, env: Env, certId: nat, reason: string, actor: Option<nat>, error: RevocationError)
  {
    if !HasId(db.certs, certId) then error == CertificateNotFound
    else if db.certs[certId - 1].status == Revoked then error == AlreadyRevoked
    else if !KnownReason(reason) then error == InvalidReason
    else actor.Some? && actor.value !in env.users && error == IntegrityError
  }

  /** The intermediate's served list has an entry of this serial, date and reason. */
  predicate ListShows(crls: seq<CrlRow>, serial: nat, date: int, reason: string)
  {
    var served := ServedCrl(crls, 2);
    && served.Some?
    && exists e :: e in served.value.crl.content.entries
         && e.serial == serial && e.date == date && FlagName(e.reason) == reason
  }

  /**
   A revocation succeeds exactly for a valid certificate, a known reason and a stored actor, or for none.
   It then records who, when and why, changes no other certificate, and the newest list shows the entry.
   */
  lemma RevocationExact(
      cfg: Config, keyFile: Option<MasterKey>, events: seq<Event>, env: Env, certId: nat, reason: string,
      actor: Option<nat>)
    ensures
      var st := Run(cfg, keyFile, events);
      var (db', r) := Revoke(st.db, st.vault, env, certId, reason, actor);
      && (r.Ok? <==>
            && HasId(st.db.certs, certId) && st.db.certs[certId - 1].status == Valid
            && KnownReason(reason) && (actor.Some? ==> actor.value in env.users))
      && (r.Err? ==> db' == st.db && RevocationRefused(st.db, env, certId, reason, actor, r.error))
      && (r.Ok? ==>
            && r.value == certId
            && db'.revocations == st.db.revocations + [RevocationRow(certId, env.now, reason, actor)]
            && |db'.certs| == |st.db.certs| && db'.requests == st.db.requests
            && (forall i :: 0 <= i < |db'.certs| ==>
                  db'.certs[i] == if i == certId - 1 then st.db.certs[i].(status := Revoked) else st.db.certs[i])
            && ListShows(db'.crls, st.db.certs[certId - 1].certificate.content.serial, env.now, reason))
  {
    hide Run, RunningOk, RefreshCrl, ListShows, KnownReason, ServedCrl;
    RunOk(cfg, keyFile, events);
    var st := Run(cfg, keyFile, events);
    ReasonFlagsExact(reason);
    if HasId(st.db.certs, certId) {
      LeafFacts(cfg, st, certId - 1);
      if st.db.certs[certId - 1].status == Valid {
        NotYetRevoked(cfg, st, certId);
      }
    }
    if RevokeError(st.db, env, certId, reason, actor) == None {
      RevocationOnList(cfg, st, env, certId, reason, actor);
      RefreshTables(CommitRevocation(st.db, certId, reason, actor, env.now), st.vault, st.db.certs[certId - 1].caId,
                    env.now);
    }
  }

  lemma RevocationOnList(cfg: Config, st: State, env: Env, certId: nat, reason: string, actor: Option<nat>)
    requires RunningOk(cfg, st) && RevokeError(st.db, env, certId, reason, actor) == None
    ensures
      var db' := Revoke(st.db, st.vault, env, certId, reason, actor).0;
      ListShows(db'.crls, st.db.certs[certId - 1].certificate.content.serial, env.now, reason)
  {
    hide RunningOk, RefreshCrl, FreshFor, ServedCrl;
    LeafFacts(cfg, st, certId - 1);
    ReasonFlagsExact(reason);
    var committed := CommitRevocation(st.db, certId, reason, actor, env.now);
    var after := State(Revoke(st.db, st.vault, env, certId, reason, actor).0, st.vault, st.keyFile);
    RevokedRuns(cfg, st, env, certId, reason, actor);
    RefreshTables(committed, st.vault, st.db.certs[certId - 1].caId, env.now);
    var row := RevocationRow(certId, env.now, reason, actor);
    assert row in after.db.revocations;
    var e := CrlEntry(st.db.certs[certId - 1].certificate.content.serial, env.now, REASON_FLAGS[reason]);
    assert IsTriple(after.db, row, 2, e);
    ServedListOf(cfg, after, 2, e);
  }

  lemma RevokedRuns(cfg: Config, st: State, env: Env, certId: nat, reason: string, actor: Option<nat>)
    requires RunningOk(cfg, st) && RevokeError(st.db, env, certId, reason, actor) == None
    ensures
      var after := State(Revoke(st.db, st.vault, env, certId, reason, actor).0, st.vault, st.keyFile);
      RunningOk(cfg, after) && FreshFor(after.db, 2) && HasId(after.db.cas, 2)
  {
    hide DbOk, VaultOk, FreshFor, RefreshCrl;
    RevokeKeeps(MasterKeyOf(cfg, st), st.db, st.vault, env, certId, reason, actor);
    LeafFacts(cfg, st, certId - 1);
    RefreshCount(CommitRevocation(st.db, certId, reason, actor, env.now), st.vault, st.db.certs[certId - 1].caId,
                 env.now);
  }

  // ----- Renewal -----

  function CountValid(certs: seq<CertRow>): nat
  {
    if certs == [] then 0
    else CountValid(certs[..|certs| - 1]) + if certs[|certs| - 1].status == Valid then 1 else 0
  }

  lemma CountAppend(certs: seq<CertRow>, row: CertRow)
    ensures CountValid(certs + [row]) == CountValid(certs) + if row.status == Valid then 1 else 0
  {
  }

  lemma {:induction false} CountUpdate(certs: seq<CertRow>, i: nat, row: CertRow)
    requires i < |certs|
    ensures CountValid(certs[i := row]) ==
            CountValid(certs) - (if certs[i].status == Valid then 1 else 0) + (if row.status == Valid then 1 else 0)
  {
    var n := |certs| - 1;
    if i < n {
      CountUpdate(certs[..n], i, row);
      assert certs[i := row][..n] == certs[..n][i := row];
    } else {
      assert certs[i := row][..n] == certs[..n];
    }
  }

  /** What follows the issuance inside a renewal. */
  lemma RenewCases(db: Db, vault: Vault, env: Env, predecessor: nat, args: IssueArgs)
    requires HasId(db.certs, predecessor)
    requires Issue(db, vault, env, args.(profileCode := db.certs[predecessor - 1].profileCode)).1.Ok?
    ensures
      var (issued, issue) := Issue(db, vault, env, args.(profileCode := db.certs[predecessor - 1].profileCode));
      var (db', r) := Renew(db, vault, env, predecessor, args);
      if db.certs[predecessor - 1].status != Valid then db' == issued && r == Ok((issue.value, false))
      else RevokeError(issued, env, predecessor, "superseded", args.requestedBy) == None ==>
             && db' == Revoke(issued, vault, env, predecessor, "superseded", args.requestedBy).0
             && r == Ok((issue.value, true))
  {
  }

  /** The tables after a renewal that got its certificate. */
  lemma RenewTables(cfg: Config, st: State, env: Env, predecessor: nat, args: IssueArgs) returns (row: CertRow)
    requires RunningOk(cfg, st) && HasId(st.db.certs, predecessor)
    requires Issue(st.db, st.vault, env, args.(profileCode := st.db.certs[predecessor - 1].profileCode)).1.Ok?
    ensures row.status == Valid && row.csr == args.csr && row.profileCode == st.db.certs[predecessor - 1].profileCode
    ensures
      var issued := st.db.(certs := st.db.certs + [row]);
      var (db', r) := Renew(st.db, st.vault, env, predecessor, args);
      && issued == Issue(st.db, st.vault, env, args.(profileCode := st.db.certs[predecessor - 1].profileCode)).0
      && DbOk(MasterKeyOf(cfg, st), issued)
      && if st.db.certs[predecessor - 1].status != Valid
         then db' == issued && r == Ok((|issued.certs|, false))
         else db' == Revoke(issued, st.vault, env, predecessor, "superseded", args.requestedBy).0
              && RevokeError(issued, env, predecessor, "superseded", args.requestedBy) == None
              && r == Ok((|issued.certs|, true))
  {
    hide Issue, Revoke, Renew, DbOk, VaultOk;
    var masterKey := MasterKeyOf(cfg, st);
    var args' := args.(profileCode := st.db.certs[predecessor - 1].profileCode);
    row := IssuedRow(masterKey, st.db, st.vault, env, args');
    IssueKeeps(masterKey, st.db, st.vault, env, args');
    var issued := st.db.(certs := st.db.certs + [row]);
    assert Issue(st.db, st.vault, env, args').0 == issued;
    RenewCases(st.db, st.vault, env, predecessor, args);
    if st.db.certs[predecessor - 1].status == Valid {
      NotYetRevoked(cfg, st, predecessor);
      assert "superseded" in REASON_FLAGS;
    }
  }

  /** What a renewal that got its certificate leaves behind. */
  predicate Renewed(db: Db, db': Db, env: Env, predecessor: nat, args: IssueArgs, newId: nat, superseded: bool)
    requires HasId(db.certs, predecessor)
  {
    var old_ := db.certs[predecessor - 1];
    && newId == |db.certs| + 1 == |db'.certs| && db'.requests == db.requests
    && (exists profile :: profile in env.profiles
          && AsAsked(db'.certs[|db.certs|], args.(profileCode := old_.profileCode), profile, env.now))
    && (forall i :: 0 <= i < |db.certs| && i != predecessor - 1 ==> db'.certs[i] == db.certs[i])
    && (superseded <==> old_.status == Valid)
    && (superseded ==>
          && db'.certs[predecessor - 1] == old_.(status := Revoked)
          && db'.revocations ==
               db.revocations + [RevocationRow(predecessor, env.now, "superseded", args.requestedBy)]
          && CountValid(db'.certs) == CountValid(db.certs)
          && ListShows(db'.crls, old_.certificate.content.serial, env.now, "superseded"))
    && (!superseded ==>
          && db'.certs[predecessor - 1] == old_ && db'.revocations == db.revocations && db'.crls == db.crls
          && CountValid(db'.certs) == CountValid(db.certs) + 1)
  }

  /**
   A renewal succeeds exactly when the predecessor exists and a certificate of its profile is issuable,
   and a failure changes nothing. It adds one valid certificate of the predecessor's profile, as asked, and
   supersedes the predecessor exactly when that was valid:
   the number of valid certificates stays the same and the newest list shows the predecessor.
   */
  lemma RenewalExact(
      cfg: Config, keyFile: Option<MasterKey>, events: seq<Event>, env: Env, predecessor: nat, args: IssueArgs)
    ensures
      var st := Run(cfg, keyFile, events);
      var (db', r) := Renew(st.db, st.vault, env, predecessor, args);
      && (r == Err(PredecessorNotFound) <==> !HasId(st.db.certs, predecessor))
      && (r.Err? ==> db' == st.db)
      && (HasId(st.db.certs, predecessor) ==>
            var args' := args.(profileCode := st.db.certs[predecessor - 1].profileCode);
            && (r.Ok? <==> Issuable(st.db, env, args'))
            && (r.Err? ==> FailsWith(st.db, env, args', r.error))
            && (r.Ok? ==> Renewed(st.db, db', env, predecessor, args, r.value.0, r.value.1)))
  {
    hide Run, RunningOk, Issuable;
    RunOk(cfg, keyFile, events);
    var st := Run(cfg, keyFile, events);
    if HasId(st.db.certs, predecessor) {
      hide Renewed, Issue, Renew, FailsWith;
      var args' := args.(profileCode := st.db.certs[predecessor - 1].profileCode);
      IssuanceOf(cfg, st, env, args');
      NeverPredecessor(st.db, env, args');
      if Issue(st.db, st.vault, env, args').1.Ok? {
        RenewalOf(cfg, st, env, predecessor, args);
      } else {
        RenewFails(st.db, st.vault, env, predecessor, args);
      }
    }
  }

  lemma NeverPredecessor(db: Db, env: Env, args: IssueArgs)
    ensures !FailsWith(db, env, args, PredecessorNotFound)
  {
  }

  lemma RenewalOf(cfg: Config, st: State, env: Env, predecessor: nat, args: IssueArgs)
    requires RunningOk(cfg, st) && HasId(st.db.certs, predecessor)
    requires Issue(st.db, st.vault, env, args.(profileCode := st.db.certs[predecessor - 1].profileCode)).1.Ok?
    ensures
      var (db', r) := Renew(st.db, st.vault, env, predecessor, args);
      r.Ok? && Renewed(st.db, db', env, predecessor, args, r.value.0, r.value.1)
  {
    hide RunningOk, Issue, Renew, Revoke, RevokeError, DbOk, CountValid, ListShows, AsAsked, Issuable, FailsWith;
    var row := RenewTables(cfg, st, env, predecessor, args);
    IssuanceOf(cfg, st, env, args.(profileCode := st.db.certs[predecessor - 1].profileCode));
    CountAppend(st.db.certs, row);
    if st.db.certs[predecessor - 1].status == Valid {
      var issued := st.(db := st.db.(certs := st.db.certs + [row]));
      RunsWith(cfg, st, issued);
      Superseding(cfg, issued, env, predecessor, args.requestedBy);
    }
  }

  lemma RunsWith(cfg: Config, st: State, st': State)
    requires RunningOk(cfg, st) && st'.vault == st.vault && st'.keyFile == st.keyFile && st'.db.cas == st.db.cas
    requires DbOk(MasterKeyOf(cfg, st), st'.db)
    ensures RunningOk(cfg, st')
  {
  }

  lemma RenewFails(db: Db, vault: Vault, env: Env, predecessor: nat, args: IssueArgs)
    requires HasId(db.certs, predecessor)
    requires Issue(db, vault, env, args.(profileCode := db.certs[predecessor - 1].profileCode)).1.Err?
    ensures
      var (issued, issue) := Issue(db, vault, env, args.(profileCode := db.certs[predecessor - 1].profileCode));
      var (db', r) := Renew(db, vault, env, predecessor, args);
      db' == issued == db && r == Err(issue.error)
  {
    hide Issue, Revoke;
    IssueUnchanged(db, vault, env, args.(profileCode := db.certs[predecessor - 1].profileCode));
  }

  /** Revoking a valid certificate of a running CA because it has been replaced. */
  lemma Superseding(cfg: Config, st: State, env: Env, certId: nat, actor: Option<nat>)
    requires RunningOk(cfg, st) && HasId(st.db.certs, certId) && st.db.certs[certId - 1].status == Valid
    requires RevokeError(st.db, env, certId, "superseded", actor) == None
    ensures
      var db' := Revoke(st.db, st.vault, env, certId, "superseded", actor).0;
      && db'.certs == st.db.certs[certId - 1 := st.db.certs[certId - 1].(status := Revoked)]
      && db'.revocations == st.db.revocations + [RevocationRow(certId, env.now, "superseded", actor)]
      && db'.requests == st.db.requests
      && CountValid(db'.certs) == CountValid(st.db.certs) - 1
      && ListShows(db'.crls, st.db.certs[certId - 1].certificate.content.serial, env.now, "superseded")
  {
    hide RunningOk, RefreshCrl, ListShows;
    var committed := CommitRevocation(st.db, certId, "superseded", actor, env.now);
    RefreshTables(committed, st.vault, st.db.certs[certId - 1].caId, env.now);
    CountUpdate(st.db.certs, certId - 1, st.db.certs[certId - 1].(status := Revoked));
    RevocationOnList(cfg, st, env, certId, "superseded", actor);
  }

  lemma RefreshTables(db: Db, vault: Vault, caId: nat, now: int)
    ensures
      var db' := RefreshCrl(db, vault, caId, now);
      db'.certs == db.certs && db'.revocations == db.revocations && db'.requests == db.requests
  {
  }

  // ----- The request workflow -----

  /**
   In every run, crashes included: a request is APPROVED exactly when it names a certificate, that
   certificate was issued for its signing request, profile and requester, and no two requests name the same one.
   */
  lemma Workflow(cfg: Config, keyFile: Option<MasterKey>, events: seq<Event>, i: nat, j: nat)
    ensures
      var db := Run(cfg, keyFile, events).db;
      i < |db.requests| ==>
        var request := db.requests[i];
        && (request.status == Approved <==> request.certificateId.Some?)
        && (request.certificateId.Some? ==>
              && HasId(db.certs, request.certificateId.value)
              && var row := db.certs[request.certificateId.value - 1];
                 && row.csr == request.csr && row.profileCode == request.profileCode
                 && row.requestedBy == Some(request.requestedBy))
        && (request.certificateId.Some? ==>
              j < |db.requests| && db.requests[j].certificateId == request.certificateId ==> i == j)
  {
    hide Run, CertsOk, RevocationsOk, CrlsOk, CasOk, VaultOk;
    RunOk(cfg, keyFile, events);
    var st := Run(cfg, keyFile, events);
    if i < |st.db.requests| {
      RequestAt(MasterKeyOf(cfg, st), st.db, i);
    }
  }

  /** APPROVED and REJECTED are final, and what was asked for never changes. */
  lemma DecisionsFinal(cfg: Config, keyFile: Option<MasterKey>, events: seq<Event>, n: nat, i: nat)
    requires n <= |events|
    ensures
      var before, after := Run(cfg, keyFile, events[..n]).db, Run(cfg, keyFile, events).db;
      i < |before.requests| ==>
        && i < |after.requests|
        && (before.requests[i].status != RequestPending ==> after.requests[i] == before.requests[i])
        && after.requests[i].csr == before.requests[i].csr
        && after.requests[i].profileCode == before.requests[i].profileCode
        && after.requests[i].requestedBy == before.requests[i].requestedBy
  {
    hide Run;
    NothingUndone(cfg, keyFile, events, n);
  }

  predicate Pending(db: Db, requestId: nat)
  {
    HasId(db.requests, requestId) && db.requests[requestId - 1].status == RequestPending
  }

  /** The certificate a request stands for: for its requester, through no API token, for the lifetime given. */
  function Asked(request: RequestRow, validityDays: Option<int>, draws: Draws): IssueArgs
  {
    IssueArgs(request.csr, request.profileCode, Some(request.requestedBy), Ui, None, validityDays, draws)
  }

  /** The request is pending and a certificate as it asks is issuable. */
  predicate Approvable(db: Db, env: Env, requestId: nat, validityDays: Option<int>, draws: Draws)
  {
    Pending(db, requestId) && Issuable(db, env, Asked(db.requests[requestId - 1], validityDays, draws))
  }

  /** Why a request cannot be approved. */
  ghost predicate ApprovalRefused(
      db: Db, env: Env, requestId: nat, reviewer: nat, validityDays: Option<int>, draws: Draws, error: RequestError)
  {
    match error
    case NotFound => !HasId(db.requests, requestId)
    case NotPending => HasId(db.requests, requestId) && db.requests[requestId - 1].status != RequestPending
    case IssuanceFailed(e) =>
      && Pending(db, requestId) && e != Uncaught
      && FailsWith(db, env, Asked(db.requests[requestId - 1], validityDays, draws), e)
    case UncaughtError =>
      && Pending(db, requestId)
      && (|| FailsWith(db, env, Asked(db.requests[requestId - 1], validityDays, draws), Uncaught)
          || (Approvable(db, env, requestId, validityDays, draws) && reviewer !in env.users))
    case _ => false
  }

  /** The row is that of a certificate for this request, of the reviewer's lifetime or the profile's longest. */
  predicate IssuedFor(row: CertRow, request: RequestRow, validityDays: Option<int>, profile: Profile, now: int)
  {
    && row.csr == request.csr && row.profileCode == request.profileCode == profile.code && profile.isActive
    && row.requestedBy == Some(request.requestedBy) && row.issuedVia == Ui && row.apiToken == None
    && row.status == Valid && request.csr.Readable?
    && var csr, c := request.csr.csr, row.certificate.content;
       && c.subject == csr.subject && c.publicKey == csr.publicKey && c.sans == csr.sans && Printed(row.sans, csr.sans)
       && c.notAfter == now + (if validityDays.Some? then validityDays.value else profile.maxValidityDays) * 86400
       && (validityDays.Some? ==> c.notAfter <= now + profile.maxValidityDays * 86400)
  }

  /** What an approval returns and does to the tables, in terms of what is known before the call. */
  ghost predicate ApprovalOutcome(
      db: Db, env: Env, requestId: nat, reviewer: nat, validityDays: Option<int>, draws: Draws, db': Db,
      r: Result<nat, RequestError>)
  {
    var approvable := Approvable(db, env, requestId, validityDays, draws);
    && (r.Ok? <==> approvable && reviewer in env.users)
    && (r.Ok? ==>
          && r.value == requestId
          && db' == db.(certs := db'.certs, requests := db'.requests)
          && |db'.certs| == |db.certs| + 1 && db'.certs[..|db.certs|] == db.certs
          && (exists profile :: profile in env.profiles
                && IssuedFor(db'.certs[|db.certs|], db.requests[requestId - 1], validityDays, profile, env.now))
          && db'.requests == db.requests[requestId - 1 := db.requests[requestId - 1].(
               status := Approved, reviewedBy := Some(reviewer), reviewedAt := Some(env.now),
               certificateId := Some(|db'.certs|))])
    && (r.Err? ==>
          && ApprovalRefused(db, env, requestId, reviewer, validityDays, draws, r.error)
          && db'.requests == db.requests && |db'.certs| == |db.certs| + (if approvable then 1 else 0)
          && (db' != db <==> approvable && reviewer !in env.users))
  }

  /**
   In every run an approval succeeds exactly when the request is pending, a certificate as it asks, for the
   lifetime the reviewer gives, is issuable and the reviewer is a stored user. It fails with the tables
   changed exactly when only the last of these is missing, so never for a stored reviewer. The lifetime of a
   request that passes the checks before it is refused exactly outside the limit of its profile.
   */
  lemma ApprovalExact(
      cfg: Config, keyFile: Option<MasterKey>, events: seq<Event>, env: Env, requestId: nat, reviewer: nat,
      validityDays: Option<int>, draws: Draws)
    ensures
      var st := Run(cfg, keyFile, events);
      var (db', r) := Approve(st.db, st.vault, env, requestId, reviewer, validityDays, draws);
      && ApprovalOutcome(st.db, env, requestId, reviewer, validityDays, draws, db', r)
      && (r.Err? && reviewer in env.users ==> db' == st.db)
    ensures
      var st := Run(cfg, keyFile, events);
      var (db', r) := Approve(st.db, st.vault, env, requestId, reviewer, validityDays, draws);
      Pending(st.db, requestId) && |st.db.cas| == 2 ==>
        var request := st.db.requests[requestId - 1];
        var profile := FindProfile(env.profiles, request.profileCode);
        profile.Some? && Acceptable(request.csr, profile.value) ==>
          (r == Err(IssuanceFailed(ValidityExceedsProfileMax)) <==>
             validityDays.Some? && !(1 <= validityDays.value <= profile.value.maxValidityDays))
  {
    hide Run, ApprovalOutcome, Acceptable, FindProfile, RunningOk;
    RunOk(cfg, keyFile, events);
    var st := Run(cfg, keyFile, events);
    ApprovalOf(cfg, st, env, requestId, reviewer, validityDays, draws);
    if Pending(st.db, requestId) && |st.db.cas| == 2 {
      ApprovalLifetime(cfg, st, env, requestId, reviewer, validityDays, draws);
    }
    OnlyUnknownReviewers(st, env, requestId, reviewer, validityDays, draws);
  }

  lemma OnlyUnknownReviewers(
      st: State, env: Env, requestId: nat, reviewer: nat, validityDays: Option<int>, draws: Draws)
    requires
      var (db', r) := Approve(st.db, st.vault, env, requestId, reviewer, validityDays, draws);
      ApprovalOutcome(st.db, env, requestId, reviewer, validityDays, draws, db', r)
    ensures
      var (db', r) := Approve(st.db, st.vault, env, requestId, reviewer, validityDays, draws);
      r.Err? && reviewer in env.users ==> db' == st.db
  {
    hide Approve, Approvable, ApprovalRefused, IssuedFor;
  }

  lemma IssuedAsAsked(
      row: CertRow, request: RequestRow, validityDays: Option<int>, draws: Draws, profile: Profile, now: int)
    requires AsAsked(row, Asked(request, validityDays, draws), profile, now)
    ensures IssuedFor(row, request, validityDays, profile, now)
  {
  }

  lemma ApprovalOf(
      cfg: Config, st: State, env: Env, requestId: nat, reviewer: nat, validityDays: Option<int>, draws: Draws)
    requires RunningOk(cfg, st)
    ensures
      var (db', r) := Approve(st.db, st.vault, env, requestId, reviewer, validityDays, draws);
      ApprovalOutcome(st.db, env, requestId, reviewer, validityDays, draws, db', r)
  {
    hide RunningOk, Issue, Issuable, FailsWith, AsAsked, IssuedFor, FirstDraw;
    if Pending(st.db, requestId) {
      var args := Asked(st.db.requests[requestId - 1], validityDays, draws);
      assert args == ApprovalArgs(st.db.requests[requestId - 1], validityDays, draws);
      IssuanceOf(cfg, st, env, args);
      var (issued, r) := Issue(st.db, st.vault, env, args);
      if r.Ok? {
        var row := issued.certs[|st.db.certs|];
        var profile :| profile in env.profiles && AsAsked(row, args, profile, env.now);
        IssuedAsAsked(row, st.db.requests[requestId - 1], validityDays, draws, profile, env.now);
      }
    }
  }

  lemma ApprovalLifetime(
      cfg: Config, st: State, env: Env, requestId: nat, reviewer: nat, validityDays: Option<int>, draws: Draws)
    requires RunningOk(cfg, st) && Pending(st.db, requestId)
    requires |st.db.cas| == 2
    ensures
      var r := Approve(st.db, st.vault, env, requestId, reviewer, validityDays, draws).1;
      var request := st.db.requests[requestId - 1];
      var profile := FindProfile(env.profiles, request.profileCode);
      profile.Some? && Acceptable(request.csr, profile.value) ==>
        (r == Err(IssuanceFailed(ValidityExceedsProfileMax)) <==>
           validityDays.Some? && !(1 <= validityDays.value <= profile.value.maxValidityDays))
  {
    hide RunningOk, Issue, Issuable, AsAsked, FirstDraw, Acceptable, FindProfile;
    IssuanceOf(cfg, st, env, Asked(st.db.requests[requestId - 1], validityDays, draws));
  }

  // ----- Several certificates for one request -----

  /** Event m is an approval of the request that issues a certificate. */
  predicate IssuesFor(cfg: Config, keyFile: Option<MasterKey>, events: seq<Event>, m: nat, requestId: nat)
  {
    && m < |events| && events[m].op.ApproveOp? && events[m].op.requestId == requestId
    && |Run(cfg, keyFile, events[..m]).db.certs| < |Run(cfg, keyFile, events[..m + 1]).db.certs|
  }

  /** What is known before an approval that makes it issue a certificate. */
  predicate WillIssue(db: Db, e: Event, requestId: nat)
  {
    && e.op.ApproveOp? && e.op.requestId == requestId
    && Approvable(db, e.env, requestId, e.op.validityDays, e.op.draws)
    && (e.crash.Some? ==> e.crash.value.commits > 0)
  }

  /** The approval ends between its two commits: the process dies there, or the reviewer is not stored. */
  predicate CutShort(e: Event)
    requires e.op.ApproveOp?
  {
    (e.crash.Some? && e.crash.value.commits == 1) || e.op.reviewer !in e.env.users
  }

  lemma ApproveStep(cfg: Config, st: State, e: Event, requestId: nat)
    requires RunningOk(cfg, st) && e.op.ApproveOp? && e.op.requestId == requestId
    ensures
      var db' := After(cfg, st, e).db;
      && (|st.db.certs| < |db'.certs| <==> WillIssue(st.db, e, requestId))
      && (WillIssue(st.db, e, requestId) ==>
          HasId(db'.requests, requestId) && (Pending(db', requestId) <==> CutShort(e)))
  {
    hide RunningOk, StoredOk, Issue, Approve, Issuable, Restart, AsAsked, IssuedFor, FailsWith, ApprovalRefused;
    hide FirstDraw;
    ApprovalOf(cfg, st, e.env, requestId, e.op.reviewer, e.op.validityDays, e.op.draws);
    if Pending(st.db, requestId) {
      IssuanceOf(cfg, st, e.env, Asked(st.db.requests[requestId - 1], e.op.validityDays, e.op.draws));
    }
    if e.crash.Some? {
      var k := e.crash.value.commits;
      PartialOk(cfg, st, e.env, e.op, k);
      RestartOk(cfg, Partial(cfg, st, e.env, e.op, k), e.crash.value.drawn);
    }
  }

  lemma IssuesExactly(cfg: Config, keyFile: Option<MasterKey>, events: seq<Event>, m: nat, requestId: nat)
    requires m < |events|
    ensures IssuesFor(cfg, keyFile, events, m, requestId) <==>
        WillIssue(Run(cfg, keyFile, events[..m]).db, events[m], requestId)
    ensures IssuesFor(cfg, keyFile, events, m, requestId) ==>
              && HasId(Run(cfg, keyFile, events[..m + 1]).db.requests, requestId)
              && (Pending(Run(cfg, keyFile, events[..m + 1]).db, requestId) <==> CutShort(events[m]))
  {
    hide RunningOk, After, Approvable, Pending;
    var init := events[..m];
    assert events[..m + 1][..m] == init;
    assert Run(cfg, keyFile, events[..m + 1]) == After(cfg, Run(cfg, keyFile, init), events[m]);
    hide Run;
    RunOk(cfg, keyFile, init);
    if events[m].op.ApproveOp? && events[m].op.requestId == requestId {
      ApproveStep(cfg, Run(cfg, keyFile, init), events[m], requestId);
    }
  }

  /**
   In every run two approvals of one request both issue a certificate exactly when the earlier one is
   cut short between its commits and the request is approvable both times. So a request whose approvals
   all run to their end, by stored reviewers, gets one certificate at most.
   */
  lemma ReissuedExactly(cfg: Config, keyFile: Option<MasterKey>, events: seq<Event>, m: nat, n: nat, requestId: nat)
    requires m < n < |events|
    ensures
      IssuesFor(cfg, keyFile, events, m, requestId) && IssuesFor(cfg, keyFile, events, n, requestId) <==>
        && WillIssue(Run(cfg, keyFile, events[..m]).db, events[m], requestId) && CutShort(events[m])
        && WillIssue(Run(cfg, keyFile, events[..n]).db, events[n], requestId)
  {
    hide Run, Approvable, Pending;
    IssuesExactly(cfg, keyFile, events, m, requestId);
    IssuesExactly(cfg, keyFile, events, n, requestId);
    if IssuesFor(cfg, keyFile, events, m, requestId) && IssuesFor(cfg, keyFile, events, n, requestId) {
      PendingBefore(cfg, keyFile, events, m + 1, n, requestId);
      ApprovablePending(Run(cfg, keyFile, events[..n]).db, events[n], requestId);
    }
  }

  lemma ApprovablePending(db: Db, e: Event, requestId: nat)
    requires WillIssue(db, e, requestId)
    ensures Pending(db, requestId)
  {
    hide Issuable;
  }

  /** A request that is there and pending later was pending before. */
  lemma PendingBefore(cfg: Config, keyFile: Option<MasterKey>, events: seq<Event>, m: nat, n: nat, requestId: nat)
    requires m <= n <= |events|
    ensures
      HasId(Run(cfg, keyFile, events[..m]).db.requests, requestId)
          && Pending(Run(cfg, keyFile, events[..n]).db, requestId) ==>
        Pending(Run(cfg, keyFile, events[..m]).db, requestId)
  {
    hide Run;
    assert events[..n][..m] == events[..m];
    if HasId(Run(cfg, keyFile, events[..m]).db.requests, requestId) {
      DecisionsFinal(cfg, keyFile, events[..n], m, requestId - 1);
    }
  }

  /** Why a reader gets no certificate. */
  predicate OwnerRefused(db: Db, requestId: nat, actor: nat, privileged: bool, error: RequestError)
  {
    if !HasId(db.requests, requestId) then error == NotFound
    else if db.requests[requestId - 1].requestedBy != actor && !privileged then error == Forbidden
    else error == NotApproved
  }

  /**
   Only the requester or a privileged reader gets the certificate of an approved request, and it is
   that request's.
   */
  lemma OwnersOnly(
      cfg: Config, keyFile: Option<MasterKey>, events: seq<Event>, requestId: nat, actor: nat, privileged: bool)
    ensures
      var db := Run(cfg, keyFile, events).db;
      var r := OwnedCertificate(db, requestId, actor, privileged);
      && (r.Ok? <==>
            && HasId(db.requests, requestId)
            && (db.requests[requestId - 1].requestedBy == actor || privileged)
            && db.requests[requestId - 1].status == Approved)
      && (r.Err? ==> OwnerRefused(db, requestId, actor, privileged, r.error))
      && (r.Ok? ==>
            && Some(r.value) == db.requests[requestId - 1].certificateId && HasId(db.certs, r.value)
            && db.certs[r.value - 1].requestedBy == Some(db.requests[requestId - 1].requestedBy)
            && db.certs[r.value - 1].csr == db.requests[requestId - 1].csr)
  {
    var db := Run(cfg, keyFile, events).db;
    hide Run;
    if HasId(db.requests, requestId) {
      Workflow(cfg, keyFile, events, requestId - 1, requestId - 1);
    }
  }

  // ----- Submitting and rejecting -----

  /** Why a request is not stored. */
  ghost predicate SubmissionRefused(env: Env, csr: CsrPem, profileCode: string, requestedBy: nat, error: IssueError)
  {
    var profile := FindProfile(env.profiles, profileCode);
    if profile.None? then error == UnknownProfile
    else if !Acceptable(csr, profile.value) then ComplainsOf(csr, profile.value, error)
    else requestedBy !in env.users && error == Uncaught
  }

  /**
   In every run a request is stored, pending and as asked, exactly when an active profile of the asked
   code accepts its signing request and the requester is a stored user; and approving it at once would
   pass every check that comes before drawing a serial, once the intermediate is there.
   */
  lemma SubmissionExact(
      cfg: Config, keyFile: Option<MasterKey>, events: seq<Event>, env: Env, csr: CsrPem, profileCode: string,
      requestedBy: nat, draws: Draws)
    ensures
      var db := Run(cfg, keyFile, events).db;
      var (db', r) := Submit(db, env, csr, profileCode, requestedBy);
      var profile := FindProfile(env.profiles, profileCode);
      && (r.Ok? <==> profile.Some? && Acceptable(csr, profile.value) && requestedBy in env.users)
      && (r.Err? ==> db' == db && SubmissionRefused(env, csr, profileCode, requestedBy, r.error))
      && (r.Ok? ==>
            && r.value == |db'.requests| == |db.requests| + 1
            && db' == db.(requests := db.requests
                 + [RequestRow(csr, profileCode, requestedBy, RequestPending, None, None, None, None)])
            && (|db.cas| == 2 ==> RequestPasses(db', env, Asked(db'.requests[r.value - 1], None, draws))))
  {
    hide Run, ValidatedCsr, Acceptable, ComplainsOf;
    var profile := FindProfile(env.profiles, profileCode);
    if profile.Some? {
      AcceptedExactly(csr, profile.value);
    }
  }

  /** Why a request cannot be rejected. */
  predicate RejectionRefused(db: Db, env: Env, requestId: nat, reviewer: nat, error: RequestError)
  {
    if !HasId(db.requests, requestId) then error == NotFound
    else if db.requests[requestId - 1].status != RequestPending then error == NotPending
    else reviewer !in env.users && error == UncaughtError
  }

  /** A rejection succeeds exactly for a pending request and a stored reviewer, and touches that request only. */
  lemma RejectionOf(db: Db, env: Env, requestId: nat, reviewer: nat, reason: string)
    ensures
      var (db', r) := Reject(db, env, requestId, reviewer, reason);
      && (r.Ok? <==> Pending(db, requestId) && reviewer in env.users)
      && (r.Err? ==> db' == db && RejectionRefused(db, env, requestId, reviewer, r.error))
      && (r.Ok? ==>
            && r.value == requestId
            && db' == db.(requests := db'.requests) && |db'.requests| == |db.requests|
            && (forall i :: 0 <= i < |db.requests| && i != requestId - 1 ==> db'.requests[i] == db.requests[i])
            && db'.requests[requestId - 1] == db.requests[requestId - 1].(
                 status := Rejected, reviewedBy := Some(reviewer), reviewedAt := Some(env.now),
                 rejectionReason := Some(reason)))
  {
  }

  /** Event m rejects the request: a call that reaches its commit. */
  predicate RejectsAt(cfg: Config, keyFile: Option<MasterKey>, events: seq<Event>, m: nat, requestId: nat)
  {
    && m < |events| && events[m].op.RejectOp? && events[m].op.requestId == requestId
    && Pending(Run(cfg, keyFile, events[..m]).db, requestId) && events[m].op.reviewer in events[m].env.users
    && (events[m].crash.Some? ==> events[m].crash.value.commits > 0)
  }

  lemma RejectStep(cfg: Config, st: State, e: Event, requestId: nat)
    requires RunningOk(cfg, st) && e.op.RejectOp? && e.op.requestId == requestId
    requires Pending(st.db, requestId) && e.op.reviewer in e.env.users
    requires e.crash.Some? ==> e.crash.value.commits > 0
    ensures
      var db' := After(cfg, st, e).db;
      && HasId(db'.requests, requestId)
      && db'.requests[requestId - 1] == st.db.requests[requestId - 1].(
           status := Rejected, reviewedBy := Some(e.op.reviewer), reviewedAt := Some(e.env.now),
           rejectionReason := Some(e.op.rejection))
  {
    hide RunningOk, StoredOk, Restart, Reject;
    RejectionOf(st.db, e.env, requestId, e.op.reviewer, e.op.rejection);
    if e.crash.Some? {
      PartialOk(cfg, st, e.env, e.op, e.crash.value.commits);
      RestartOk(cfg, Partial(cfg, st, e.env, e.op, e.crash.value.commits), e.crash.value.drawn);
    }
  }

  /**
   A rejected request keeps its reviewer, date and reason at every later moment of every run, and never
   gets a certificate again.
   */
  lemma RejectionExact(cfg: Config, keyFile: Option<MasterKey>, events: seq<Event>, m: nat, n: nat, requestId: nat)
    requires m < n <= |events|
    ensures
      RejectsAt(cfg, keyFile, events, m, requestId) ==>
        var db := Run(cfg, keyFile, events[..n]).db;
        && HasId(db.requests, requestId)
        && db.requests[requestId - 1] == Run(cfg, keyFile, events[..m]).db.requests[requestId - 1].(
             status := Rejected, reviewedBy := Some(events[m].op.reviewer), reviewedAt := Some(events[m].env.now),
             rejectionReason := Some(events[m].op.rejection))
        && !IssuesFor(cfg, keyFile, events, n, requestId)
  {
    hide RunningOk, After, Approvable;
    if RejectsAt(cfg, keyFile, events, m, requestId) {
      assert events[..m + 1][..m] == events[..m] && events[..n][..m + 1] == events[..m + 1];
      var st := Run(cfg, keyFile, events[..m]);
      assert Run(cfg, keyFile, events[..m + 1]) == After(cfg, st, events[m]);
      hide Run;
      RunOk(cfg, keyFile, events[..m]);
      RejectStep(cfg, st, events[m], requestId);
      DecisionsFinal(cfg, keyFile, events[..n], m + 1, requestId - 1);
      if n < |events| {
        IssuesExactly(cfg, keyFile, events, n, requestId);
        if IssuesFor(cfg, keyFile, events, n, requestId) {
          ApprovablePending(Run(cfg, keyFile, events[..n]).db, events[n], requestId);
        }
      }
    }
  }
}
