/** How the tables change along a run: what is never undone, and what only one job may change. */
module CaHistory {
  import opened Wrappers
  import opened Crypto
  import opened CertPolicy
  import opened CaState
  import opened CaInvariant
  import opened CaMachine

  // ----- What a commit may do to a table -----

  /** Certificates are appended; an old one changes its status at most, and never leaves REVOKED. */
  predicate CertsGrow(certs: seq<CertRow>, certs': seq<CertRow>)
  {
    && |certs| <= |certs'|
    && (forall i :: 0 <= i < |certs| ==>
          && certs'[i] == certs[i].(status := certs'[i].status)
          && (certs[i].status == Revoked ==> certs'[i].status == Revoked))
    && (forall i :: |certs| <= i < |certs'| ==> certs'[i].expiryNotifiedAt == None)
  }

  /** A notification date is set where there was none, and nothing else happens. */
  predicate CertsNotified(certs: seq<CertRow>, certs': seq<CertRow>)
  {
    && |certs| == |certs'|
    && (forall i :: 0 <= i < |certs| ==>
          && certs'[i] == certs[i].(expiryNotifiedAt := certs'[i].expiryNotifiedAt)
          && (certs[i].expiryNotifiedAt.Some? ==> certs'[i] == certs[i]))
  }

  /** CA rows are appended; an old one only counts its lists up. */
  predicate CasGrow(cas: seq<CaRow>, cas': seq<CaRow>)
  {
    && |cas| <= |cas'|
    && forall i :: 0 <= i < |cas| ==>
         cas'[i] == cas[i].(crlNumber := cas'[i].crlNumber) && cas[i].crlNumber <= cas'[i].crlNumber
  }

  /** Requests are appended; a decided one stays as it is. */
  predicate RequestsGrow(requests: seq<RequestRow>, requests': seq<RequestRow>)
  {
    && |requests| <= |requests'|
    && forall i :: 0 <= i < |requests| ==>
         && requests'[i].csr == requests[i].csr && requests'[i].profileCode == requests[i].profileCode
         && requests'[i].requestedBy == requests[i].requestedBy
         && (requests[i].status != RequestPending ==> requests'[i] == requests[i])
  }

  predicate OthersGrow(db: Db, db': Db)
  {
    && CasGrow(db.cas, db'.cas) && RequestsGrow(db.requests, db'.requests)
    && db.revocations <= db'.revocations && db.crls <= db'.crls
  }

  /** Lists added by a call at this time carry it. */
  predicate Published(crls: seq<CrlRow>, crls': seq<CrlRow>, now: int)
  {
    forall k :: |crls| <= k < |crls'| ==> crls'[k].thisUpdate == now
  }

  predicate Grows(db: Db, db': Db, now: int)
  {
    OthersGrow(db, db') && CertsGrow(db.certs, db'.certs) && Published(db.crls, db'.crls, now)
  }

  /** What may happen to a certificate row in the long run. */
  predicate RowEvolves(row: CertRow, row': CertRow)
  {
    && row' == row.(status := row'.status, expiryNotifiedAt := row'.expiryNotifiedAt)
    && (row.status == Revoked ==> row'.status == Revoked)
    && (row.expiryNotifiedAt.Some? ==> row'.expiryNotifiedAt == row.expiryNotifiedAt)
  }

  predicate Evolves(db: Db, db': Db)
  {
    && OthersGrow(db, db')
    && |db.certs| <= |db'.certs|
    && forall i :: 0 <= i < |db.certs| ==> RowEvolves(db.certs[i], db'.certs[i])
  }

  lemma GrowsTransitive(a: Db, b: Db, c: Db, now: int)
    requires Grows(a, b, now) && Grows(b, c, now)
    ensures Grows(a, c, now)
  {
  }

  lemma EvolvesTransitive(a: Db, b: Db, c: Db)
    requires Evolves(a, b) && Evolves(b, c)
    ensures Evolves(a, c)
  {
  }

  // ----- Every commit -----

  lemma RefreshGrows(db: Db, vault: Vault, caId: nat, now: int)
    ensures Grows(db, RefreshCrl(db, vault, caId, now), now)
  {
  }

  lemma {:induction false} RefreshAllGrows(db: Db, vault: Vault, n: nat, now: int)
    requires n <= |db.cas|
    ensures Grows(db, RefreshCrls(db, vault, n, now), now)
  {
    hide Grows, RefreshCrl;
    if n > 0 {
      var before := RefreshCrls(db, vault, n - 1, now);
      RefreshAllGrows(db, vault, n - 1, now);
      RefreshGrows(before, vault, n, now);
      GrowsTransitive(db, before, RefreshCrls(db, vault, n, now), now);
    } else {
      GrowsSelf(db, now);
    }
  }

  lemma GrowsSelf(db: Db, now: int)
    ensures Grows(db, db, now)
  {
  }

  lemma AppendCaGrows(db: Db, row: CaRow, now: int)
    ensures Grows(db, db.(cas := db.cas + [row]), now)
  {
  }

  lemma AppendCertGrows(db: Db, row: CertRow, now: int)
    requires row.expiryNotifiedAt == None
    ensures Grows(db, db.(certs := db.certs + [row]), now)
  {
  }

  lemma IssueGrows(masterKey: Option<MasterKey>, db: Db, vault: Vault, env: Env, args: IssueArgs)
    requires DbOk(masterKey, db) && VaultOk(db.cas, vault)
    ensures Grows(db, Issue(db, vault, env, args).0, env.now)
  {
    hide DbOk, VaultOk, Grows;
    if Issue(db, vault, env, args).1.Ok? {
      var row := IssuedRow(masterKey, db, vault, env, args);
      AppendCertGrows(db, row, env.now);
      assert Issue(db, vault, env, args).0 == db.(certs := db.certs + [row]);
    } else {
      IssueUnchanged(db, vault, env, args);
      GrowsSelf(db, env.now);
    }
  }

  lemma CommitRevocationGrows(db: Db, certId: nat, reason: string, actor: Option<nat>, now: int)
    requires HasId(db.certs, certId)
    ensures Grows(db, CommitRevocation(db, certId, reason, actor, now), now)
  {
  }

  lemma RevokeGrows(db: Db, vault: Vault, env: Env, certId: nat, reason: string, actor: Option<nat>)
    ensures Grows(db, Revoke(db, vault, env, certId, reason, actor).0, env.now)
  {
    hide Grows, RefreshCrl;
    if RevokeError(db, env, certId, reason, actor) == None {
      var committed := CommitRevocation(db, certId, reason, actor, env.now);
      var caId := db.certs[certId - 1].caId;
      CommitRevocationGrows(db, certId, reason, actor, env.now);
      RefreshGrows(committed, vault, caId, env.now);
      GrowsTransitive(db, committed, RefreshCrl(committed, vault, caId, env.now), env.now);
    } else {
      GrowsSelf(db, env.now);
    }
  }

  lemma RenewGrows(masterKey: Option<MasterKey>, db: Db, vault: Vault, env: Env, predecessor: nat, args: IssueArgs)
    requires DbOk(masterKey, db) && VaultOk(db.cas, vault)
    ensures Grows(db, Renew(db, vault, env, predecessor, args).0, env.now)
  {
    hide DbOk, VaultOk, Grows, Issue, Revoke;
    if HasId(db.certs, predecessor) {
      var args' := args.(profileCode := db.certs[predecessor - 1].profileCode);
      var issued := Issue(db, vault, env, args').0;
      IssueGrows(masterKey, db, vault, env, args');
      RevokeGrows(issued, vault, env, predecessor, "superseded", args.requestedBy);
      GrowsTransitive(db, issued, Revoke(issued, vault, env, predecessor, "superseded", args.requestedBy).0, env.now);
      RenewShape(db, vault, env, predecessor, args);
    } else {
      GrowsSelf(db, env.now);
    }
  }

  lemma SubmitGrows(db: Db, env: Env, csr: CsrPem, profileCode: string, requestedBy: nat)
    ensures Grows(db, Submit(db, env, csr, profileCode, requestedBy).0, env.now)
  {
  }

  lemma RejectGrows(db: Db, env: Env, requestId: nat, reviewer: nat, reason: string)
    ensures Grows(db, Reject(db, env, requestId, reviewer, reason).0, env.now)
  {
  }

  lemma CommitApprovalGrows(db: Db, requestId: nat, reviewer: nat, certId: nat, now: int)
    requires HasId(db.requests, requestId) && db.requests[requestId - 1].status == RequestPending
    ensures Grows(db, CommitApproval(db, requestId, reviewer, certId, now), now)
  {
  }

  lemma ApproveGrows(
      masterKey: Option<MasterKey>, db: Db, vault: Vault, env: Env, requestId: nat, reviewer: nat,
      validityDays: Option<int>, draws: Draws)
    requires DbOk(masterKey, db) && VaultOk(db.cas, vault)
    ensures Grows(db, Approve(db, vault, env, requestId, reviewer, validityDays, draws).0, env.now)
  {
    hide DbOk, VaultOk, Grows, Issue;
    GrowsSelf(db, env.now);
    if PendingError(db, requestId) == None {
      var args := ApprovalArgs(db.requests[requestId - 1], validityDays, draws);
      var (issued, r) := Issue(db, vault, env, args);
      IssueGrows(masterKey, db, vault, env, args);
      if r.Ok? {
        CommitApprovalGrows(issued, requestId, reviewer, r.value, env.now);
        GrowsTransitive(db, issued, CommitApproval(issued, requestId, reviewer, r.value, env.now), env.now);
      }
    }
  }

  lemma InitRootGrows(cfg: Config, st: State, args: RootArgs, now: int)
    ensures Grows(st.db, InitRoot(cfg, st, args, now).0.db, now)
  {
    hide Grows, RefreshCrl, RootRow;
    if RootError(st.db, args) == None {
      var db := CommitRoot(cfg, st.db, args, now);
      var vault := UnlockRoot(cfg, db, st.vault, args.passphrase, now).0;
      AppendCaGrows(st.db, RootRow(cfg, args, |st.db.cas| + 1, now), now);
      RefreshGrows(db, vault, |db.cas|, now);
      GrowsTransitive(st.db, db, RefreshCrl(db, vault, |db.cas|, now), now);
    } else {
      GrowsSelf(st.db, now);
    }
  }

  lemma InitIntermediateGrows(cfg: Config, st: State, args: IntermediateArgs, now: int)
    ensures Grows(st.db, InitIntermediate(cfg, st, args, now).0.db, now)
  {
    hide Grows, RefreshCrl, IntermediateRow;
    if IntermediateError(st) == None {
      var ready := EnsureMasterKey(cfg, st, args.masterKey);
      var loaded := Load(cfg, CommitIntermediate(cfg, ready, args, now));
      AppendCaGrows(st.db, IntermediateRow(ready, args, MasterKeyOf(cfg, ready).value, |st.db.cas| + 1, now), now);
      RefreshGrows(loaded.db, loaded.vault, |loaded.db.cas|, now);
      GrowsTransitive(st.db, loaded.db, RefreshCrl(loaded.db, loaded.vault, |loaded.db.cas|, now), now);
    } else {
      GrowsSelf(st.db, now);
    }
  }

  lemma NotifyNotifies(certs: seq<CertRow>, n: nat, env: Env, warningDays: int, delivered: set<nat>)
    requires n <= |certs|
    ensures CertsNotified(certs, NotifyFirst(certs, n, env, warningDays, delivered))
  {
  }

  // ----- Every event -----

  /** Every call but the notification job makes the tables grow. */
  lemma StepGrows(cfg: Config, st: State, env: Env, op: Op)
    requires RunningOk(cfg, st) && !op.NotifyOp?
    ensures Grows(st.db, Step(cfg, st, env, op).db, env.now)
  {
    hide DbOk, VaultOk, Grows, InitRoot, InitIntermediate, Issue, Renew, Revoke, Submit, Approve, Reject, RefreshCrls;
    var masterKey := MasterKeyOf(cfg, st);
    GrowsSelf(st.db, env.now);
    match op
    case InitRootOp(root) => InitRootGrows(cfg, st, root, env.now);
    case InitIntermediateOp(intermediate) => InitIntermediateGrows(cfg, st, intermediate, env.now);
    case IssueOp(args) => IssueGrows(masterKey, st.db, st.vault, env, args);
    case RenewOp(predecessor, args) => RenewGrows(masterKey, st.db, st.vault, env, predecessor, args);
    case RevokeOp(certId, reason, actor) => RevokeGrows(st.db, st.vault, env, certId, reason, actor);
    case SubmitOp(csr, profileCode, requestedBy) => SubmitGrows(st.db, env, csr, profileCode, requestedBy);
    case ApproveOp(requestId, reviewer, validityDays, draws) =>
      ApproveGrows(masterKey, st.db, st.vault, env, requestId, reviewer, validityDays, draws);
    case RejectOp(requestId, reviewer, rejection) => RejectGrows(st.db, env, requestId, reviewer, rejection);
    case RefreshOp => RefreshAllGrows(st.db, st.vault, |st.db.cas|, env.now);
    case _ =>
  }

  lemma GrowsEvolves(db: Db, db': Db, now: int)
    requires Grows(db, db', now)
    ensures Evolves(db, db')
  {
  }

  lemma NotifiedEvolves(db: Db, certs': seq<CertRow>)
    requires CertsNotified(db.certs, certs')
    ensures Evolves(db, db.(certs := certs'))
  {
  }

  lemma StepEvolves(cfg: Config, st: State, env: Env, op: Op)
    requires RunningOk(cfg, st)
    ensures Evolves(st.db, Step(cfg, st, env, op).db)
  {
    hide DbOk, VaultOk, Evolves, Grows;
    match op
    case NotifyOp(warningDays, delivered) =>
      NotifyNotifies(st.db.certs, |st.db.certs|, env, warningDays, delivered);
      NotifiedEvolves(st.db, NotifyFirst(st.db.certs, |st.db.certs|, env, warningDays, delivered));
    case _ =>
      StepGrows(cfg, st, env, op);
      GrowsEvolves(st.db, Step(cfg, st, env, op).db, env.now);
  }

  lemma PartialRevokeGrows(st: State, env: Env, certId: nat, reason: string, actor: Option<nat>, k: nat)
    requires k > 0
    ensures Grows(st.db, PartialRevoke(st, env, certId, reason, actor, k).db, env.now)
  {
    hide Grows, Revoke, CommitRevocation;
    GrowsSelf(st.db, env.now);
    RevokeGrows(st.db, st.vault, env, certId, reason, actor);
    if RevokeError(st.db, env, certId, reason, actor) == None {
      CommitRevocationGrows(st.db, certId, reason, actor, env.now);
    }
  }

  lemma PartialRenewGrows(cfg: Config, st: State, env: Env, predecessor: nat, args: IssueArgs, k: nat)
    requires RunningOk(cfg, st)
    ensures Grows(st.db, Partial(cfg, st, env, RenewOp(predecessor, args), k).db, env.now)
  {
    hide DbOk, VaultOk, Grows, Issue, PartialRevoke;
    GrowsSelf(st.db, env.now);
    if HasId(st.db.certs, predecessor) {
      var args' := args.(profileCode := st.db.certs[predecessor - 1].profileCode);
      var issued := st.(db := Issue(st.db, st.vault, env, args').0);
      IssueGrows(MasterKeyOf(cfg, st), st.db, st.vault, env, args');
      if k > 1 {
        PartialRevokeGrows(issued, env, predecessor, "superseded", args.requestedBy, k - 1);
        GrowsTransitive(st.db, issued.db,
                        PartialRevoke(issued, env, predecessor, "superseded", args.requestedBy, k - 1).db, env.now);
      }
    }
  }

  lemma PartialGrows(cfg: Config, st: State, env: Env, op: Op, k: nat)
    requires RunningOk(cfg, st) && !op.NotifyOp?
    ensures Grows(st.db, Partial(cfg, st, env, op, k).db, env.now)
  {
    hide DbOk, VaultOk, Grows, Step, Issue, PartialRevoke, RootRow, IntermediateRow;
    GrowsSelf(st.db, env.now);
    StepGrows(cfg, st, env, op);
    match op
    case InitRootOp(root) => AppendCaGrows(st.db, RootRow(cfg, root, |st.db.cas| + 1, env.now), env.now);
    case InitIntermediateOp(intermediate) =>
      if IntermediateError(st) == None {
        var ready := EnsureMasterKey(cfg, st, intermediate.masterKey);
        AppendCaGrows(
          st.db, IntermediateRow(ready, intermediate, MasterKeyOf(cfg, ready).value, |st.db.cas| + 1, env.now),
          env.now);
      }
    case RenewOp(predecessor, args) => PartialRenewGrows(cfg, st, env, predecessor, args, k);
    case RevokeOp(certId, reason, actor) =>
      if k > 0 {
        PartialRevokeGrows(st, env, certId, reason, actor, k);
      }
    case ApproveOp(requestId, reviewer, validityDays, draws) =>
      if PendingError(st.db, requestId) == None {
        IssueGrows(MasterKeyOf(cfg, st), st.db, st.vault, env,
                   ApprovalArgs(st.db.requests[requestId - 1], validityDays, draws));
      }
    case RefreshOp => RefreshAllGrows(st.db, st.vault, Min(k, |st.db.cas|), env.now);
    case _ =>
  }

  lemma PartialEvolves(cfg: Config, st: State, env: Env, op: Op, k: nat)
    requires RunningOk(cfg, st)
    ensures Evolves(st.db, Partial(cfg, st, env, op, k).db)
  {
    hide RunningOk, Grows, Evolves;
    if op.NotifyOp? {
      hide Step;
      var n := Min(k, |st.db.certs|);
      GrowsSelf(st.db, env.now);
      GrowsEvolves(st.db, st.db, env.now);
      NotifyNotifies(st.db.certs, n, env, op.warningDays, op.delivered);
      NotifiedEvolves(st.db, NotifyFirst(st.db.certs, n, env, op.warningDays, op.delivered));
    } else {
      hide Partial;
      PartialGrows(cfg, st, env, op, k);
      GrowsEvolves(st.db, Partial(cfg, st, env, op, k).db, env.now);
    }
  }

  /** An event adds lists with its own time only. */
  lemma AfterPublishes(cfg: Config, st: State, e: Event)
    requires RunningOk(cfg, st)
    ensures Published(st.db.crls, After(cfg, st, e).db.crls, e.env.now)
  {
    hide RunningOk, StoredOk, Restart, CertsGrow, OthersGrow;
    if e.crash.Some? {
      var k := e.crash.value.commits;
      PartialOk(cfg, st, e.env, e.op, k);
      RestartOk(cfg, Partial(cfg, st, e.env, e.op, k), e.crash.value.drawn);
    }
    if !e.op.NotifyOp? {
      hide Step, Partial;
      StepGrows(cfg, st, e.env, e.op);
      if e.crash.Some? {
        PartialGrows(cfg, st, e.env, e.op, e.crash.value.commits);
      }
    }
  }

  lemma AfterEvolves(cfg: Config, st: State, e: Event)
    requires RunningOk(cfg, st)
    ensures Evolves(st.db, After(cfg, st, e).db)
  {
    hide DbOk, VaultOk, Evolves, Step, Partial, Restart;
    match e.crash {
      case None => StepEvolves(cfg, st, e.env, e.op);
      case Some(crash) =>
        PartialOk(cfg, st, e.env, e.op, crash.commits);
        PartialEvolves(cfg, st, e.env, e.op, crash.commits);
        RestartOk(cfg, Partial(cfg, st, e.env, e.op, crash.commits), crash.drawn);
    }
  }

  /**
   Along any run, crashes included: certificates, revocations and lists are only added, a certificate
   never leaves REVOKED, a decided request never changes, a notification date is never overwritten.
   */
  lemma {:induction false} NothingUndone(cfg: Config, keyFile: Option<MasterKey>, events: seq<Event>, n: nat)
    requires n <= |events|
    ensures Evolves(Run(cfg, keyFile, events[..n]).db, Run(cfg, keyFile, events).db)
    decreases |events|
  {
    hide Evolves, After;
    if n == |events| {
      assert events[..n] == events;
      var db := Run(cfg, keyFile, events).db;
      GrowsSelf(db, 0);
      GrowsEvolves(db, db, 0);
    } else {
      var init := events[..|events| - 1];
      var st := Run(cfg, keyFile, init);
      NothingUndone(cfg, keyFile, init, n);
      assert init[..n] == events[..n];
      RunOk(cfg, keyFile, init);
      AfterEvolves(cfg, st, events[|events| - 1]);
      EvolvesTransitive(Run(cfg, keyFile, events[..n]).db, st.db, Run(cfg, keyFile, events).db);
    }
  }
}
