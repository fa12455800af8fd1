/**
 Which revocations the served lists show, in every run. The services commit a revocation, or a new CA
 row, before the list; a process that dies in between leaves the list behind. These lists are late in
 exactly that case, and until the next one is published.
 */
module CaLists {
  import opened Wrappers
  import opened Crypto
  import opened X509
  import opened CaState
  import opened CaInvariant
  import opened CaMachine
  import opened CaHistory
  import opened CaTheorems
  import opened CaOperations

  // ----- What one event does to the lists -----

  /** The call dies after the commit of a revocation or of a new CA row, and before that of the list. */
  predicate DiesBeforeList(e: Event)
  {
    && e.crash.Some?
    && match e.op {
      case RevokeOp(_, _, _) => e.crash.value.commits == 1
      case RenewOp(_, _) => e.crash.value.commits == 2
      case InitRootOp(_) => e.crash.value.commits == 1
      case InitIntermediateOp(_) => e.crash.value.commits == 2
      case _ => false
    }
  }

  /** The call is one that revokes this certificate. */
  predicate Revokes(op: Op, certId: nat)
  {
    (op.RevokeOp? && op.certId == certId) || (op.RenewOp? && op.predecessor == certId)
  }

  /** A CA's lists stay as they are, or the newest one then has every revocation. */
  predicate ListMove(db: Db, db': Db, caId: nat)
  {
    CrlsOf(db'.crls, caId) == CrlsOf(db.crls, caId) || FreshFor(db', caId)
  }

  /** At most one certificate is revoked, and the newest list has it unless the call died before that. */
  predicate RevocationMove(db: Db, db': Db, op: Op, died: bool)
  {
    db'.revocations == db.revocations ||
    (&& |db'.revocations| == |db.revocations| + 1 && db.revocations <= db'.revocations
     && var certId := db'.revocations[|db.revocations|].certId;
        && Revokes(op, certId) && HasId(db.certs, certId) && db.certs[certId - 1].status == Valid
        && if died then CrlsOf(db'.crls, 2) == CrlsOf(db.crls, 2) else FreshFor(db', 2))
  }

  /** At most one CA joins, and it has a list unless the call died before that. */
  predicate CaMove(db: Db, db': Db, died: bool)
  {
    |db'.cas| == |db.cas| ||
    (|db'.cas| == |db.cas| + 1 && if died then db'.crls == db.crls else CrlsOf(db'.crls, |db'.cas|) != [])
  }

  predicate Moves(db: Db, db': Db, op: Op, died: bool, caId: nat)
  {
    ListMove(db, db', caId) && RevocationMove(db, db', op, died) && CaMove(db, db', died)
  }

  lemma QuietMoves(db: Db, db': Db, op: Op, died: bool, caId: nat)
    requires db'.revocations == db.revocations && |db'.cas| == |db.cas| && db'.crls == db.crls
    ensures Moves(db, db', op, died, caId)
  {
  }

  lemma RefreshMoves(db: Db, vault: Vault, id: nat, now: int, caId: nat)
    ensures
      var db' := RefreshCrl(db, vault, id, now);
      && ListMove(db, db', caId) && (FreshFor(db, caId) ==> FreshFor(db', caId))
      && db'.revocations == db.revocations && |db'.cas| == |db.cas|
      && (CanPublish(db, vault, id) ==> FreshFor(db', id))
  {
    if CanPublish(db, vault, id) {
      RefreshFreshens(db, vault, id, now);
      CrlsOfAppend(db.crls, NextCrl(db, vault, id, now), caId);
    }
  }

  lemma {:induction false} RefreshAllMoves(db: Db, vault: Vault, n: nat, now: int, caId: nat)
    requires n <= |db.cas|
    ensures
      var db' := RefreshCrls(db, vault, n, now);
      ListMove(db, db', caId) && db'.revocations == db.revocations && |db'.cas| == |db.cas|
  {
    hide RefreshCrl, FreshFor, CrlsOf;
    if n > 0 {
      RefreshAllMoves(db, vault, n - 1, now, caId);
      RefreshMoves(RefreshCrls(db, vault, n - 1, now), vault, n, now, caId);
    }
  }

  lemma CommitMoves(db: Db, certId: nat, reason: string, actor: Option<nat>, now: int, op: Op, caId: nat)
    requires HasId(db.certs, certId) && db.certs[certId - 1].status == Valid && Revokes(op, certId)
    ensures Moves(db, CommitRevocation(db, certId, reason, actor, now), op, true, caId)
  {
  }

  lemma RevokeMoves(
      masterKey: Option<MasterKey>, db: Db, vault: Vault, env: Env, certId: nat, reason: string, actor: Option<nat>,
      op: Op, caId: nat)
    requires DbOk(masterKey, db) && VaultOk(db.cas, vault) && Revokes(op, certId)
    ensures Moves(db, Revoke(db, vault, env, certId, reason, actor).0, op, false, caId)
  {
    hide DbOk, VaultOk, FreshFor, CrlsOf, RefreshCrl;
    RevokeShape(masterKey, db, vault, env, certId, reason, actor);
    if RevokeError(db, env, certId, reason, actor) == None {
      var committed := CommitRevocation(db, certId, reason, actor, env.now);
      RefreshMoves(committed, vault, 2, env.now, caId);
      RefreshMoves(committed, vault, 2, env.now, 2);
    } else {
      QuietMoves(db, db, op, false, caId);
    }
  }

  /** Certificates added before a revocation make no difference. */
  lemma MovesFrom(db: Db, row: CertRow, db': Db, op: Op, died: bool, caId: nat, certId: nat)
    requires HasId(db.certs, certId) && (forall id :: Revokes(op, id) ==> id == certId)
    requires Moves(db.(certs := db.certs + [row]), db', op, died, caId)
    ensures Moves(db, db', op, died, caId)
  {
  }

  lemma IssuedMoves(
      masterKey: Option<MasterKey>, db: Db, vault: Vault, env: Env, args: IssueArgs, db': Db, op: Op, died: bool,
      caId: nat, certId: nat)
    requires DbOk(masterKey, db) && VaultOk(db.cas, vault)
    requires HasId(db.certs, certId) && (forall id :: Revokes(op, id) ==> id == certId)
    requires Moves(Issue(db, vault, env, args).0, db', op, died, caId)
    ensures Moves(db, db', op, died, caId)
  {
    hide Moves, DbOk, VaultOk;
    if Issue(db, vault, env, args).1.Ok? {
      var row := IssuedRow(masterKey, db, vault, env, args);
      assert Issue(db, vault, env, args).0 == db.(certs := db.certs + [row]);
      hide Issue;
      MovesFrom(db, row, db', op, died, caId, certId);
    } else {
      IssueUnchanged(db, vault, env, args);
    }
  }

  lemma RenewMoves(
      masterKey: Option<MasterKey>, db: Db, vault: Vault, env: Env, predecessor: nat, args: IssueArgs, caId: nat)
    requires DbOk(masterKey, db) && VaultOk(db.cas, vault)
    ensures Moves(db, Renew(db, vault, env, predecessor, args).0, RenewOp(predecessor, args), false, caId)
  {
    hide DbOk, VaultOk, Moves, Issue, Revoke, Renew;
    var op := RenewOp(predecessor, args);
    if HasId(db.certs, predecessor) {
      var args' := args.(profileCode := db.certs[predecessor - 1].profileCode);
      var issued, db' := Issue(db, vault, env, args').0, Renew(db, vault, env, predecessor, args).0;
      IssueKeeps(masterKey, db, vault, env, args');
      QuietMoves(issued, issued, op, false, caId);
      RevokeMoves(masterKey, issued, vault, env, predecessor, "superseded", args.requestedBy, op, caId);
      RenewShape(db, vault, env, predecessor, args);
      IssuedMoves(masterKey, db, vault, env, args', db', op, false, caId, predecessor);
    } else {
      NoRenewal(db, vault, env, predecessor, args);
      QuietMoves(db, db, op, false, caId);
    }
  }

  lemma NoRenewal(db: Db, vault: Vault, env: Env, predecessor: nat, args: IssueArgs)
    requires !HasId(db.certs, predecessor)
    ensures Renew(db, vault, env, predecessor, args).0 == db
  {
  }

  lemma InitRootMoves(cfg: Config, st: State, args: RootArgs, now: int, caId: nat)
    requires RunningOk(cfg, st)
    ensures Moves(st.db, InitRoot(cfg, st, args, now).0.db, InitRootOp(args), false, caId)
    ensures RootError(st.db, args) == None ==>
        Moves(st.db, CommitRoot(cfg, st.db, args, now), InitRootOp(args), true, caId)
  {
    hide DbOk, VaultOk, UnlockRoot, RefreshCrl, RootRow, CanPublish;
    if RootError(st.db, args) == None {
      var db := CommitRoot(cfg, st.db, args, now);
      var vault := UnlockRoot(cfg, db, st.vault, args.passphrase, now).0;
      RootKeeps(cfg, MasterKeyOf(cfg, st), st.db, args, now);
      RootUnlocks(cfg, MasterKeyOf(cfg, st), st.db, st.vault, args, now);
      RefreshMoves(db, vault, 1, now, caId);
    }
  }

  lemma NoRoot(cfg: Config, st: State, env: Env, args: RootArgs)
    requires RootError(st.db, args).Some?
    ensures Step(cfg, st, env, InitRootOp(args)) == st
  {
  }

  lemma InitIntermediateMoves(cfg: Config, st: State, args: IntermediateArgs, now: int, caId: nat)
    requires RunningOk(cfg, st)
    ensures Moves(st.db, InitIntermediate(cfg, st, args, now).0.db, InitIntermediateOp(args), false, caId)
    ensures
      IntermediateError(st) == None ==>
        Moves(st.db, CommitIntermediate(cfg, EnsureMasterKey(cfg, st, args.masterKey), args, now).db,
              InitIntermediateOp(args), true, caId)
  {
    hide DbOk, VaultOk, Load, RefreshCrl, IntermediateRow, CanPublish;
    if IntermediateError(st) == None {
      var ready := EnsureMasterKey(cfg, st, args.masterKey);
      EnsureKeeps(cfg, st, args.masterKey);
      LoadedAfterCommit(cfg, ready, args, now);
      var loaded := Load(cfg, CommitIntermediate(cfg, ready, args, now));
      RefreshMoves(loaded.db, loaded.vault, 2, now, caId);
    }
  }

  lemma RefreshStepMoves(db: Db, vault: Vault, n: nat, now: int, died: bool, caId: nat)
    requires n <= |db.cas|
    ensures Moves(db, RefreshCrls(db, vault, n, now), RefreshOp, died, caId)
  {
    hide RefreshCrls;
    RefreshAllMoves(db, vault, n, now, caId);
  }

  lemma QuietCalls(cfg: Config, st: State, env: Env, op: Op, died: bool, caId: nat)
    requires !op.InitRootOp? && !op.InitIntermediateOp? && !op.RenewOp? && !op.RevokeOp? && !op.RefreshOp?
    ensures Moves(st.db, Step(cfg, st, env, op).db, op, died, caId)
  {
    hide Moves, Issue, UnlockRoot, LoadIntermediate;
    QuietMoves(st.db, Step(cfg, st, env, op).db, op, died, caId);
  }

  lemma StepMoves(cfg: Config, st: State, env: Env, op: Op, caId: nat)
    requires RunningOk(cfg, st)
    ensures Moves(st.db, Step(cfg, st, env, op).db, op, false, caId)
  {
    hide DbOk, VaultOk, Moves, InitRoot, InitIntermediate, Renew, Revoke, RefreshCrls;
    var masterKey := MasterKeyOf(cfg, st);
    match op
    case InitRootOp(root) => InitRootMoves(cfg, st, root, env.now, caId);
    case InitIntermediateOp(intermediate) => InitIntermediateMoves(cfg, st, intermediate, env.now, caId);
    case RenewOp(predecessor, args) => RenewMoves(masterKey, st.db, st.vault, env, predecessor, args, caId);
    case RevokeOp(certId, reason, actor) =>
        RevokeMoves(masterKey, st.db, st.vault, env, certId, reason, actor, op, caId);
    case RefreshOp => RefreshStepMoves(st.db, st.vault, |st.db.cas|, env.now, false, caId);
    case _ =>
      hide Step;
      QuietCalls(cfg, st, env, op, false, caId);
  }

  lemma PartialRevokeMoves(
      cfg: Config, st: State, env: Env, certId: nat, reason: string, actor: Option<nat>, k: nat, op: Op, caId: nat)
    requires RunningOk(cfg, st) && Revokes(op, certId) && k > 0
    ensures Moves(st.db, PartialRevoke(st, env, certId, reason, actor, k).db, op, k == 1, caId)
  {
    hide DbOk, VaultOk, Moves, Revoke, CommitRevocation;
    RevokeShape(MasterKeyOf(cfg, st), st.db, st.vault, env, certId, reason, actor);
    QuietMoves(st.db, st.db, op, k == 1, caId);
    if RevokeError(st.db, env, certId, reason, actor) == None {
      CommitMoves(st.db, certId, reason, actor, env.now, op, caId);
      RevokeMoves(MasterKeyOf(cfg, st), st.db, st.vault, env, certId, reason, actor, op, caId);
    }
  }

  lemma PartialRenewMoves(cfg: Config, st: State, env: Env, predecessor: nat, args: IssueArgs, k: nat, caId: nat)
    requires RunningOk(cfg, st)
    ensures
      var op := RenewOp(predecessor, args);
      Moves(st.db, Partial(cfg, st, env, op, k).db, op, k == 2, caId)
  {
    hide DbOk, VaultOk, Moves, Issue, PartialRevoke;
    var op := RenewOp(predecessor, args);
    QuietMoves(st.db, st.db, op, k == 2, caId);
    if HasId(st.db.certs, predecessor) {
      var masterKey := MasterKeyOf(cfg, st);
      var args' := args.(profileCode := st.db.certs[predecessor - 1].profileCode);
      var issued := st.(db := Issue(st.db, st.vault, env, args').0);
      IssueKeeps(masterKey, st.db, st.vault, env, args');
      QuietMoves(st.db, issued.db, op, k == 2, caId);
      if k > 1 {
        PartialRevokeMoves(cfg, issued, env, predecessor, "superseded", args.requestedBy, k - 1, op, caId);
        IssuedMoves(masterKey, st.db, st.vault, env, args',
                    PartialRevoke(issued, env, predecessor, "superseded", args.requestedBy, k - 1).db,
                    op, k == 2, caId, predecessor);
      }
    }
  }

  lemma PartialMoves(cfg: Config, st: State, e: Event, caId: nat)
    requires RunningOk(cfg, st) && e.crash.Some?
    ensures Moves(st.db, Partial(cfg, st, e.env, e.op, e.crash.value.commits).db, e.op, DiesBeforeList(e), caId)
  {
    hide DbOk, VaultOk, Moves, Step, Issue, PartialRevoke, CommitRoot, CommitIntermediate, RefreshCrls;
    var k, died := e.crash.value.commits, DiesBeforeList(e);
    QuietMoves(st.db, st.db, e.op, died, caId);
    StepMoves(cfg, st, e.env, e.op, caId);
    match e.op
    case InitRootOp(root) =>
      InitRootMoves(cfg, st, root, e.env.now, caId);
      if RootError(st.db, root).Some? {
        NoRoot(cfg, st, e.env, root);
      }
    case InitIntermediateOp(intermediate) => InitIntermediateMoves(cfg, st, intermediate, e.env.now, caId);
    case RenewOp(predecessor, args) =>
      hide Partial;
      PartialRenewMoves(cfg, st, e.env, predecessor, args, k, caId);
    case RevokeOp(certId, reason, actor) =>
      if k > 0 {
        PartialRevokeMoves(cfg, st, e.env, certId, reason, actor, k, e.op, caId);
      }
    case RefreshOp => RefreshStepMoves(st.db, st.vault, Min(k, |st.db.cas|), e.env.now, died, caId);
    case ApproveOp(requestId, reviewer, validityDays, draws) =>
      if PendingError(st.db, requestId) == None {
        QuietMoves(st.db,
                   Issue(st.db, st.vault, e.env, ApprovalArgs(st.db.requests[requestId - 1], validityDays, draws)).0,
                   e.op, died, caId);
      }
    case NotifyOp(warningDays, delivered) =>
      var certs := NotifyFirst(st.db.certs, Min(k, |st.db.certs|), e.env, warningDays, delivered);
      QuietMoves(st.db, st.db.(certs := certs), e.op, died, caId);
    case _ =>
  }

  lemma AfterMoves(cfg: Config, st: State, e: Event, caId: nat)
    requires RunningOk(cfg, st)
    ensures Moves(st.db, After(cfg, st, e).db, e.op, DiesBeforeList(e), caId)
  {
    hide RunningOk, StoredOk, Moves, Step, Partial, Restart;
    match e.crash {
      case None => StepMoves(cfg, st, e.env, e.op, caId);
      case Some(crash) =>
        PartialMoves(cfg, st, e, caId);
        PartialOk(cfg, st, e.env, e.op, crash.commits);
        RestartOk(cfg, Partial(cfg, st, e.env, e.op, crash.commits), crash.drawn);
    }
  }

  // ----- Certificates whose revocation the served list misses -----

  /** The served list has this certificate's serial. */
  predicate Shown(db: Db, i: nat)
    requires i < |db.certs|
  {
    var served := ServedCrl(db.crls, 2);
    served.Some? && Lists(served.value.crl, db.certs[i].certificate.content.serial)
  }

  predicate Missed(db: Db, i: nat)
  {
    i < |db.certs| && db.certs[i].status == Revoked && !Shown(db, i)
  }

  /** The event revokes the certificate and dies before the list goes out. */
  predicate CutOff(db: Db, db': Db, e: Event, i: nat)
  {
    && DiesBeforeList(e) && Revokes(e.op, i + 1)
    && i < |db.certs| && db.certs[i].status == Valid
    && i < |db'.certs| && db'.certs[i].status == Revoked
  }

  lemma ShownIsRevoked(cfg: Config, st: State, i: nat)
    requires RunningOk(cfg, st) && i < |st.db.certs| && Shown(st.db, i)
    ensures st.db.certs[i].status == Revoked
  {
    hide RunningOk;
    LeafFacts(cfg, st, i);
    ListsOf(cfg, st, 2);
    var lists := CrlsOf(st.db.crls, 2);
    var crl := lists[|lists| - 1].crl;
    assert CrlRowOk(lists[|lists| - 1], st.db.cas[1], 2, |lists| - 1, Entries(st.db.certs, st.db.revocations, 2));
    var serial := st.db.certs[i].certificate.content.serial;
    var e :| e in crl.content.entries && e.serial == serial;
    EntriesExact(st.db.certs, st.db.revocations, 2, e);
    var r :| r in st.db.revocations && OnCrl(st.db.certs, r, 2) && e == EntryOf(st.db.certs, r);
    SerialsOf(cfg, st, i, r.certId - 1);
  }

  lemma FreshShows(cfg: Config, st: State, i: nat)
    requires RunningOk(cfg, st) && FreshFor(st.db, 2) && i < |st.db.certs| && st.db.certs[i].status == Revoked
    ensures Shown(st.db, i)
  {
    hide RunningOk;
    LeafFacts(cfg, st, i);
    ListsOf(cfg, st, 2);
    var lists := CrlsOf(st.db.crls, 2);
    assert CrlRowOk(lists[|lists| - 1], st.db.cas[1], 2, |lists| - 1, Entries(st.db.certs, st.db.revocations, 2));
    ListedIffRevoked(cfg, st, i, lists[|lists| - 1].crl);
  }

  /** The same lists show the same serials. */
  lemma SameShown(cfg: Config, st: State, st': State, i: nat)
    requires RunningOk(cfg, st) && RunningOk(cfg, st') && Evolves(st.db, st'.db) && i < |st.db.certs|
    requires CrlsOf(st'.db.crls, 2) == CrlsOf(st.db.crls, 2)
    ensures Shown(st'.db, i) <==> Shown(st.db, i)
  {
    hide RunningOk, OthersGrow, Lists;
    LeafFacts(cfg, st, i);
    LeafFacts(cfg, st', i);
    ListsOf(cfg, st, 2);
    ListsOf(cfg, st', 2);
    assert RowEvolves(st.db.certs[i], st'.db.certs[i]);
  }

  /** Whether a certificate is revoked follows from the revocation rows. */
  lemma RevokedBefore(cfg: Config, st: State, st': State, op: Op, died: bool, i: nat)
    requires RunningOk(cfg, st) && RunningOk(cfg, st') && i < |st'.db.certs|
    requires RevocationMove(st.db, st'.db, op, died)
    ensures
      var newly := |st'.db.revocations| > |st.db.revocations|
          && st'.db.revocations[|st.db.revocations|].certId == i + 1;
      && (st'.db.certs[i].status == Revoked <==> newly || (i < |st.db.certs| && st.db.certs[i].status == Revoked))
      && (newly ==> i < |st.db.certs| && st.db.certs[i].status == Valid && Revokes(op, i + 1))
  {
    hide CertsOk, CrlsOk, RequestsOk, VaultOk, CasOk, FreshFor, CrlsOf, RevokedIds;
    RevokedIdsOf(st.db.revocations, i + 1);
    RevokedIdsOf(st'.db.revocations, i + 1);
  }

  lemma RevokedIdsOf(revocations: seq<RevocationRow>, id: nat)
    ensures id in RevokedIds(revocations) <==> exists k :: 0 <= k < |revocations| && revocations[k].certId == id
  {
    if id in RevokedIds(revocations) {
      var r :| r in revocations && r.certId == id;
      var k :| 0 <= k < |revocations| && revocations[k] == r;
    }
  }

  lemma MissedStep(cfg: Config, st: State, e: Event, i: nat)
    requires RunningOk(cfg, st) && RunningOk(cfg, After(cfg, st, e))
    ensures
      var st' := After(cfg, st, e);
      Missed(st'.db, i) <==>
        || (Missed(st.db, i) && CrlsOf(st'.db.crls, 2) == CrlsOf(st.db.crls, 2))
        || CutOff(st.db, st'.db, e, i)
  {
    hide RunningOk, After, FreshFor, CrlsOf, OthersGrow, Shown, Revokes, DiesBeforeList, CaMove;
    var st' := After(cfg, st, e);
    AfterMoves(cfg, st, e, 2);
    AfterEvolves(cfg, st, e);
    if i < |st'.db.certs| {
      RevokedBefore(cfg, st, st', e.op, DiesBeforeList(e), i);
      if FreshFor(st'.db, 2) && st'.db.certs[i].status == Revoked {
        FreshShows(cfg, st', i);
      }
      if i < |st.db.certs| {
        if CrlsOf(st'.db.crls, 2) == CrlsOf(st.db.crls, 2) {
          SameShown(cfg, st, st', i);
        }
        if Shown(st.db, i) {
          ShownIsRevoked(cfg, st, i);
        }
      }
    }
  }

  /** No list of this CA has gone out since event m. */
  predicate NoneSince(cfg: Config, keyFile: Option<MasterKey>, events: seq<Event>, m: nat, caId: nat)
  {
    && m < |events|
    && CrlsOf(Run(cfg, keyFile, events).db.crls, caId) == CrlsOf(Run(cfg, keyFile, events[..m + 1]).db.crls, caId)
  }

  /** Event m revoked certificate i and died before the list went out. */
  predicate CutOffAt(cfg: Config, keyFile: Option<MasterKey>, events: seq<Event>, m: nat, i: nat)
  {
    m < |events| && CutOff(Run(cfg, keyFile, events[..m]).db, Run(cfg, keyFile, events[..m + 1]).db, events[m], i)
  }

  /** The revocation of certificate i was cut off, and no list of the intermediate has gone out since. */
  ghost predicate Overlooked(cfg: Config, keyFile: Option<MasterKey>, events: seq<Event>, i: nat)
  {
    exists m: nat :: CutOffAt(cfg, keyFile, events, m, i) && NoneSince(cfg, keyFile, events, m, 2)
  }

  /** What is known before a call that makes it revoke certificate i and die before the list goes out. */
  predicate WillCutOff(db: Db, e: Event, i: nat)
  {
    && i < |db.certs| && db.certs[i].status == Valid && e.crash.Some?
    && match e.op {
      case RevokeOp(certId, reason, actor) =>
        && certId == i + 1 && e.crash.value.commits == 1
        && KnownReason(reason) && (actor.Some? ==> actor.value in e.env.users)
      case RenewOp(predecessor, args) =>
        && predecessor == i + 1 && e.crash.value.commits == 2
        && Issuable(db, e.env, args.(profileCode := db.certs[i].profileCode))
      case _ => false
    }
  }

  lemma PartialRevokeCuts(st: State, env: Env, certId: nat, reason: string, actor: Option<nat>)
    requires HasId(st.db.certs, certId) && st.db.certs[certId - 1].status == Valid
    requires forall r :: r in st.db.revocations ==> r.certId != certId
    ensures
      var certs' := PartialRevoke(st, env, certId, reason, actor, 1).db.certs;
      && |certs'| == |st.db.certs|
      && (certs'[certId - 1].status == Revoked <==> KnownReason(reason) && (actor.Some? ==> actor.value in env.users))
      && (certs'[certId - 1].status != Revoked ==> certs' == st.db.certs)
  {
    ReasonFlagsExact(reason);
  }

  lemma RenewalCuts(cfg: Config, st: State, env: Env, predecessor: nat, args: IssueArgs)
    requires RunningOk(cfg, st) && HasId(st.db.certs, predecessor) && st.db.certs[predecessor - 1].status == Valid
    ensures
      var certs' := Partial(cfg, st, env, RenewOp(predecessor, args), 2).db.certs;
      && |certs'| >= |st.db.certs|
      && (certs'[predecessor - 1].status == Revoked <==>
            Issuable(st.db, env, args.(profileCode := st.db.certs[predecessor - 1].profileCode)))
  {
    hide RunningOk, Issuable, Issue, PartialRevoke, AsAsked, FailsWith, FirstDraw;
    NotYetRevoked(cfg, st, predecessor);
    var args' := args.(profileCode := st.db.certs[predecessor - 1].profileCode);
    IssuanceOf(cfg, st, env, args');
    var issued := st.(db := Issue(st.db, st.vault, env, args').0);
    if Issue(st.db, st.vault, env, args').1.Ok? {
      assert issued.db.certs[predecessor - 1] == issued.db.certs[..|st.db.certs|][predecessor - 1];
      PartialRevokeCuts(issued, env, predecessor, "superseded", args.requestedBy);
      RequesterKnown(st.db, env, args');
    }
  }

  lemma CutOffStep(cfg: Config, st: State, e: Event, i: nat)
    requires RunningOk(cfg, st)
    ensures CutOff(st.db, After(cfg, st, e).db, e, i) <==> WillCutOff(st.db, e, i)
  {
    hide RunningOk, StoredOk, Restart, Issuable, Issue, PartialRevoke, KnownReason;
    if i < |st.db.certs| && st.db.certs[i].status == Valid && DiesBeforeList(e) && Revokes(e.op, i + 1) {
      PartialOk(cfg, st, e.env, e.op, e.crash.value.commits);
      RestartOk(cfg, Partial(cfg, st, e.env, e.op, e.crash.value.commits), e.crash.value.drawn);
      if e.op.RevokeOp? {
        NotYetRevoked(cfg, st, i + 1);
        PartialRevokeCuts(st, e.env, i + 1, e.op.reason, e.op.actor);
      } else {
        hide Partial;
        RenewalCuts(cfg, st, e.env, i + 1, e.op.args);
      }
    }
  }

  lemma RequesterKnown(db: Db, env: Env, args: IssueArgs)
    requires Issuable(db, env, args)
    ensures args.requestedBy.Some? ==> args.requestedBy.value in env.users
  {
  }

  /** A revocation is cut off exactly by such a call. */
  lemma CutOffExactly(cfg: Config, keyFile: Option<MasterKey>, events: seq<Event>, m: nat, i: nat)
    ensures CutOffAt(cfg, keyFile, events, m, i) <==>
              m < |events| && WillCutOff(Run(cfg, keyFile, events[..m]).db, events[m], i)
  {
    hide RunningOk, After, CutOff, WillCutOff;
    if m < |events| {
      assert events[..m + 1][..m] == events[..m];
      var st := Run(cfg, keyFile, events[..m]);
      assert Run(cfg, keyFile, events[..m + 1]) == After(cfg, st, events[m]);
      hide Run;
      RunOk(cfg, keyFile, events[..m]);
      CutOffStep(cfg, st, events[m], i);
    }
  }

  lemma {:induction false} CrlsOfGrows(crls: seq<CrlRow>, crls': seq<CrlRow>, caId: nat)
    requires crls <= crls'
    ensures CrlsOf(crls, caId) <= CrlsOf(crls', caId)
    decreases |crls'|
  {
    if crls == crls' {
    } else {
      CrlsOfGrows(crls, crls'[..|crls'| - 1], caId);
    }
  }

  /** One more event: nothing has gone out since m exactly when nothing had, and nothing goes out now. */
  lemma NoneSinceSnoc(cfg: Config, keyFile: Option<MasterKey>, events: seq<Event>, m: nat, caId: nat)
    requires m < |events| - 1
    ensures
      var init := events[..|events| - 1];
      NoneSince(cfg, keyFile, events, m, caId) <==>
        && NoneSince(cfg, keyFile, init, m, caId)
        && CrlsOf(Run(cfg, keyFile, events).db.crls, caId) == CrlsOf(Run(cfg, keyFile, init).db.crls, caId)
  {
    hide Run, CrlsOf, RowEvolves, CasGrow, RequestsGrow;
    var init := events[..|events| - 1];
    assert init[..m + 1] == events[..m + 1];
    NothingUndone(cfg, keyFile, events, |events| - 1);
    NothingUndone(cfg, keyFile, init, m + 1);
    var first, before, after :=
      Run(cfg, keyFile, events[..m + 1]).db.crls, Run(cfg, keyFile, init).db.crls, Run(cfg, keyFile, events).db.crls;
    CrlsOfGrows(first, before, caId);
    CrlsOfGrows(before, after, caId);
  }

  lemma CutOffSnoc(cfg: Config, keyFile: Option<MasterKey>, events: seq<Event>, m: nat, i: nat)
    requires events != [] && m < |events| - 1
    ensures CutOffAt(cfg, keyFile, events, m, i) <==> CutOffAt(cfg, keyFile, events[..|events| - 1], m, i)
  {
    hide Run, CutOff;
    var init := events[..|events| - 1];
    assert init[..m + 1] == events[..m + 1] && init[..m] == events[..m];
  }

  lemma LastCutOff(cfg: Config, keyFile: Option<MasterKey>, events: seq<Event>, i: nat)
    requires events != []
    ensures
      var n := |events| - 1;
      && (CutOffAt(cfg, keyFile, events, n, i) <==>
            CutOff(Run(cfg, keyFile, events[..n]).db, Run(cfg, keyFile, events).db, events[n], i))
      && NoneSince(cfg, keyFile, events, n, 2)
  {
    hide Run, CutOff;
    assert events[..|events|] == events;
  }

  lemma NoneSinceBound(cfg: Config, keyFile: Option<MasterKey>, events: seq<Event>, m: nat, caId: nat)
    ensures NoneSince(cfg, keyFile, events, m, caId) ==> m < |events|
  {
    hide Run;
  }

  lemma OverlookedSnoc(cfg: Config, keyFile: Option<MasterKey>, events: seq<Event>, i: nat)
    requires events != []
    ensures
      var init := events[..|events| - 1];
      var before, after := Run(cfg, keyFile, init).db, Run(cfg, keyFile, events).db;
      Overlooked(cfg, keyFile, events, i) <==>
        || (Overlooked(cfg, keyFile, init, i) && CrlsOf(after.crls, 2) == CrlsOf(before.crls, 2))
        || CutOff(before, after, events[|events| - 1], i)
  {
    hide Run, CutOff, CutOffAt, NoneSince, CrlsOf;
    var n := |events| - 1;
    LastCutOff(cfg, keyFile, events, i);
    forall m: nat | m < n
      ensures CutOffAt(cfg, keyFile, events, m, i) <==> CutOffAt(cfg, keyFile, events[..n], m, i)
      ensures NoneSince(cfg, keyFile, events, m, 2) <==>
                NoneSince(cfg, keyFile, events[..n], m, 2)
                && CrlsOf(Run(cfg, keyFile, events).db.crls, 2) == CrlsOf(Run(cfg, keyFile, events[..n]).db.crls, 2)
    {
      CutOffSnoc(cfg, keyFile, events, m, i);
      NoneSinceSnoc(cfg, keyFile, events, m, 2);
    }
    forall m: nat | NoneSince(cfg, keyFile, events, m, 2) || NoneSince(cfg, keyFile, events[..n], m, 2)
      ensures m <= n
    {
      NoneSinceBound(cfg, keyFile, events, m, 2);
      NoneSinceBound(cfg, keyFile, events[..n], m, 2);
    }
    if m: nat :| CutOffAt(cfg, keyFile, events[..n], m, i) && NoneSince(cfg, keyFile, events[..n], m, 2) {
      NoneSinceBound(cfg, keyFile, events[..n], m, 2);
      assert CutOffAt(cfg, keyFile, events, m, i);
    }
  }

  /**
   In every run a revoked certificate is missing from the served list exactly when its revocation died
   between its two commits and no list of the intermediate has gone out since.
   */
  lemma {:induction false} MissedExactly(cfg: Config, keyFile: Option<MasterKey>, events: seq<Event>, i: nat)
    ensures Missed(Run(cfg, keyFile, events).db, i) <==> Overlooked(cfg, keyFile, events, i)
    decreases |events|
  {
    if events != [] {
      var init, last := events[..|events| - 1], events[|events| - 1];
      var st := Run(cfg, keyFile, init);
      assert Run(cfg, keyFile, events) == After(cfg, st, last);
      hide Run, After, RunningOk, Missed, Overlooked, CutOff, CrlsOf;
      RunOk(cfg, keyFile, init);
      RunOk(cfg, keyFile, events);
      MissedExactly(cfg, keyFile, init, i);
      MissedStep(cfg, st, last, i);
      OverlookedSnoc(cfg, keyFile, events, i);
    }
  }

  // ----- CAs without a list -----

  predicate Unlisted(db: Db, caId: nat)
  {
    HasId(db.cas, caId) && CrlsOf(db.crls, caId) == []
  }

  /** The event stores this CA and dies before its first list. */
  predicate BornUnlisted(db: Db, db': Db, e: Event, caId: nat)
  {
    DiesBeforeList(e) && |db.cas| < caId == |db'.cas|
  }

  predicate BornUnlistedAt(cfg: Config, keyFile: Option<MasterKey>, events: seq<Event>, m: nat, caId: nat)
  {
    && m < |events|
    && BornUnlisted(Run(cfg, keyFile, events[..m]).db, Run(cfg, keyFile, events[..m + 1]).db, events[m], caId)
  }

  /** What is known before a call that makes it store this CA and die before its first list. */
  predicate WillBeUnlisted(st: State, e: Event, caId: nat)
  {
    && e.crash.Some?
    && match e.op {
      case InitRootOp(root) =>
        caId == 1 && e.crash.value.commits == 1 && st.db.cas == [] && |root.passphrase| >= 12
      case InitIntermediateOp(_) =>
        caId == 2 && e.crash.value.commits == 2 && |st.db.cas| == 1 && st.vault.rootKey.Some?
      case _ => false
    }
  }

  lemma RootAllowed(cfg: Config, st: State, root: RootArgs)
    requires RunningOk(cfg, st)
    ensures RootError(st.db, root) == None <==> st.db.cas == [] && |root.passphrase| >= 12
  {
    hide RunningOk, UnlockRoot, RootRow, RefreshCrl, RootAsAsked;
    RootSetup(cfg, st, root, 0);
  }

  lemma IntermediateAllowed(cfg: Config, st: State, args: IntermediateArgs)
    requires RunningOk(cfg, st)
    ensures IntermediateError(st) == None <==> |st.db.cas| == 1 && st.vault.rootKey.Some?
  {
    hide RunningOk, Load, IntermediateRow, RefreshCrl, IntermediateAsAsked, IntermediateError;
    IntermediateSetup(cfg, st, args, 0);
  }

  lemma PartialRevokeCas(st: State, env: Env, certId: nat, reason: string, actor: Option<nat>, k: nat)
    requires k > 0
    ensures |PartialRevoke(st, env, certId, reason, actor, k).db.cas| == |st.db.cas|
  {
  }

  /** No other call stores a CA. */
  lemma OthersBearNone(cfg: Config, st: State, e: Event)
    requires e.crash.Some? && DiesBeforeList(e) && !e.op.InitRootOp? && !e.op.InitIntermediateOp?
    ensures |Partial(cfg, st, e.env, e.op, e.crash.value.commits).db.cas| == |st.db.cas|
  {
    hide PartialRevoke, Issue;
    match e.op
    case RevokeOp(certId, reason, actor) =>
      PartialRevokeCas(st, e.env, certId, reason, actor, e.crash.value.commits);
    case RenewOp(predecessor, args) =>
      if HasId(st.db.certs, predecessor) {
        var args' := args.(profileCode := st.db.certs[predecessor - 1].profileCode);
        PartialRevokeCas(st.(db := Issue(st.db, st.vault, e.env, args').0), e.env, predecessor, "superseded",
                         args.requestedBy, 1);
      }
  }

  lemma BornStep(cfg: Config, st: State, e: Event, caId: nat)
    requires RunningOk(cfg, st)
    ensures BornUnlisted(st.db, After(cfg, st, e).db, e, caId) <==> WillBeUnlisted(st, e, caId)
  {
    hide RunningOk, StoredOk, Restart, RootRow, IntermediateRow, IntermediateError, RootError, Step;
    if DiesBeforeList(e) {
      PartialOk(cfg, st, e.env, e.op, e.crash.value.commits);
      RestartOk(cfg, Partial(cfg, st, e.env, e.op, e.crash.value.commits), e.crash.value.drawn);
      match e.op
      case InitRootOp(root) =>
        RootAllowed(cfg, st, root);
        if RootError(st.db, root).Some? {
          NoRoot(cfg, st, e.env, root);
        }
      case InitIntermediateOp(args) => IntermediateAllowed(cfg, st, args);
      case _ =>
        hide Partial;
        OthersBearNone(cfg, st, e);
    }
  }

  /** A CA is stored without a list exactly by such a call. */
  lemma BornExactly(cfg: Config, keyFile: Option<MasterKey>, events: seq<Event>, m: nat, caId: nat)
    ensures BornUnlistedAt(cfg, keyFile, events, m, caId) <==>
              m < |events| && WillBeUnlisted(Run(cfg, keyFile, events[..m]), events[m], caId)
  {
    hide RunningOk, After, BornUnlisted, WillBeUnlisted;
    if m < |events| {
      assert events[..m + 1][..m] == events[..m];
      var st := Run(cfg, keyFile, events[..m]);
      assert Run(cfg, keyFile, events[..m + 1]) == After(cfg, st, events[m]);
      hide Run;
      RunOk(cfg, keyFile, events[..m]);
      BornStep(cfg, st, events[m], caId);
    }
  }

  lemma UnlistedStep(cfg: Config, st: State, e: Event, caId: nat)
    requires RunningOk(cfg, st)
    ensures
      var st' := After(cfg, st, e);
      Unlisted(st'.db, caId) <==>
        || (Unlisted(st.db, caId) && CrlsOf(st'.db.crls, caId) == CrlsOf(st.db.crls, caId))
        || BornUnlisted(st.db, st'.db, e, caId)
  {
    hide RunningOk, After, FreshFor, RowEvolves, RequestsGrow;
    var st' := After(cfg, st, e);
    AfterMoves(cfg, st, e, caId);
    AfterEvolves(cfg, st, e);
    hide CrlsOf;
    CrlsOfGrows(st.db.crls, st'.db.crls, caId);
    if !HasId(st.db.cas, caId) {
      NoListYet(cfg, st, caId);
    }
  }

  lemma NoListYet(cfg: Config, st: State, caId: nat)
    requires RunningOk(cfg, st) && !HasId(st.db.cas, caId)
    ensures CrlsOf(st.db.crls, caId) == []
  {
    hide CertsOk, RevocationsOk, RequestsOk, VaultOk, CasOk;
    CrlsOfNone(st.db.crls, caId);
  }

  ghost predicate NeverListed(cfg: Config, keyFile: Option<MasterKey>, events: seq<Event>, caId: nat)
  {
    exists m: nat :: BornUnlistedAt(cfg, keyFile, events, m, caId) && NoneSince(cfg, keyFile, events, m, caId)
  }

  lemma BornSnoc(cfg: Config, keyFile: Option<MasterKey>, events: seq<Event>, m: nat, caId: nat)
    requires m < |events| - 1
    ensures BornUnlistedAt(cfg, keyFile, events, m, caId) <==>
        BornUnlistedAt(cfg, keyFile, events[..|events| - 1], m, caId)
  {
    hide Run, BornUnlisted;
    var init := events[..|events| - 1];
    assert init[..m + 1] == events[..m + 1] && init[..m] == events[..m];
  }

  lemma LastBorn(cfg: Config, keyFile: Option<MasterKey>, events: seq<Event>, caId: nat)
    requires events != []
    ensures
      var n := |events| - 1;
      && (BornUnlistedAt(cfg, keyFile, events, n, caId) <==>
            BornUnlisted(Run(cfg, keyFile, events[..n]).db, Run(cfg, keyFile, events).db, events[n], caId))
      && NoneSince(cfg, keyFile, events, n, caId)
  {
    hide Run, BornUnlisted;
    assert events[..|events|] == events;
  }

  lemma NeverListedSnoc(cfg: Config, keyFile: Option<MasterKey>, events: seq<Event>, caId: nat)
    requires events != []
    ensures
      var init := events[..|events| - 1];
      var before, after := Run(cfg, keyFile, init).db, Run(cfg, keyFile, events).db;
      NeverListed(cfg, keyFile, events, caId) <==>
        || (NeverListed(cfg, keyFile, init, caId) && CrlsOf(after.crls, caId) == CrlsOf(before.crls, caId))
        || BornUnlisted(before, after, events[|events| - 1], caId)
  {
    hide Run, BornUnlisted, BornUnlistedAt, NoneSince, CrlsOf;
    var n := |events| - 1;
    LastBorn(cfg, keyFile, events, caId);
    forall m: nat | m < n
      ensures BornUnlistedAt(cfg, keyFile, events, m, caId) <==> BornUnlistedAt(cfg, keyFile, events[..n], m, caId)
      ensures NoneSince(cfg, keyFile, events, m, caId) <==>
                NoneSince(cfg, keyFile, events[..n], m, caId)
                && CrlsOf(Run(cfg, keyFile, events).db.crls, caId) ==
                      CrlsOf(Run(cfg, keyFile, events[..n]).db.crls, caId)
    {
      BornSnoc(cfg, keyFile, events, m, caId);
      NoneSinceSnoc(cfg, keyFile, events, m, caId);
    }
    forall m: nat | NoneSince(cfg, keyFile, events, m, caId) || NoneSince(cfg, keyFile, events[..n], m, caId)
      ensures m <= n
    {
      NoneSinceBound(cfg, keyFile, events, m, caId);
      NoneSinceBound(cfg, keyFile, events[..n], m, caId);
    }
    if m: nat :| BornUnlistedAt(cfg, keyFile, events[..n], m, caId) && NoneSince(cfg, keyFile, events[..n], m, caId) {
      NoneSinceBound(cfg, keyFile, events[..n], m, caId);
      assert BornUnlistedAt(cfg, keyFile, events, m, caId);
    }
  }

  /**
   In every run a CA has no list exactly when the call that stored it died before the first one, and
   none has gone out since.
   */
  lemma {:induction false} UnlistedExactly(cfg: Config, keyFile: Option<MasterKey>, events: seq<Event>, caId: nat)
    ensures Unlisted(Run(cfg, keyFile, events).db, caId) <==> NeverListed(cfg, keyFile, events, caId)
    decreases |events|
  {
    if events != [] {
      var init, last := events[..|events| - 1], events[|events| - 1];
      var st := Run(cfg, keyFile, init);
      assert Run(cfg, keyFile, events) == After(cfg, st, last);
      hide Run, After, RunningOk, Unlisted, BornUnlisted, NeverListed, CrlsOf;
      RunOk(cfg, keyFile, init);
      UnlistedExactly(cfg, keyFile, init, caId);
      UnlistedStep(cfg, st, last, caId);
      NeverListedSnoc(cfg, keyFile, events, caId);
    }
  }

  // ----- What the served lists show -----

  lemma ServedOrUnlisted(cfg: Config, st: State, caId: nat)
    requires RunningOk(cfg, st) && HasId(st.db.cas, caId)
    ensures ServedCrl(st.db.crls, caId).None? <==> Unlisted(st.db, caId)
  {
    hide RunningOk;
    ListsOf(cfg, st, caId);
  }

  lemma UsableList(crl: Crl, c: Certificate, issuer: Certificate)
    requires CrlUsable(crl, c, issuer)
    ensures crl.signature.content == crl.content && crl.content.issuer == c.content.issuer
    ensures crl.signature.key == c.signature.key
  {
  }

  /**
   In every run, following an issued certificate's CRL pointer reaches a list signed with the key that
   signed the certificate, unless the intermediate has never had one; and the serial is shown exactly
   when the certificate is REVOKED and its revocation is not overlooked.
   */
  lemma CrlPointer(cfg: Config, keyFile: Option<MasterKey>, events: seq<Event>, i: nat)
    ensures
      var db := Run(cfg, keyFile, events).db;
      i < |db.certs| ==>
        var c := db.certs[i].certificate;
        var served := ServedCrl(db.crls, c.content.crlCaId);
        && HasId(db.cas, c.content.crlCaId) && db.cas[c.content.crlCaId - 1].certificate.Some?
        && (served.None? <==> NeverListed(cfg, keyFile, events, c.content.crlCaId))
        && (served.Some? ==>
              && CrlUsable(served.value.crl, c, db.cas[c.content.crlCaId - 1].certificate.value)
              && served.value.crl.signature.content == served.value.crl.content
              && served.value.crl.signature.key == c.signature.key
              && served.value.crl.content.issuer == c.content.issuer)
        && (served.Some? && Lists(served.value.crl, c.content.serial) <==>
              db.certs[i].status == Revoked && !Overlooked(cfg, keyFile, events, i))
  {
    hide Run, RunningOk, Overlooked, NeverListed, CrlUsable;
    RunOk(cfg, keyFile, events);
    var st := Run(cfg, keyFile, events);
    if i < |st.db.certs| {
      CrlPointerOf(cfg, st, i);
      ServedOrUnlisted(cfg, st, 2);
      UnlistedExactly(cfg, keyFile, events, 2);
      MissedExactly(cfg, keyFile, events, i);
      if Shown(st.db, i) {
        ShownIsRevoked(cfg, st, i);
      }
      var served := ServedCrl(st.db.crls, 2);
      if served.Some? {
        UsableList(served.value.crl, st.db.certs[i].certificate, st.db.cas[1].certificate.value);
      }
    }
  }

  /** The pointers of root and intermediate reach the root's list, unless it has never had one; it lists nothing. */
  lemma CaCrlPointer(cfg: Config, keyFile: Option<MasterKey>, events: seq<Event>, caId: nat)
    ensures
      var db := Run(cfg, keyFile, events).db;
      HasId(db.cas, caId) ==>
        var served := ServedCrl(db.crls, 1);
        && db.cas[caId - 1].certificate.Some? && db.cas[0].certificate.Some?
        && db.cas[caId - 1].certificate.value.content.crlCaId == 1
        && (served.None? <==> NeverListed(cfg, keyFile, events, 1))
        && (served.Some? ==>
              && CrlUsable(served.value.crl, db.cas[caId - 1].certificate.value, db.cas[0].certificate.value)
              && forall serial: nat :: !Lists(served.value.crl, serial))
  {
    hide Run, RunningOk, NeverListed, CrlUsable;
    RunOk(cfg, keyFile, events);
    var st := Run(cfg, keyFile, events);
    if HasId(st.db.cas, caId) {
      CaCrlPointerOf(cfg, st, caId);
      ServedOrUnlisted(cfg, st, 1);
      UnlistedExactly(cfg, keyFile, events, 1);
    }
  }

  lemma OwnEntry(cfg: Config, st: State, r: RevocationRow, r': RevocationRow, e: CrlEntry, e': CrlEntry)
    requires RunningOk(cfg, st) && r in st.db.revocations && r' in st.db.revocations
    requires IsTriple(st.db, r, 2, e) && IsTriple(st.db, r', 2, e') && e.serial == e'.serial
    ensures e == e'
  {
    hide RunningOk;
    SerialsOf(cfg, st, r.certId - 1, r'.certId - 1);
    OneRevocation(cfg, st, r, r');
    FlagNameInjective(e.reason, e'.reason);
  }

  lemma OneRevocation(cfg: Config, st: State, r: RevocationRow, r': RevocationRow)
    requires RunningOk(cfg, st) && r in st.db.revocations && r' in st.db.revocations && r.certId == r'.certId
    ensures r == r'
  {
  }

  lemma IntermediatesOnly(cfg: Config, st: State, r: RevocationRow, caId: nat, e: CrlEntry)
    requires RunningOk(cfg, st) && IsTriple(st.db, r, caId, e)
    ensures caId == 2
  {
    LeafFacts(cfg, st, r.certId - 1);
  }

  /** An entry of the served list is there for the certificate of its serial. */
  lemma EntryShows(cfg: Config, st: State, caId: nat, e: CrlEntry, r: RevocationRow)
    requires RunningOk(cfg, st) && r in st.db.revocations && IsTriple(st.db, r, caId, e)
    requires ServedCrl(st.db.crls, caId).Some? && DistinctSerials(ServedCrl(st.db.crls, caId).value.crl.content.entries)
    requires forall f :: f in ServedCrl(st.db.crls, caId).value.crl.content.entries ==>
               exists q :: q in st.db.revocations && IsTriple(st.db, q, caId, f)
    ensures e in ServedCrl(st.db.crls, caId).value.crl.content.entries <==> Shown(st.db, r.certId - 1)
  {
    hide RunningOk, DistinctSerials;
    IntermediatesOnly(cfg, st, r, caId, e);
    var entries := ServedCrl(st.db.crls, caId).value.crl.content.entries;
    if Shown(st.db, r.certId - 1) {
      var f :| f in entries && f.serial == st.db.certs[r.certId - 1].certificate.content.serial;
      var q :| q in st.db.revocations && IsTriple(st.db, q, caId, f);
      OwnEntry(cfg, st, r, q, e, f);
    }
  }

  /**
   In every run the served list of a CA has exactly the triples of serial, date and reason of its revoked
   certificates, each once, except for those overlooked; there is none exactly if the CA has never had one.
   */
  lemma ServedListExact(cfg: Config, keyFile: Option<MasterKey>, events: seq<Event>, caId: nat, e: CrlEntry)
    ensures
      var db := Run(cfg, keyFile, events).db;
      var served := ServedCrl(db.crls, caId);
      HasId(db.cas, caId) ==>
        && (served.None? <==> NeverListed(cfg, keyFile, events, caId))
        && (served.Some? ==>
              && DistinctSerials(served.value.crl.content.entries)
              && (e in served.value.crl.content.entries <==>
                    exists r :: r in db.revocations && IsTriple(db, r, caId, e)
                        && !Overlooked(cfg, keyFile, events, r.certId - 1)))
  {
    hide Run, RunningOk, NeverListed, Overlooked, DistinctSerials, Shown, IsTriple;
    RunOk(cfg, keyFile, events);
    var st := Run(cfg, keyFile, events);
    var served := ServedCrl(st.db.crls, caId);
    if HasId(st.db.cas, caId) {
      ServedOrUnlisted(cfg, st, caId);
      UnlistedExactly(cfg, keyFile, events, caId);
      if served.Some? {
        forall f | f in served.value.crl.content.entries
          ensures exists q :: q in st.db.revocations && IsTriple(st.db, q, caId, f)
        {
          ServedListSubset(cfg, keyFile, events, caId, f);
        }
        ServedListSubset(cfg, keyFile, events, caId, e);
        forall r | r in st.db.revocations && IsTriple(st.db, r, caId, e)
          ensures r.certId > 0
          ensures e in served.value.crl.content.entries <==> !Overlooked(cfg, keyFile, events, r.certId - 1)
        {
          TripleId(st.db, r, caId, e);
          RevocationAt(cfg, st, r);
          EntryShows(cfg, st, caId, e, r);
          MissedExactly(cfg, keyFile, events, r.certId - 1);
        }
      }
    }
  }

  lemma TripleId(db: Db, r: RevocationRow, caId: nat, e: CrlEntry)
    requires IsTriple(db, r, caId, e)
    ensures HasId(db.certs, r.certId)
  {
  }

  // ----- After a refresh -----

  /** Calls that run to their end do not add to what is missed or unlisted. */
  lemma {:induction false} NoneMissed(
      cfg: Config, keyFile: Option<MasterKey>, events: seq<Event>, more: seq<Event>, caId: nat, i: nat)
    requires CrashFree(more)
    ensures !Missed(Run(cfg, keyFile, events).db, i) ==> !Missed(Run(cfg, keyFile, events + more).db, i)
    ensures
      !Unlisted(Run(cfg, keyFile, events).db, caId) && HasId(Run(cfg, keyFile, events).db.cas, caId) ==>
        !Unlisted(Run(cfg, keyFile, events + more).db, caId) && HasId(Run(cfg, keyFile, events + more).db.cas, caId)
    decreases |more|
  {
    hide RunningOk, Missed, Unlisted, CrlsOf, RowEvolves, RequestsGrow;
    if more == [] {
      assert events + more == events;
    } else {
      var n := |more| - 1;
      assert (events + more)[..|events| + n] == events + more[..n];
      var st := Run(cfg, keyFile, events + more[..n]);
      assert Run(cfg, keyFile, events + more) == After(cfg, st, more[n]);
      hide Run, After;
      RunOk(cfg, keyFile, events + more[..n]);
      RunOk(cfg, keyFile, events + more);
      NoneMissed(cfg, keyFile, events, more[..n], caId, i);
      MissedStep(cfg, st, more[n], i);
      UnlistedStep(cfg, st, more[n], caId);
      AfterEvolves(cfg, st, more[n]);
    }
  }

  /** A fresh list is there and misses nothing. */
  lemma FreshMisses(cfg: Config, st: State, caId: nat, i: nat)
    requires RunningOk(cfg, st) && HasId(st.db.cas, caId) && FreshFor(st.db, caId)
    ensures !Unlisted(st.db, caId) && (caId == 2 ==> !Missed(st.db, i))
  {
    hide RunningOk;
    if caId == 2 && i < |st.db.certs| && st.db.certs[i].status == Revoked {
      FreshShows(cfg, st, i);
    }
  }

  /** A refresh that gets as far as this CA, even if the process dies later in it. */
  predicate RefreshReaches(e: Event, caId: nat)
  {
    e.op == RefreshOp && (e.crash.Some? ==> e.crash.value.commits >= caId)
  }

  lemma RefreshedNow(cfg: Config, st: State, e: Event, caId: nat)
    requires RunningOk(cfg, st) && RefreshReaches(e, caId) && KeyAtHand(st, caId)
    ensures
      var db' := After(cfg, st, e).db;
      HasId(db'.cas, caId) && FreshFor(db', caId)
  {
    hide RunningOk, StoredOk, Restart, RefreshCrls, FreshFor;
    var n := if e.crash.Some? then Min(e.crash.value.commits, |st.db.cas|) else |st.db.cas|;
    RefreshRestoresOf(cfg, st, n, e.env.now, caId);
    if e.crash.Some? {
      PartialOk(cfg, st, e.env, e.op, e.crash.value.commits);
      RestartOk(cfg, Partial(cfg, st, e.env, e.op, e.crash.value.commits), e.crash.value.drawn);
    }
  }

  /**
   Whatever has crashed before: from a refresh on that gets as far as this CA while its key is there, its
   list is exact, for as long as calls run to their end.
   */
  lemma RefreshRestores(
      cfg: Config, keyFile: Option<MasterKey>, events: seq<Event>, refresh: Event, more: seq<Event>, caId: nat,
      e: CrlEntry)
    requires RefreshReaches(refresh, caId) && CrashFree(more)
    ensures
      var st := Run(cfg, keyFile, events);
      var db := Run(cfg, keyFile, events + [refresh] + more).db;
      HasId(st.db.cas, caId) && (caId == 1 ==> st.vault.rootKey.Some?) ==>
        && ServedCrl(db.crls, caId).Some?
        && DistinctSerials(ServedCrl(db.crls, caId).value.crl.content.entries)
        && (e in ServedCrl(db.crls, caId).value.crl.content.entries <==>
              exists r :: r in db.revocations && IsTriple(db, r, caId, e))
  {
    hide RunningOk, FreshFor, Overlooked, NeverListed, Missed, Unlisted, DistinctSerials, IsTriple, After;
    var st, base := Run(cfg, keyFile, events), events + [refresh];
    if KeyAtHand(st, caId) {
      assert base[..|events|] == events;
      assert Run(cfg, keyFile, base) == After(cfg, st, refresh);
      hide Run;
      RunOk(cfg, keyFile, events);
      RunOk(cfg, keyFile, base);
      RunOk(cfg, keyFile, base + more);
      RefreshedNow(cfg, st, refresh, caId);
      var after := Run(cfg, keyFile, base + more);
      FreshMisses(cfg, Run(cfg, keyFile, base), caId, 0);
      NoneMissed(cfg, keyFile, base, more, caId, 0);
      ServedOrUnlisted(cfg, after, caId);
      ServedListExact(cfg, keyFile, base + more, caId, e);
      forall r | r in after.db.revocations && IsTriple(after.db, r, caId, e)
        ensures r.certId > 0 && !Overlooked(cfg, keyFile, base + more, r.certId - 1)
      {
        TripleId(after.db, r, caId, e);
        IntermediatesOnly(cfg, after, r, caId, e);
        FreshMisses(cfg, Run(cfg, keyFile, base), caId, r.certId - 1);
        NoneMissed(cfg, keyFile, base, more, caId, r.certId - 1);
        MissedExactly(cfg, keyFile, base + more, r.certId - 1);
      }
    }
  }

  /** Where no call died, every CA has a list, and it shows exactly the revocations that are stored. */
  lemma CrashFreeFresh(cfg: Config, keyFile: Option<MasterKey>, events: seq<Event>, caId: nat, e: CrlEntry)
    requires CrashFree(events)
    ensures
      var db := Run(cfg, keyFile, events).db;
      HasId(db.cas, caId) ==>
        && ServedCrl(db.crls, caId).Some?
        && (e in ServedCrl(db.crls, caId).value.crl.content.entries <==>
              exists r :: r in db.revocations && IsTriple(db, r, caId, e))
  {
    hide Run, Overlooked, NeverListed, IsTriple, DistinctSerials;
    NoneOverlooked(cfg, keyFile, events, caId);
    ServedListExact(cfg, keyFile, events, caId, e);
    forall r | r in Run(cfg, keyFile, events).db.revocations && IsTriple(Run(cfg, keyFile, events).db, r, caId, e)
      ensures r.certId > 0
    {
      TripleId(Run(cfg, keyFile, events).db, r, caId, e);
    }
  }

  /** Nothing is overlooked, and no CA is without a list, where no call died. */
  lemma NoneOverlooked(cfg: Config, keyFile: Option<MasterKey>, events: seq<Event>, caId: nat)
    requires CrashFree(events)
    ensures !NeverListed(cfg, keyFile, events, caId) && forall i: nat :: !Overlooked(cfg, keyFile, events, i)
  {
    hide Run;
  }
}
