/**
 Runs of the CA: service calls, scheduler jobs, restarts and crashes one after the other.

 Calls do not overlap. A call that dies has executed its first commits; what it held in memory is
 gone, and the process starts again and loads the intermediate key.
 */
module CaMachine {
  import opened Wrappers
  import opened Crypto
  import opened CertPolicy
  import opened CaState
  import opened CaInvariant

  datatype Op =
    | InitRootOp(root: RootArgs)
    | InitIntermediateOp(intermediate: IntermediateArgs)
    | UnlockOp(passphrase: string)
    | LockOp
    | RelockOp
    | IssueOp(args: IssueArgs)
    | RenewOp(predecessor: nat, args: IssueArgs)
    | RevokeOp(certId: nat, reason: string, actor: Option<nat>)
    | SubmitOp(csr: CsrPem, profileCode: string, requestedBy: nat)
    | ApproveOp(requestId: nat, reviewer: nat, validityDays: Option<int>, draws: Draws)
    | RejectOp(requestId: nat, reviewer: nat, rejection: string)
    | RefreshOp
    | NotifyOp(warningDays: int, delivered: set<nat>)
    | MasterKeyOp(drawn: MasterKey)
    | RestartOp(drawn: MasterKey)

  datatype Crash = Crash(commits: nat, drawn: MasterKey)

  datatype Event = Event(env: Env, op: Op, crash: Option<Crash>)

  function Restart(cfg: Config, st: State, drawn: MasterKey): State
  {
    Load(cfg, (if NeedsMasterKey(st.db) then EnsureMasterKey(cfg, st, drawn) else st).(vault := EMPTY_VAULT))
  }

  /** A whole call. */
  function Step(cfg: Config, st: State, env: Env, op: Op): State
  {
    match op
    case InitRootOp(root) => InitRoot(cfg, st, root, env.now).0
    case InitIntermediateOp(intermediate) => InitIntermediate(cfg, st, intermediate, env.now).0
    case UnlockOp(passphrase) => st.(vault := UnlockRoot(cfg, st.db, st.vault, passphrase, env.now).0)
    case LockOp => st.(vault := LockRoot(st.vault))
    case RelockOp => st.(vault := RelockTick(cfg, st.vault, env.now))
    case IssueOp(args) => st.(db := Issue(st.db, st.vault, env, args).0)
    case RenewOp(predecessor, args) => st.(db := Renew(st.db, st.vault, env, predecessor, args).0)
    case RevokeOp(certId, reason, actor) => st.(db := Revoke(st.db, st.vault, env, certId, reason, actor).0)
    case SubmitOp(csr, profileCode, requestedBy) => st.(db := Submit(st.db, env, csr, profileCode, requestedBy).0)
    case ApproveOp(requestId, reviewer, validityDays, draws) =>
      st.(db := Approve(st.db, st.vault, env, requestId, reviewer, validityDays, draws).0)
    case RejectOp(requestId, reviewer, rejection) => st.(db := Reject(st.db, env, requestId, reviewer, rejection).0)
    case RefreshOp => st.(db := RefreshCrls(st.db, st.vault, |st.db.cas|, env.now))
    case NotifyOp(warningDays, delivered) =>
      st.(db := st.db.(certs := NotifyFirst(st.db.certs, |st.db.certs|, env, warningDays, delivered)))
    case MasterKeyOp(drawn) => EnsureMasterKey(cfg, st, drawn)
    case RestartOp(drawn) => Restart(cfg, st, drawn)
  }

  function Min(a: nat, b: nat): nat
  {
    if a < b then a else b
  }

  /** What is stored when a call dies after k of its commits (writing the key file counts as one). */
  function Partial(cfg: Config, st: State, env: Env, op: Op, k: nat): State
  {
    if k == 0 then st
    else
      match op
      case InitRootOp(root) =>
        if k == 1 && RootError(st.db, root) == None then st.(db := CommitRoot(cfg, st.db, root, env.now))
        else Step(cfg, st, env, op)
      case InitIntermediateOp(intermediate) =>
        if IntermediateError(st).Some? then st
        else
          var ready := EnsureMasterKey(cfg, st, intermediate.masterKey);
          if k == 1 then ready
          else if k == 2 then CommitIntermediate(cfg, ready, intermediate, env.now)
          else Step(cfg, st, env, op)
      case RenewOp(predecessor, args) =>
        if !HasId(st.db.certs, predecessor) then st
        else
          var (issued, r) :=
              Issue(st.db, st.vault, env, args.(profileCode := st.db.certs[predecessor - 1].profileCode));
          if k == 1 || r.Err? || st.db.certs[predecessor - 1].status != Valid then st.(db := issued)
          else PartialRevoke(st.(db := issued), env, predecessor, "superseded", args.requestedBy, k - 1)
      case RevokeOp(certId, reason, actor) => PartialRevoke(st, env, certId, reason, actor, k)
      case ApproveOp(requestId, reviewer, validityDays, draws) =>
        if k == 1 && PendingError(st.db, requestId) == None
        then st.(db := Issue(st.db, st.vault, env, ApprovalArgs(st.db.requests[requestId - 1], validityDays, draws)).0)
        else Step(cfg, st, env, op)
      case RefreshOp => st.(db := RefreshCrls(st.db, st.vault, Min(k, |st.db.cas|), env.now))
      case NotifyOp(warningDays, delivered) =>
        st.(db := st.db.(certs := NotifyFirst(st.db.certs, Min(k, |st.db.certs|), env, warningDays, delivered)))
      case _ => Step(cfg, st, env, op)
  }

  function PartialRevoke(st: State, env: Env, certId: nat, reason: string, actor: Option<nat>, k: nat): State
    requires k > 0
  {
    if RevokeError(st.db, env, certId, reason, actor).Some? then st
    else if k == 1 then st.(db := CommitRevocation(st.db, certId, reason, actor, env.now))
    else st.(db := Revoke(st.db, st.vault, env, certId, reason, actor).0)
  }

  function After(cfg: Config, st: State, e: Event): State
  {
    match e.crash
    case None => Step(cfg, st, e.env, e.op)
    case Some(crash) => Restart(cfg, Partial(cfg, st, e.env, e.op, crash.commits), crash.drawn)
  }

  /** A fresh installation; a key file may have been provided. */
  function Installed(keyFile: Option<MasterKey>): State
  {
    State(EMPTY_DB, EMPTY_VAULT, keyFile)
  }

  function Run(cfg: Config, keyFile: Option<MasterKey>, events: seq<Event>): State
  {
    if events == [] then Installed(keyFile)
    else After(cfg, Run(cfg, keyFile, events[..|events| - 1]), events[|events| - 1])
  }

  predicate CrashFree(events: seq<Event>)
  {
    forall i :: 0 <= i < |events| ==> events[i].crash == None
  }

  // ----- The invariant along a run -----

  lemma EnsureKeeps(cfg: Config, st: State, drawn: MasterKey)
    requires RunningOk(cfg, st)
    ensures RunningOk(cfg, EnsureMasterKey(cfg, st, drawn))
  {
  }

  lemma RestartOk(cfg: Config, st: State, drawn: MasterKey)
    requires StoredOk(cfg, st)
    ensures RunningOk(cfg, Restart(cfg, st, drawn)) && Restart(cfg, st, drawn).db == st.db
  {
    hide CertsOk, RevocationsOk, CrlsOk, RequestsOk;
    var ready := (if NeedsMasterKey(st.db) then EnsureMasterKey(cfg, st, drawn) else st).(vault := EMPTY_VAULT);
    assert StoredOk(cfg, ready);
    LoadKeeps(cfg, ready);
  }

  lemma InitRootKeeps(cfg: Config, st: State, args: RootArgs, now: int)
    requires RunningOk(cfg, st)
    ensures RunningOk(cfg, InitRoot(cfg, st, args, now).0)
  {
    hide DbOk, VaultOk, FreshFor, UnlockRoot;
    if RootError(st.db, args) == None {
      var masterKey := MasterKeyOf(cfg, st);
      var db := CommitRoot(cfg, st.db, args, now);
      var vault := UnlockRoot(cfg, db, st.vault, args.passphrase, now).0;
      RootKeeps(cfg, masterKey, st.db, args, now);
      RootUnlocks(cfg, masterKey, st.db, st.vault, args, now);
      RefreshKeeps(masterKey, db, vault, 1, now);
    }
  }

  lemma RefreshCount(db: Db, vault: Vault, caId: nat, now: int)
    ensures |RefreshCrl(db, vault, caId, now).cas| == |db.cas|
  {
  }

  /** The key just certified is in the vault, so the first list goes out at once. */
  lemma LoadedAfterCommit(cfg: Config, st: State, args: IntermediateArgs, now: int)
    requires RunningOk(cfg, st) && IntermediateError(st) == None && MasterKeyOf(cfg, st).Some?
    ensures
      var committed := CommitIntermediate(cfg, st, args, now);
      var loaded := Load(cfg, committed);
      && |st.db.cas| == 1 && loaded.db == committed.db && |loaded.db.cas| == 2
      && RunningOk(cfg, loaded) && CanPublish(loaded.db, loaded.vault, 2)
  {
    hide CertsOk, RevocationsOk, CrlsOk, RequestsOk, IntermediateOk;
    IntermediateKeeps(cfg, st, args, now);
    LoadKeeps(cfg, CommitIntermediate(cfg, st, args, now));
  }

  lemma InitIntermediateKeeps(cfg: Config, st: State, args: IntermediateArgs, now: int)
    requires RunningOk(cfg, st)
    ensures RunningOk(cfg, InitIntermediate(cfg, st, args, now).0)
  {
    hide DbOk, VaultOk, FreshFor, Load, IntermediateRow;
    if IntermediateError(st) == None {
      var ready := EnsureMasterKey(cfg, st, args.masterKey);
      EnsureKeeps(cfg, st, args.masterKey);
      LoadedAfterCommit(cfg, ready, args, now);
      var loaded := Load(cfg, CommitIntermediate(cfg, ready, args, now));
      RefreshKeeps(MasterKeyOf(cfg, loaded), loaded.db, loaded.vault, 2, now);
    }
  }

  lemma StepOk(cfg: Config, st: State, env: Env, op: Op)
    requires RunningOk(cfg, st)
    ensures RunningOk(cfg, Step(cfg, st, env, op))
  {
    hide DbOk, VaultOk, InitRoot, InitIntermediate, Issue, Renew, Revoke, Submit, Approve, Reject, UnlockRoot, Restart;
    var masterKey := MasterKeyOf(cfg, st);
    match op
    case InitRootOp(root) => InitRootKeeps(cfg, st, root, env.now);
    case InitIntermediateOp(intermediate) => InitIntermediateKeeps(cfg, st, intermediate, env.now);
    case UnlockOp(passphrase) => UnlockOk(cfg, st, passphrase, env.now);
    case LockOp => LockOk(st.db.cas, st.vault);
    case RelockOp => LockOk(st.db.cas, st.vault);
    case IssueOp(args) =>
      IssueKeeps(masterKey, st.db, st.vault, env, args);
    case RenewOp(predecessor, args) => RenewKeeps(masterKey, st.db, st.vault, env, predecessor, args);
    case RevokeOp(certId, reason, actor) =>
      RevokeKeeps(masterKey, st.db, st.vault, env, certId, reason, actor);
    case SubmitOp(csr, profileCode, requestedBy) =>
      SubmitKeeps(masterKey, st.db, env, csr, profileCode, requestedBy);
      SubmitCas(st.db, env, csr, profileCode, requestedBy);
    case ApproveOp(requestId, reviewer, validityDays, draws) =>
      ApproveKeeps(masterKey, st.db, st.vault, env, requestId, reviewer, validityDays, draws);
    case RejectOp(requestId, reviewer, rejection) =>
      RejectKeeps(masterKey, st.db, env, requestId, reviewer, rejection);
      RejectCas(st.db, env, requestId, reviewer, rejection);
    case RefreshOp => RefreshAllKeeps(masterKey, st.db, st.vault, |st.db.cas|, env.now);
    case NotifyOp(warningDays, delivered) =>
      NotifyKeeps(masterKey, st.db, |st.db.certs|, env, warningDays, delivered);
    case MasterKeyOp(drawn) => EnsureKeeps(cfg, st, drawn);
    case RestartOp(drawn) => RestartOk(cfg, st, drawn);
  }

  lemma UnlockOk(cfg: Config, st: State, passphrase: string, now: int)
    requires RunningOk(cfg, st)
    ensures RunningOk(cfg, st.(vault := UnlockRoot(cfg, st.db, st.vault, passphrase, now).0))
  {
  }

  lemma LockOk(cas: seq<CaRow>, vault: Vault)
    requires VaultOk(cas, vault)
    ensures VaultOk(cas, LockRoot(vault))
  {
  }

  lemma SubmitCas(db: Db, env: Env, csr: CsrPem, profileCode: string, requestedBy: nat)
    ensures Submit(db, env, csr, profileCode, requestedBy).0.cas == db.cas
  {
  }

  lemma RejectCas(db: Db, env: Env, requestId: nat, reviewer: nat, reason: string)
    ensures Reject(db, env, requestId, reviewer, reason).0.cas == db.cas
  {
  }

  lemma PartialRevokeOk(cfg: Config, st: State, env: Env, certId: nat, reason: string, actor: Option<nat>, k: nat)
    requires RunningOk(cfg, st) && k > 0
    ensures StoredOk(cfg, PartialRevoke(st, env, certId, reason, actor, k))
  {
    hide DbOk, VaultOk, Revoke, CommitRevocation;
    RevokeShape(MasterKeyOf(cfg, st), st.db, st.vault, env, certId, reason, actor);
    RevokeKeeps(MasterKeyOf(cfg, st), st.db, st.vault, env, certId, reason, actor);
  }

  lemma PartialInitOk(cfg: Config, st: State, env: Env, args: IntermediateArgs)
    requires RunningOk(cfg, st) && IntermediateError(st) == None
    ensures
      var ready := EnsureMasterKey(cfg, st, args.masterKey);
      StoredOk(cfg, ready) && StoredOk(cfg, CommitIntermediate(cfg, ready, args, env.now))
  {
    hide DbOk, VaultOk;
    EnsureKeeps(cfg, st, args.masterKey);
    IntermediateKeeps(cfg, EnsureMasterKey(cfg, st, args.masterKey), args, env.now);
  }

  lemma PartialOk(cfg: Config, st: State, env: Env, op: Op, k: nat)
    requires RunningOk(cfg, st)
    ensures StoredOk(cfg, Partial(cfg, st, env, op, k))
  {
    hide DbOk, VaultOk, Step, Issue, PartialRevoke, CommitIntermediate, CommitRoot;
    var masterKey := MasterKeyOf(cfg, st);
    StepOk(cfg, st, env, op);
    match op
    case InitRootOp(root) =>
      if RootError(st.db, root) == None {
        RootKeeps(cfg, masterKey, st.db, root, env.now);
      }
    case InitIntermediateOp(intermediate) =>
      if IntermediateError(st) == None {
        PartialInitOk(cfg, st, env, intermediate);
      }
    case RenewOp(predecessor, args) =>
      if HasId(st.db.certs, predecessor) {
        var args' := args.(profileCode := st.db.certs[predecessor - 1].profileCode);
        IssueKeeps(masterKey, st.db, st.vault, env, args');
        if k > 1 {
          PartialRevokeOk(cfg, st.(db := Issue(st.db, st.vault, env, args').0), env, predecessor, "superseded",
                          args.requestedBy, k - 1);
        }
      }
    case RevokeOp(certId, reason, actor) =>
      if k > 0 {
        PartialRevokeOk(cfg, st, env, certId, reason, actor, k);
      }
    case ApproveOp(requestId, reviewer, validityDays, draws) =>
      if PendingError(st.db, requestId) == None {
        IssueKeeps(masterKey, st.db, st.vault, env, ApprovalArgs(st.db.requests[requestId - 1], validityDays, draws));
      }
    case RefreshOp => RefreshAllKeeps(masterKey, st.db, st.vault, Min(k, |st.db.cas|), env.now);
    case NotifyOp(warningDays, delivered) =>
      NotifyKeeps(masterKey, st.db, Min(k, |st.db.certs|), env, warningDays, delivered);
    case _ =>
  }

  lemma {:induction false} RunOk(cfg: Config, keyFile: Option<MasterKey>, events: seq<Event>)
    ensures RunningOk(cfg, Run(cfg, keyFile, events))
  {
    if events != [] {
      hide RunningOk, StoredOk, Step, Partial, Restart;
      var init, e := events[..|events| - 1], events[|events| - 1];
      RunOk(cfg, keyFile, init);
      var st := Run(cfg, keyFile, init);
      match e.crash {
        case None => StepOk(cfg, st, e.env, e.op);
        case Some(crash) =>
          PartialOk(cfg, st, e.env, e.op, crash.commits);
          RestartOk(cfg, Partial(cfg, st, e.env, e.op, crash.commits), crash.drawn);
      }
    }
  }
}
