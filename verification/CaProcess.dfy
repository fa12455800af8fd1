/** The running process: one call after the other on the services' objects is one event of a run. */
module CaProcess {
  import opened Wrappers
  import opened Crypto
  import opened CaState
  import opened CaInvariant
  import opened CaMachine
  import opened CaTheorems
  import opened CaServices

  /** In every run the foreign key from certificates to CAs holds. */
  lemma CasStoredInRuns(cfg: Config, keyFile: Option<MasterKey>, events: seq<Event>)
    ensures
      var db := Run(cfg, keyFile, events).db;
      CasStored(db.cas, db.certs)
  {
    hide Run, RunningOk;
    RunOk(cfg, keyFile, events);
    var st := Run(cfg, keyFile, events);
    forall i | 0 <= i < |st.db.certs|
      ensures HasId(st.db.cas, st.db.certs[i].caId)
    {
      LeafFacts(cfg, st, i);
    }
  }

  /** The start of a process: nothing is in memory yet, and then the intermediate key is loaded. */
  method Start(cfg: Config, db: Database, vault: KeyVault, secrets: SecretsFile, drawn: MasterKey)
    modifies vault, secrets
    ensures State(db.View(), vault.View(), secrets.key) ==
            Restart(cfg, State(old(db.View()), old(vault.View()), old(secrets.key)), drawn)
  {
    vault.intermediateKey, vault.intermediateCaId := None, None;
    vault.rootKey, vault.rootUnlockedAt := None, None;
    var _ := vault.LoadIntermediate(cfg, db, secrets, drawn);
  }

  /** Whatever a user, a job or an administrator calls does to the objects what the step of that name says. */
  method Perform(cfg: Config, db: Database, vault: KeyVault, secrets: SecretsFile, env: Env, op: Op)
    requires CasStored(db.cas, db.certs)
    modifies db, vault, secrets
    ensures State(db.View(), vault.View(), secrets.key) ==
            Step(cfg, State(old(db.View()), old(vault.View()), old(secrets.key)), env, op)
  {
    hide CasStored, CaState.InitRoot, CaState.InitIntermediate, CaState.LoadIntermediate, CaState.UnlockRoot;
    hide Issue, Renew, Revoke, Submit, Approve, Reject, RefreshCrls, NotifyFirst, FileAfterLoad, Restart;
    match op
    case InitRootOp(root) => var _ := CaServices.InitRoot(cfg, db, vault, root, env.now);
    case InitIntermediateOp(intermediate) =>
      var _ := CaServices.InitIntermediate(cfg, db, vault, secrets, intermediate, env.now);
    case UnlockOp(passphrase) => var _ := vault.UnlockRoot(cfg, db, passphrase, env.now);
    case LockOp => vault.LockRoot();
    case RelockOp => vault.CheckRootAutoRelock(cfg, env.now);
    case IssueOp(args) => var _ := IssueCertificate(db, vault, env, args);
    case RenewOp(predecessor, args) => var _ := RenewCertificate(db, vault, env, predecessor, args);
    case RevokeOp(certId, reason, actor) => var _ := RevokeCertificate(db, vault, env, certId, reason, actor);
    case SubmitOp(csr, profileCode, requestedBy) => var _ := SubmitRequest(db, env, csr, profileCode, requestedBy);
    case ApproveOp(requestId, reviewer, validityDays, draws) =>
      var _ := ApproveRequest(db, vault, env, requestId, reviewer, validityDays, draws);
    case RejectOp(requestId, reviewer, rejection) => var _ := RejectRequest(db, env, requestId, reviewer, rejection);
    case RefreshOp => RefreshAllCrls(db, vault, env.now);
    case NotifyOp(warningDays, delivered) => CheckExpiringCerts(db, env, warningDays, delivered);
    case MasterKeyOp(drawn) => var _ := secrets.LoadOrCreateMasterKey(cfg, drawn);
    case RestartOp(drawn) => Start(cfg, db, vault, secrets, drawn);
  }
}
