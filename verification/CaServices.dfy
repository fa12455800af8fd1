/**
 The services as they run: objects updated in place, loops, and one commit after another. Each method
 is proved to do exactly what its specification in CaState says to the tables and the key vault.

 Rows are built in local variables and become part of a table at the commit.
 */
module CaServices {
  import opened Wrappers
  import opened Crypto
  import opened X509
  import opened CertPolicy
  import opened CaState

  /** The committed tables. */
  class Database {
    var cas: seq<CaRow>
    var certs: seq<CertRow>
    var revocations: seq<RevocationRow>
    var crls: seq<CrlRow>
    var requests: seq<RequestRow>

    function View(): Db
      reads this
    {
      Db(cas, certs, revocations, crls, requests)
    }

    constructor ()
      ensures View() == EMPTY_DB
    {
      cas, certs, revocations, crls, requests := [], [], [], [], [];
    }
  }

  /** The file holding the app-wide master key. */
  class SecretsFile {
    var key: Option<MasterKey>

    constructor (key: Option<MasterKey>)
      ensures this.key == key
    {
      this.key := key;
    }

    method LoadOrCreateMasterKey(cfg: Config, drawn: MasterKey) returns (masterKey: MasterKey)
      modifies this
      ensures cfg.masterKeyEnv.Some? ==> masterKey == cfg.masterKeyEnv.value && key == old(key)
      ensures cfg.masterKeyEnv.None? && old(key).Some? ==> masterKey == old(key).value && key == old(key)
      ensures cfg.masterKeyEnv.None? && old(key).None? ==> masterKey == drawn && key == Some(drawn)
      ensures key == FileAfterLoad(cfg.masterKeyEnv, old(key), drawn)
      ensures CurrentMasterKey(cfg.masterKeyEnv, key) == Some(masterKey)
    {
      if cfg.masterKeyEnv.Some? {
        return cfg.masterKeyEnv.value;
      }
      if key.Some? {
        return key.value;
      }
      key := Some(drawn);
      masterKey := drawn;
    }
  }

  /** The active intermediate's stored key, if there is one, opens with the current master key. */
  predicate Opens(cfg: Config, db: Db, keyFile: Option<MasterKey>)
  {
    NeedsMasterKey(db) ==>
      var ca := GetActiveIntermediate(db.cas).value;
      var masterKey := CurrentMasterKey(cfg.masterKeyEnv, keyFile);
      masterKey.Some? && UnwrapWithMasterKey(db.cas[ca - 1].privateKey.value, masterKey.value, CaAad(ca)).Some?
  }

  /** Decrypted CA keys, in memory only. */
  class KeyVault {
    var intermediateKey: Option<PrivateKey>
    var intermediateCaId: Option<nat>
    var rootKey: Option<PrivateKey>
    var rootUnlockedAt: Option<int>

    function View(): Vault
      reads this
    {
      Vault(intermediateKey, intermediateCaId, rootKey, rootUnlockedAt)
    }

    constructor ()
      ensures View() == EMPTY_VAULT
    {
      intermediateKey, intermediateCaId, rootKey, rootUnlockedAt := None, None, None, None;
    }

    /** False stands for a key that does not open, which raises. */
    method LoadIntermediate(cfg: Config, db: Database, secrets: SecretsFile, drawn: MasterKey) returns (ok: bool)
      modifies this`intermediateKey, this`intermediateCaId, secrets
      ensures secrets.key == if NeedsMasterKey(db.View()) then FileAfterLoad(cfg.masterKeyEnv, old(secrets.key), drawn)
                             else old(secrets.key)
      ensures View() == CaState.LoadIntermediate(cfg, db.View(), old(View()), secrets.key)
      ensures ok <==> Opens(cfg, db.View(), secrets.key)
      ensures !NeedsMasterKey(db.View()) ==> ok && intermediateKey == None && intermediateCaId == None
      ensures ok && NeedsMasterKey(db.View()) ==>
                intermediateKey.Some? && intermediateCaId == GetActiveIntermediate(db.cas)
      ensures !ok ==> View() == old(View())
    {
      var ca := GetActiveIntermediate(db.cas);
      if ca.None? || db.cas[ca.value - 1].privateKey.None? {
        intermediateKey, intermediateCaId := None, None;
        return true;
      }
      var masterKey := secrets.LoadOrCreateMasterKey(cfg, drawn);
      var key := UnwrapWithMasterKey(db.cas[ca.value - 1].privateKey.value, masterKey, CaAad(ca.value));
      if key.None? {
        return false;
      }
      intermediateKey := key;
      intermediateCaId := ca;
      ok := true;
    }

    method UnlockRoot(cfg: Config, db: Database, passphrase: string, now: int) returns (ok: bool)
      modifies this`rootKey, this`rootUnlockedAt
      ensures (View(), ok) == CaState.UnlockRoot(cfg, db.View(), old(View()), passphrase, now)
    {
      var root := GetRoot(db.cas);
      if root.None? || db.cas[root.value - 1].privateKey.None? {
        return false;
      }
      var key := UnwrapWithPassphrase(db.cas[root.value - 1].privateKey.value, passphrase, CaAad(root.value),
                                      cfg.argon2);
      if key.None? {
        return false;
      }
      rootKey := key;
      rootUnlockedAt := Some(now);
      ok := true;
    }

    method LockRoot()
      modifies this`rootKey, this`rootUnlockedAt
      ensures rootKey == None && rootUnlockedAt == None
      ensures View() == CaState.LockRoot(old(View()))
    {
      rootKey := None;
      rootUnlockedAt := None;
    }

    method CheckRootAutoRelock(cfg: Config, now: int)
      modifies this`rootKey, this`rootUnlockedAt
      ensures View() == RelockTick(cfg, old(View()), now)
      ensures if old(rootUnlockedAt).Some? && now - old(rootUnlockedAt).value >= cfg.relockSeconds
              then rootKey == None && rootUnlockedAt == None
              else rootKey == old(rootKey) && rootUnlockedAt == old(rootUnlockedAt)
    {
      if rootUnlockedAt.None? {
        return;
      }
      if now - rootUnlockedAt.value >= cfg.relockSeconds {
        LockRoot();
      }
    }
  }

  /** Every certificate names a stored CA, as the foreign key demands. */
  predicate CasStored(cas: seq<CaRow>, certs: seq<CertRow>)
  {
    forall i :: 0 <= i < |certs| ==> HasId(cas, certs[i].caId)
  }

  // ----- Revocation lists -----

  /** Counts the CA's list number up and collects the entries of its revoked certificates. */
  method BuildCrl(db: Database, caId: nat, key: PrivateKey, issuer: Certificate, now: int) returns (crl: Crl)
    requires HasId(db.cas, caId)
    modifies db`cas
    ensures db.cas == old(db.cas)[caId - 1 := old(db.cas)[caId - 1].(crlNumber := old(db.cas)[caId - 1].crlNumber + 1)]
    ensures
      var next := now + (if old(db.cas)[caId - 1].kind == RootCa then 180 else 30) * 86400;
      crl == Sign(key, TbsCrl(issuer.content.subject, now, next, old(db.cas)[caId - 1].crlNumber + 1,
                              Entries(db.certs, db.revocations, caId)))
  {
    var ca := db.cas[caId - 1];
    ca := ca.(crlNumber := ca.crlNumber + 1);
    db.cas := db.cas[caId - 1 := ca];
    var entries: seq<CrlEntry> := [];
    for k := 0 to |db.revocations|
      modifies {}
      invariant entries == Entries(db.certs, db.revocations[..k], caId)
    {
      assert db.revocations[..k + 1][..k] == db.revocations[..k];
      var revocation := db.revocations[k];
      if OnCrl(db.certs, revocation, caId) {
        entries := entries + [EntryOf(db.certs, revocation)];
      }
    }
    assert db.revocations[..|db.revocations|] == db.revocations;
    crl := Sign(key, TbsCrl(issuer.content.subject, now, now + CrlDays(ca.kind) * DAY, ca.crlNumber, entries));
  }

  method RefreshCrl(db: Database, vault: KeyVault, caId: nat, now: int) returns (published: bool)
    requires HasId(db.cas, caId)
    modifies db
    ensures db.View() == CaState.RefreshCrl(old(db.View()), vault.View(), caId, now)
    ensures published == CanPublish(old(db.View()), vault.View(), caId)
  {
    var ca := db.cas[caId - 1];
    var key := if ca.kind == RootCa then vault.rootKey else vault.intermediateKey;
    if key.None? || ca.certificate.None? {
      return false;
    }
    var crl := BuildCrl(db, caId, key.value, ca.certificate.value, now);
    db.crls := db.crls
        + [CrlRow(caId, db.cas[caId - 1].crlNumber, crl, crl.content.thisUpdate, crl.content.nextUpdate)];
    published := true;
  }

  method RevokeCertificate(db: Database, vault: KeyVault, env: Env, certId: nat, reason: string, actor: Option<nat>)
    returns (r: Result<nat, RevocationError>)
    requires CasStored(db.cas, db.certs)
    modifies db
    ensures (db.View(), r) == Revoke(old(db.View()), vault.View(), env, certId, reason, actor)
  {
    if !HasId(db.certs, certId) {
      return Err(CertificateNotFound);
    }
    var cert := db.certs[certId - 1];
    if cert.status == Revoked {
      return Err(AlreadyRevoked);
    }
    if reason !in REASON_FLAGS {
      return Err(InvalidReason);
    }
    if !UserExists(env, actor) || exists r :: r in db.revocations && r.certId == certId {
      return Err(IntegrityError);
    }
    db.certs := db.certs[certId - 1 := cert.(status := Revoked)];
    db.revocations := db.revocations + [RevocationRow(certId, env.now, reason, actor)];
    var _ := RefreshCrl(db, vault, cert.caId, env.now);
    r := Ok(certId);
  }

  /** The periodic job over all active CAs. */
  method RefreshAllCrls(db: Database, vault: KeyVault, now: int)
    modifies db
    ensures db.View() == RefreshCrls(old(db.View()), vault.View(), |old(db.cas)|, now)
  {
    var cas := db.cas;
    for n := 0 to |cas|
      invariant db.View() == RefreshCrls(old(db.View()), vault.View(), n, now)
    {
      if cas[n].status == CaActive {
        var _ := RefreshCrl(db, vault, n + 1, now);
      }
    }
  }

  // ----- Setting up the hierarchy -----

  method InitRoot(cfg: Config, db: Database, vault: KeyVault, args: RootArgs, now: int)
    returns (r: Result<nat, CaError>)
    modifies db, vault
    ensures forall file ::
              (State(db.View(), vault.View(), file), r) ==
                  CaState.InitRoot(cfg, State(old(db.View()), old(vault.View()), file), args, now)
  {
    hide CaState.RefreshCrl, CaState.UnlockRoot;
    if GetRoot(db.cas).Some? {
      return Err(RootAlreadyExists);
    }
    if |args.passphrase| < 12 {
      return Err(PassphraseTooShort);
    }
    var subject := BuildName(args.commonName, args.organization);
    var row := CaRow(RootCa, args.commonName, subject, None, CaPending, None, None, 0);
    var id := |db.cas| + 1;
    var key := PrivateKey(Rsa(ROOT_KEY_BITS), args.keyId);
    var certificate := BuildRootCertificate(key, subject, id, args.serial, now);
    var wrapped := WrapWithPassphrase(key, args.passphrase, CaAad(id), args.salt, args.nonce, cfg.argon2);
    row := row.(certificate := Some(certificate));
    row := row.(privateKey := Some(wrapped));
    row := row.(status := CaActive);
    db.cas := db.cas + [row];
    var _ := vault.UnlockRoot(cfg, db, args.passphrase, now);
    var _ := RefreshCrl(db, vault, id, now);
    r := Ok(id);
  }

  method InitIntermediate(
      cfg: Config, db: Database, vault: KeyVault, secrets: SecretsFile, args: IntermediateArgs, now: int)
    returns (r: Result<nat, CaError>)
    modifies db, vault, secrets
    ensures (State(db.View(), vault.View(), secrets.key), r) ==
            CaState.InitIntermediate(cfg, State(old(db.View()), old(vault.View()), old(secrets.key)), args, now)
  {
    hide CaState.RefreshCrl, CaState.LoadIntermediate;
    var root := GetRoot(db.cas);
    if root.None? || db.cas[root.value - 1].status != CaActive {
      return Err(RootNotInitialized);
    }
    if vault.rootKey.None? {
      return Err(RootLocked);
    }
    if GetActiveIntermediate(db.cas).Some? {
      return Err(IntermediateAlreadyExists);
    }
    if db.cas[root.value - 1].certificate.None? {
      return Err(MissingCertificate);
    }
    ghost var before := State(db.View(), vault.View(), secrets.key);
    var subject := BuildName(args.commonName, args.organization);
    var row := CaRow(IntermediateCa, args.commonName, subject, Some(root.value), CaPending, None, None, 0);
    var id := |db.cas| + 1;
    var key := PrivateKey(Rsa(INTERMEDIATE_KEY_BITS), args.keyId);
    var certificate := BuildIntermediateCertificate(
      Pub(key), vault.rootKey.value, db.cas[root.value - 1].certificate.value, subject, root.value, args.serial, now);
    var masterKey := secrets.LoadOrCreateMasterKey(cfg, args.masterKey);
    var wrapped := WrapWithMasterKey(key, masterKey, CaAad(id), args.nonce);
    row := row.(certificate := Some(certificate));
    row := row.(privateKey := Some(wrapped));
    row := row.(status := CaActive);
    db.cas := db.cas + [row];
    ghost var committed := CommitIntermediate(cfg, EnsureMasterKey(cfg, before, args.masterKey), args, now);
    assert State(db.View(), vault.View(), secrets.key) == committed;
    var _ := vault.LoadIntermediate(cfg, db, secrets, args.masterKey);
    assert State(db.View(), vault.View(), secrets.key) == Load(cfg, committed);
    var _ := RefreshCrl(db, vault, id, now);
    r := Ok(id);
  }

  // ----- Certificates -----

  /** Draws serials until the database accepts one, at most five times. */
  method IssueCertificate(db: Database, vault: KeyVault, env: Env, args: IssueArgs) returns (r: Result<nat, IssueError>)
    modifies db`certs
    ensures (db.View(), r) == Issue(old(db.View()), vault.View(), env, args)
  {
    hide Acceptable, ComplainsOf, ValidatedCsr, Attempts;
    if vault.intermediateKey.None? {
      return Err(IntermediateNotReady);
    }
    var ca := GetActiveIntermediate(db.cas);
    if ca.None? {
      return Err(IntermediateNotReady);
    }
    var profile := FindProfile(env.profiles, args.profileCode);
    if profile.None? {
      return Err(UnknownProfile);
    }
    var validated := ValidateCsrForProfile(args.csr, profile.value);
    if validated.Err? {
      return Err(validated.error);
    }
    var days := profile.value.maxValidityDays;
    if args.validityDays.Some? {
      if args.validityDays.value <= 0 || args.validityDays.value > profile.value.maxValidityDays {
        return Err(ValidityExceedsProfileMax);
      }
      days := args.validityDays.value;
    }
    if db.cas[ca.value - 1].certificate.None? {
      return Err(Uncaught);
    }
    var job := Job(vault.intermediateKey.value, ca.value, db.cas[ca.value - 1].certificate.value, profile.value,
                   validated.value.0, validated.value.1, days);
    assert JobFor(db.View(), vault.View(), env, args) == Ok(job);
    r := AllocateSerial(db, env, args, job);
  }

  /** The retry loop of an issuance. */
  method AllocateSerial(db: Database, env: Env, args: IssueArgs, job: Job) returns (r: Result<nat, IssueError>)
    modifies db`certs
    ensures (db.View(), r) == Attempts(old(db.View()), env, args, job, 0)
  {
    for attempt := 0 to MAX_SERIAL_ALLOCATION_ATTEMPTS
      invariant db.View() == old(db.View())
      invariant Attempts(old(db.View()), env, args, job, 0) == Attempts(old(db.View()), env, args, job, attempt)
    {
      var serialHex := args.draws[attempt];
      var leaf := LeafFor(job, serialHex, env.now);
      if leaf.None? {
        return Err(Uncaught);
      }
      var row := NewCertRow(job, args, serialHex, leaf.value);
      if !SerialStored(db.certs, serialHex) && ReferencesExist(env, args) {
        db.certs := db.certs + [row];
        return Ok(|db.certs|);
      }
    }
    r := Err(SerialAllocationFailed);
  }

  method RenewCertificate(db: Database, vault: KeyVault, env: Env, predecessor: nat, args: IssueArgs)
    returns (r: Result<(nat, bool), IssueError>)
    requires CasStored(db.cas, db.certs)
    modifies db
    ensures (db.View(), r) == Renew(old(db.View()), vault.View(), env, predecessor, args)
  {
    if !HasId(db.certs, predecessor) {
      return Err(PredecessorNotFound);
    }
    var old_ := db.certs[predecessor - 1];
    var issued := IssueCertificate(db, vault, env, args.(profileCode := old_.profileCode));
    if issued.Err? {
      return Err(issued.error);
    }
    var superseded := false;
    if old_.status == Valid {
      IssuedCasExist(old(db.View()), vault.View(), env, args.(profileCode := old_.profileCode));
      var revoked := RevokeCertificate(db, vault, env, predecessor, "superseded", args.requestedBy);
      if revoked == Err(IntegrityError) {
        return Err(Uncaught);
      }
      superseded := revoked.Ok?;
    }
    r := Ok((issued.value, superseded));
  }

  /** The leaf's chain, built up part by part. */
  method BuildChainPem(db: Database, row: CertRow) returns (chain: seq<Certificate>)
    ensures chain == BuildChain(db.View(), row)
  {
    chain := [row.certificate];
    var root := GetRoot(db.cas);
    if HasId(db.cas, row.caId) && db.cas[row.caId - 1].certificate.Some? {
      chain := chain + [db.cas[row.caId - 1].certificate.value];
    }
    if root.Some? && db.cas[root.value - 1].certificate.Some? {
      chain := chain + [db.cas[root.value - 1].certificate.value];
    }
  }

  // ----- Requests -----

  method SubmitRequest(db: Database, env: Env, csr: CsrPem, profileCode: string, requestedBy: nat)
    returns (r: Result<nat, IssueError>)
    modifies db`requests
    ensures (db.View(), r) == Submit(old(db.View()), env, csr, profileCode, requestedBy)
  {
    var profile := FindProfile(env.profiles, profileCode);
    if profile.None? {
      return Err(UnknownProfile);
    }
    var validated := ValidateCsrForProfile(csr, profile.value);
    if validated.Err? {
      return Err(validated.error);
    }
    if requestedBy !in env.users {
      return Err(Uncaught);
    }
    db.requests := db.requests
      + [RequestRow(csr, profile.value.code, requestedBy, RequestPending, None, None, None, None)];
    r := Ok(|db.requests|);
  }

  method ApproveRequest(
      db: Database, vault: KeyVault, env: Env, requestId: nat, reviewer: nat, validityDays: Option<int>, draws: Draws)
    returns (r: Result<nat, RequestError>)
    modifies db`certs, db`requests
    ensures (db.View(), r) == Approve(old(db.View()), vault.View(), env, requestId, reviewer, validityDays, draws)
  {
    if !HasId(db.requests, requestId) {
      return Err(NotFound);
    }
    var request := db.requests[requestId - 1];
    if request.status != RequestPending {
      return Err(NotPending);
    }
    var issued := IssueCertificate(
      db, vault, env,
      IssueArgs(request.csr, request.profileCode, Some(request.requestedBy), Ui, None, validityDays, draws));
    if issued.Err? {
      return Err(if issued.error == Uncaught then UncaughtError else IssuanceFailed(issued.error));
    }
    if reviewer !in env.users {
      return Err(UncaughtError);
    }
    request := request.(status := Approved);
    request := request.(reviewedBy := Some(reviewer));
    request := request.(reviewedAt := Some(env.now));
    request := request.(certificateId := Some(issued.value));
    db.requests := db.requests[requestId - 1 := request];
    r := Ok(requestId);
  }

  method RejectRequest(db: Database, env: Env, requestId: nat, reviewer: nat, reason: string)
    returns (r: Result<nat, RequestError>)
    modifies db`requests
    ensures (db.View(), r) == Reject(old(db.View()), env, requestId, reviewer, reason)
  {
    if !HasId(db.requests, requestId) {
      return Err(NotFound);
    }
    var request := db.requests[requestId - 1];
    if request.status != RequestPending {
      return Err(NotPending);
    }
    if reviewer !in env.users {
      return Err(UncaughtError);
    }
    request := request.(status := Rejected);
    request := request.(reviewedBy := Some(reviewer));
    request := request.(reviewedAt := Some(env.now));
    request := request.(rejectionReason := Some(reason));
    db.requests := db.requests[requestId - 1 := request];
    r := Ok(requestId);
  }

  // ----- The daily expiry job -----

  method CheckExpiringCerts(db: Database, env: Env, warningDays: int, delivered: set<nat>)
    modifies db`certs
    ensures db.certs == NotifyFirst(old(db.certs), |old(db.certs)|, env, warningDays, delivered)
  {
    var cutoff := env.now + warningDays * DAY;
    var expiring := db.certs;
    for i := 0 to |expiring|
      invariant db.certs == NotifyFirst(expiring, i, env, warningDays, delivered)
    {
      var cert := expiring[i];
      if cert.status == Valid && cert.certificate.content.notAfter <= cutoff {
        if cert.expiryNotifiedAt.None? && cert.requestedBy.Some? && cert.requestedBy.value in env.users {
          if i + 1 in delivered {
            db.certs := db.certs[i := cert.(expiryNotifiedAt := Some(env.now))];
          }
        }
      }
    }
  }

  // ----- References between the tables -----

  /** A new certificate names the active intermediate, so every certificate still names a CA row. */
  lemma IssuedCasExist(db: Db, vault: Vault, env: Env, args: IssueArgs)
    requires CasStored(db.cas, db.certs)
    ensures CasStored(db.cas, Issue(db, vault, env, args).0.certs)
  {
    hide FindProfile, ValidatedCsr, CasStored, Attempts;
    match JobFor(db, vault, env, args)
    case Err(_) =>
    case Ok(job) => AttemptsCasExist(db, env, args, job, 0);
  }

  lemma {:induction false} AttemptsCasExist(db: Db, env: Env, args: IssueArgs, job: Job, n: nat)
    requires n <= MAX_SERIAL_ALLOCATION_ATTEMPTS && HasId(db.cas, job.caId) && CasStored(db.cas, db.certs)
    ensures CasStored(db.cas, Attempts(db, env, args, job, n).0.certs)
    decreases MAX_SERIAL_ALLOCATION_ATTEMPTS - n
  {
    hide LeafFor, Refused;
    if n < MAX_SERIAL_ALLOCATION_ATTEMPTS {
      AttemptsCasExist(db, env, args, job, n + 1);
    }
  }
}
