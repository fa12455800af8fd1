/**
 The CA tables, the process memory beside them, and what every service call does to both.

 Rows of these tables are never deleted, so the id SQLite gives a row is its position counted from 1.
 Each call reads the clock once. Profiles, users and API tokens are read only: a call is given the
 tables as they are at that moment.
 */
module CaState {
  import opened Wrappers
  import opened Numerals
  import opened Crypto
  import opened X509
  import opened CertPolicy

  // ----- Rows -----

  datatype CaKind = RootCa | IntermediateCa

  datatype CaStatus = CaPending | CaActive | CaExpired | CaRevoked | CaSuperseded

  datatype CaRow = CaRow(
    kind: CaKind, name: string, subject: Name, parent: Option<nat>, status: CaStatus,
    certificate: Option<Certificate>, privateKey: Option<Wrapped<PrivateKey>>, crlNumber: nat)

  datatype CertStatus = Valid | Revoked | Expired

  datatype Via = Ui | Api

  type Token = s: string | IsToken(s) witness "00000000000000000000000000000000"

  datatype CertRow = CertRow(
    caId: nat, serialHex: Token, profileCode: string, subject: Name, sans: seq<string>, certificate: Certificate,
    csr: CsrPem, status: CertStatus, requestedBy: Option<nat>, issuedVia: Via, apiToken: Option<nat>,
    expiryNotifiedAt: Option<int>)

  datatype RevocationRow = RevocationRow(certId: nat, revokedAt: int, reason: string, revokedBy: Option<nat>)

  datatype CrlRow = CrlRow(caId: nat, number: nat, crl: Crl, thisUpdate: int, nextUpdate: int)

  datatype RequestStatus = RequestPending | Approved | Rejected

  datatype RequestRow = RequestRow(
    csr: CsrPem, profileCode: string, requestedBy: nat, status: RequestStatus, reviewedBy: Option<nat>,
    reviewedAt: Option<int>, rejectionReason: Option<string>, certificateId: Option<nat>)

  datatype Db = Db(
    cas: seq<CaRow>, certs: seq<CertRow>, revocations: seq<RevocationRow>, crls: seq<CrlRow>, requests: seq<RequestRow>)

  datatype Vault = Vault(
    intermediateKey: Option<PrivateKey>, intermediateCaId: Option<nat>,
    rootKey: Option<PrivateKey>, rootUnlockedAt: Option<int>)

  datatype State = State(db: Db, vault: Vault, keyFile: Option<MasterKey>)

  /** Settings, fixed for the life of an installation. */
  datatype Config = Config(masterKeyEnv: Option<MasterKey>, argon2: Argon2, relockSeconds: int)

  datatype Env = Env(profiles: seq<Profile>, users: set<nat>, tokens: set<nat>, now: int)

  const EMPTY_DB := Db([], [], [], [], [])
  const EMPTY_VAULT := Vault(None, None, None, None)

  // ----- Queries -----

  predicate HasId<T>(rows: seq<T>, id: nat)
  {
    1 <= id <= |rows|
  }

  /** The first CA row of a kind, and active if asked for, from position i on. */
  function FirstCa(cas: seq<CaRow>, kind: CaKind, active: bool, i: nat): (r: Option<nat>)
    requires i <= |cas|
    ensures r.Some? ==> i < r.value <= |cas|
    ensures r.Some? ==> cas[r.value - 1].kind == kind && (active ==> cas[r.value - 1].status == CaActive)
    ensures r.None? ==> forall j :: i <= j < |cas| ==> !(cas[j].kind == kind && (active ==> cas[j].status == CaActive))
    decreases |cas| - i
  {
    if i == |cas| then None
    else if cas[i].kind == kind && (active ==> cas[i].status == CaActive) then Some(i + 1)
    else FirstCa(cas, kind, active, i + 1)
  }

  function GetRoot(cas: seq<CaRow>): Option<nat>
  {
    FirstCa(cas, RootCa, false, 0)
  }

  function GetActiveIntermediate(cas: seq<CaRow>): Option<nat>
  {
    FirstCa(cas, IntermediateCa, true, 0)
  }

  function ServedCrl(crls: seq<CrlRow>, caId: nat): (r: Option<CrlRow>)
    ensures r.None? ==> forall row :: row in crls ==> row.caId != caId
    ensures r.Some? ==> r.value in crls && r.value.caId == caId
    ensures r.Some? ==> forall row :: row in crls && row.caId == caId ==> row.number <= r.value.number
  {
    if crls == [] then None
    else
      var best := ServedCrl(crls[..|crls| - 1], caId);
      var last := crls[|crls| - 1];
      assert forall row :: row in crls <==> row in crls[..|crls| - 1] || row == last;
      if last.caId == caId && (best.None? || last.number > best.value.number) then Some(last) else best
  }

  /** Leaf, intermediate and root, as far as they are there. */
  function BuildChain(db: Db, row: CertRow): seq<Certificate>
  {
    var root := GetRoot(db.cas);
    [row.certificate]
    + (if HasId(db.cas, row.caId) && db.cas[row.caId - 1].certificate.Some?
       then [db.cas[row.caId - 1].certificate.value] else [])
    + (if root.Some? && db.cas[root.value - 1].certificate.Some? then [db.cas[root.value - 1].certificate.value]
       else [])
  }

  predicate SerialStored(certs: seq<CertRow>, serialHex: string)
  {
    exists i :: 0 <= i < |certs| && certs[i].serialHex == serialHex
  }

  // ----- Revocation lists -----

  function ReasonOf(reason: string): ReasonFlag
  {
    if reason in REASON_FLAGS then REASON_FLAGS[reason] else Unspecified
  }

  /** The join condition and filter of the query behind a CRL. */
  predicate OnCrl(certs: seq<CertRow>, revocation: RevocationRow, caId: nat)
  {
    && HasId(certs, revocation.certId)
    && certs[revocation.certId - 1].caId == caId
    && certs[revocation.certId - 1].status == Revoked
  }

  function EntryOf(certs: seq<CertRow>, revocation: RevocationRow): CrlEntry
    requires HasId(certs, revocation.certId)
  {
    CrlEntry(HexValue(certs[revocation.certId - 1].serialHex), revocation.revokedAt, ReasonOf(revocation.reason))
  }

  function Entries(certs: seq<CertRow>, revocations: seq<RevocationRow>, caId: nat): seq<CrlEntry>
  {
    if revocations == [] then []
    else
      var last := revocations[|revocations| - 1];
      Entries(certs, revocations[..|revocations| - 1], caId)
      + if OnCrl(certs, last, caId) then [EntryOf(certs, last)] else []
  }

  function IssuerKey(vault: Vault, kind: CaKind): Option<PrivateKey>
  {
    if kind == RootCa then vault.rootKey else vault.intermediateKey
  }

  function CrlDays(kind: CaKind): nat
  {
    if kind == RootCa then ROOT_CRL_DAYS else INTERMEDIATE_CRL_DAYS
  }

  predicate CanPublish(db: Db, vault: Vault, caId: nat)
  {
    && HasId(db.cas, caId)
    && db.cas[caId - 1].certificate.Some?
    && IssuerKey(vault, db.cas[caId - 1].kind).Some?
  }

  function NextCrl(db: Db, vault: Vault, caId: nat, now: int): CrlRow
    requires CanPublish(db, vault, caId)
  {
    var ca := db.cas[caId - 1];
    var next := now + CrlDays(ca.kind) * DAY;
    var content := TbsCrl(ca.certificate.value.content.subject, now, next, ca.crlNumber + 1,
                          Entries(db.certs, db.revocations, caId));
    CrlRow(caId, ca.crlNumber + 1, Sign(IssuerKey(vault, ca.kind).value, content), now, next)
  }

  /** Publishes the next CRL, or leaves everything as it is while the signing key is not there. */
  function RefreshCrl(db: Db, vault: Vault, caId: nat, now: int): Db
  {
    if !CanPublish(db, vault, caId) then db
    else
      var ca := db.cas[caId - 1];
      db.(cas := db.cas[caId - 1 := ca.(crlNumber := ca.crlNumber + 1)],
          crls := db.crls + [NextCrl(db, vault, caId, now)])
  }

  /** Refreshes the active ones among the first n CAs. */
  function RefreshCrls(db: Db, vault: Vault, n: nat, now: int): (db': Db)
    requires n <= |db.cas|
    ensures |db'.cas| == |db.cas|
  {
    if n == 0 then db
    else
      var before := RefreshCrls(db, vault, n - 1, now);
      if db.cas[n - 1].status == CaActive then RefreshCrl(before, vault, n, now) else before
  }

  // ----- Key vault -----

  function UnlockRoot(cfg: Config, db: Db, vault: Vault, passphrase: string, now: int): (Vault, bool)
  {
    var root := GetRoot(db.cas);
    if root.None? || db.cas[root.value - 1].privateKey.None? then (vault, false)
    else
      match UnwrapWithPassphrase(db.cas[root.value - 1].privateKey.value, passphrase, CaAad(root.value), cfg.argon2)
      case None => (vault, false)
      case Some(key) => (vault.(rootKey := Some(key), rootUnlockedAt := Some(now)), true)
  }

  function LockRoot(vault: Vault): Vault
  {
    vault.(rootKey := None, rootUnlockedAt := None)
  }

  function RelockTick(cfg: Config, vault: Vault, now: int): Vault
  {
    if vault.rootUnlockedAt.Some? && now - vault.rootUnlockedAt.value >= cfg.relockSeconds then LockRoot(vault)
    else vault
  }

  predicate NeedsMasterKey(db: Db)
  {
    var ca := GetActiveIntermediate(db.cas);
    ca.Some? && db.cas[ca.value - 1].privateKey.Some?
  }

  /** The vault after loading; a key that does not open raises and leaves the vault alone. */
  function LoadIntermediate(cfg: Config, db: Db, vault: Vault, keyFile: Option<MasterKey>): Vault
  {
    var ca := GetActiveIntermediate(db.cas);
    if !NeedsMasterKey(db) then vault.(intermediateKey := None, intermediateCaId := None)
    else
      var masterKey := CurrentMasterKey(cfg.masterKeyEnv, keyFile);
      if masterKey.None? then vault
      else
        match UnwrapWithMasterKey(db.cas[ca.value - 1].privateKey.value, masterKey.value, CaAad(ca.value))
        case None => vault
        case Some(key) => vault.(intermediateKey := Some(key), intermediateCaId := ca)
  }

  // ----- Setting up the hierarchy -----

  datatype CaError =
    | RootAlreadyExists | PassphraseTooShort | RootNotInitialized | RootLocked | IntermediateAlreadyExists
    | MissingCertificate   // AttributeError

  datatype RootArgs = RootArgs(
    commonName: string, organization: Option<string>, passphrase: string, keyId: nat, serial: nat, salt: nat,
    nonce: nat)

  datatype IntermediateArgs = IntermediateArgs(
    commonName: string, organization: Option<string>, keyId: nat, serial: nat, nonce: nat, masterKey: MasterKey)

  function RootRow(cfg: Config, args: RootArgs, id: nat, now: int): CaRow
  {
    var subject := BuildName(args.commonName, args.organization);
    var key := PrivateKey(Rsa(ROOT_KEY_BITS), args.keyId);
    CaRow(RootCa, args.commonName, subject, None, CaActive,
          Some(BuildRootCertificate(key, subject, id, args.serial, now)),
          Some(WrapWithPassphrase(key, args.passphrase, CaAad(id), args.salt, args.nonce, cfg.argon2)), 0)
  }

  function RootError(db: Db, args: RootArgs): Option<CaError>
  {
    if GetRoot(db.cas).Some? then Some(RootAlreadyExists)
    else if |args.passphrase| < 12 then Some(PassphraseTooShort)
    else None
  }

  function CommitRoot(cfg: Config, db: Db, args: RootArgs, now: int): Db
  {
    db.(cas := db.cas + [RootRow(cfg, args, |db.cas| + 1, now)])
  }

  function InitRoot(cfg: Config, st: State, args: RootArgs, now: int): (State, Result<nat, CaError>)
  {
    match RootError(st.db, args)
    case Some(error) => (st, Err(error))
    case None =>
      var db := CommitRoot(cfg, st.db, args, now);
      var vault := UnlockRoot(cfg, db, st.vault, args.passphrase, now).0;
      (State(RefreshCrl(db, vault, |db.cas|, now), vault, st.keyFile), Ok(|db.cas|))
  }

  function IntermediateError(st: State): Option<CaError>
  {
    var root := GetRoot(st.db.cas);
    if root.None? || st.db.cas[root.value - 1].status != CaActive then Some(RootNotInitialized)
    else if st.vault.rootKey.None? then Some(RootLocked)
    else if GetActiveIntermediate(st.db.cas).Some? then Some(IntermediateAlreadyExists)
    else if st.db.cas[root.value - 1].certificate.None? then Some(MissingCertificate)
    else None
  }

  function IntermediateRow(st: State, args: IntermediateArgs, masterKey: MasterKey, id: nat, now: int): CaRow
    requires IntermediateError(st) == None
  {
    var root := GetRoot(st.db.cas).value;
    var subject := BuildName(args.commonName, args.organization);
    var key := PrivateKey(Rsa(INTERMEDIATE_KEY_BITS), args.keyId);
    CaRow(IntermediateCa, args.commonName, subject, Some(root), CaActive,
          Some(BuildIntermediateCertificate(
                 Pub(key), st.vault.rootKey.value, st.db.cas[root - 1].certificate.value, subject, root, args.serial,
                 now)),
          Some(WrapWithMasterKey(key, masterKey, CaAad(id), args.nonce)), 0)
  }

  function EnsureMasterKey(cfg: Config, st: State, drawn: MasterKey): State
  {
    st.(keyFile := FileAfterLoad(cfg.masterKeyEnv, st.keyFile, drawn))
  }

  function CommitIntermediate(cfg: Config, st: State, args: IntermediateArgs, now: int): State
    requires IntermediateError(st) == None
    requires CurrentMasterKey(cfg.masterKeyEnv, st.keyFile).Some?
  {
    var masterKey := CurrentMasterKey(cfg.masterKeyEnv, st.keyFile).value;
    st.(db := st.db.(cas := st.db.cas + [IntermediateRow(st, args, masterKey, |st.db.cas| + 1, now)]))
  }

  function Load(cfg: Config, st: State): State
  {
    st.(vault := LoadIntermediate(cfg, st.db, st.vault, st.keyFile))
  }

  function InitIntermediate(cfg: Config, st: State, args: IntermediateArgs, now: int): (State, Result<nat, CaError>)
  {
    match IntermediateError(st)
    case Some(error) => (st, Err(error))
    case None =>
      var committed := CommitIntermediate(cfg, EnsureMasterKey(cfg, st, args.masterKey), args, now);
      var loaded := Load(cfg, committed);
      (loaded.(db := RefreshCrl(loaded.db, loaded.vault, |loaded.db.cas|, now)), Ok(|loaded.db.cas|))
  }

  // ----- Issuing -----

  const MAX_SERIAL_ALLOCATION_ATTEMPTS := 5

  type Draws = s: seq<Token>
      | |s| == MAX_SERIAL_ALLOCATION_ATTEMPTS witness seq(5, _ => "00000000000000000000000000000000")

  datatype IssueArgs = IssueArgs(
    csr: CsrPem, profileCode: string, requestedBy: Option<nat>, issuedVia: Via, apiToken: Option<nat>,
    validityDays: Option<int>, draws: Draws)

  /** What one issuance works with once every check has passed. */
  datatype Job = Job(
    key: PrivateKey, caId: nat, issuer: Certificate, profile: Profile, csr: Csr, sanStrings: seq<string>, days: int)

  function JobFor(db: Db, vault: Vault, env: Env, args: IssueArgs): Result<Job, IssueError>
  {
    var ca := GetActiveIntermediate(db.cas);
    if vault.intermediateKey.None? || ca.None? then Err(IntermediateNotReady)
    else
      match FindProfile(env.profiles, args.profileCode)
      case None => Err(UnknownProfile)
      case Some(profile) =>
        match ValidatedCsr(args.csr, profile)
        case Err(error) => Err(error)
        case Ok((csr, strings)) =>
          if args.validityDays.Some? && !(0 < args.validityDays.value <= profile.maxValidityDays)
          then Err(ValidityExceedsProfileMax)
          else if db.cas[ca.value - 1].certificate.None? then Err(Uncaught)
          else
            var days := if args.validityDays.Some? then args.validityDays.value else profile.maxValidityDays;
            Ok(Job(vault.intermediateKey.value, ca.value, db.cas[ca.value - 1].certificate.value, profile, csr,
                   strings, days))
  }

  function LeafFor(job: Job, serialHex: Token, now: int): Option<Certificate>
  {
    BuildLeafCertificate(job.csr, job.key, job.issuer, serialHex, job.days,
                         job.profile.keyUsage, job.profile.extendedKeyUsage, job.caId, now)
  }

  function NewCertRow(job: Job, args: IssueArgs, serialHex: Token, leaf: Certificate): CertRow
  {
    CertRow(job.caId, serialHex, job.profile.code, job.csr.subject, job.sanStrings, leaf, args.csr, Valid,
            args.requestedBy, args.issuedVia, args.apiToken, None)
  }

  /** The referenced user and token exist; otherwise SQLite refuses the row. */
  predicate ReferencesExist(env: Env, args: IssueArgs)
  {
    && (args.requestedBy.Some? ==> args.requestedBy.value in env.users)
    && (args.apiToken.Some? ==> args.apiToken.value in env.tokens)
  }

  /** The database refuses the row: the serial is taken or a reference is missing. */
  predicate Refused(db: Db, env: Env, args: IssueArgs, serialHex: string)
  {
    SerialStored(db.certs, serialHex) || !ReferencesExist(env, args)
  }

  /** The attempts from the i-th draw on. */
  function Attempts(db: Db, env: Env, args: IssueArgs, job: Job, i: nat): (out: (Db, Result<nat, IssueError>))
    requires i <= MAX_SERIAL_ALLOCATION_ATTEMPTS
    ensures out.0 == db.(certs := out.0.certs)
    decreases MAX_SERIAL_ALLOCATION_ATTEMPTS - i
  {
    if i == MAX_SERIAL_ALLOCATION_ATTEMPTS then (db, Err(SerialAllocationFailed))
    else
      match LeafFor(job, args.draws[i], env.now)
      case None => (db, Err(Uncaught))
      case Some(leaf) =>
        if Refused(db, env, args, args.draws[i]) then Attempts(db, env, args, job, i + 1)
        else (db.(certs := db.certs + [NewCertRow(job, args, args.draws[i], leaf)]), Ok(|db.certs| + 1))
  }

  function Issue(db: Db, vault: Vault, env: Env, args: IssueArgs): (out: (Db, Result<nat, IssueError>))
    ensures out.0 == db.(certs := out.0.certs)
  {
    match JobFor(db, vault, env, args)
    case Err(error) => (db, Err(error))
    case Ok(job) => Attempts(db, env, args, job, 0)
  }

  // ----- Revoking and renewing -----

  datatype RevocationError = CertificateNotFound | AlreadyRevoked | InvalidReason | IntegrityError

  predicate UserExists(env: Env, user: Option<nat>)
  {
    user.Some? ==> user.value in env.users
  }

  function RevokeError(db: Db, env: Env, certId: nat, reason: string, actor: Option<nat>): Option<RevocationError>
  {
    if !HasId(db.certs, certId) then Some(CertificateNotFound)
    else if db.certs[certId - 1].status == Revoked then Some(AlreadyRevoked)
    else if reason !in REASON_FLAGS then Some(InvalidReason)
    else if !UserExists(env, actor) || exists r :: r in db.revocations && r.certId == certId then Some(IntegrityError)
    else None
  }

  function WithRevoked(certs: seq<CertRow>, certId: nat): seq<CertRow>
    requires HasId(certs, certId)
  {
    certs[certId - 1 := certs[certId - 1].(status := Revoked)]
  }

  function CommitRevocation(db: Db, certId: nat, reason: string, actor: Option<nat>, now: int): Db
    requires HasId(db.certs, certId)
  {
    db.(certs := WithRevoked(db.certs, certId),
        revocations := db.revocations + [RevocationRow(certId, now, reason, actor)])
  }

  function Revoke(db: Db, vault: Vault, env: Env, certId: nat, reason: string, actor: Option<nat>)
    : (Db, Result<nat, RevocationError>)
  {
    match RevokeError(db, env, certId, reason, actor)
    case Some(error) => (db, Err(error))
    case None =>
      var committed := CommitRevocation(db, certId, reason, actor, env.now);
      (RefreshCrl(committed, vault, db.certs[certId - 1].caId, env.now), Ok(certId))
  }

  /** Issues under the predecessor's profile, then supersedes a predecessor that is still valid. */
  function Renew(db: Db, vault: Vault, env: Env, predecessor: nat, args: IssueArgs)
    : (Db, Result<(nat, bool), IssueError>)
  {
    if !HasId(db.certs, predecessor) then (db, Err(PredecessorNotFound))
    else
      var (issued, r) := Issue(db, vault, env, args.(profileCode := db.certs[predecessor - 1].profileCode));
      match r
      case Err(error) => (issued, Err(error))
      case Ok(id) =>
        if db.certs[predecessor - 1].status != Valid then (issued, Ok((id, false)))
        else
          var (revoked, done) := Revoke(issued, vault, env, predecessor, "superseded", args.requestedBy);
          match done
          case Ok(_) => (revoked, Ok((id, true)))
          case Err(IntegrityError) => (revoked, Err(Uncaught))
          case Err(_) => (revoked, Ok((id, false)))
  }

  // ----- Requests -----

  datatype RequestError =
    | NotFound | NotPending | Forbidden | NotApproved | IssuanceFailed(error: IssueError) | UncaughtError

  function Submit(db: Db, env: Env, csr: CsrPem, profileCode: string, requestedBy: nat): (Db, Result<nat, IssueError>)
  {
    match FindProfile(env.profiles, profileCode)
    case None => (db, Err(UnknownProfile))
    case Some(profile) =>
      match ValidatedCsr(csr, profile)
      case Err(error) => (db, Err(error))
      case Ok(_) =>
        if requestedBy !in env.users then (db, Err(Uncaught))
        else
          var row := RequestRow(csr, profile.code, requestedBy, RequestPending, None, None, None, None);
          (db.(requests := db.requests + [row]), Ok(|db.requests| + 1))
  }

  function PendingError(db: Db, requestId: nat): Option<RequestError>
  {
    if !HasId(db.requests, requestId) then Some(NotFound)
    else if db.requests[requestId - 1].status != RequestPending then Some(NotPending)
    else None
  }

  /** The issuance an approval asks for. */
  function ApprovalArgs(request: RequestRow, validityDays: Option<int>, draws: Draws): IssueArgs
  {
    IssueArgs(request.csr, request.profileCode, Some(request.requestedBy), Ui, None, validityDays, draws)
  }

  function CommitApproval(db: Db, requestId: nat, reviewer: nat, certId: nat, now: int): Db
    requires HasId(db.requests, requestId)
  {
    var row := db.requests[requestId - 1].(
      status := Approved, reviewedBy := Some(reviewer), reviewedAt := Some(now), certificateId := Some(certId));
    db.(requests := db.requests[requestId - 1 := row])
  }

  function Approve(
      db: Db, vault: Vault, env: Env, requestId: nat, reviewer: nat, validityDays: Option<int>, draws: Draws)
    : (Db, Result<nat, RequestError>)
  {
    match PendingError(db, requestId)
    case Some(error) => (db, Err(error))
    case None =>
      var (issued, r) := Issue(db, vault, env, ApprovalArgs(db.requests[requestId - 1], validityDays, draws));
      match r
      case Err(Uncaught) => (issued, Err(UncaughtError))
      case Err(error) => (issued, Err(IssuanceFailed(error)))
      case Ok(certId) =>
        if reviewer !in env.users then (issued, Err(UncaughtError))
        else (CommitApproval(issued, requestId, reviewer, certId, env.now), Ok(requestId))
  }

  function Reject(db: Db, env: Env, requestId: nat, reviewer: nat, reason: string): (Db, Result<nat, RequestError>)
  {
    match PendingError(db, requestId)
    case Some(error) => (db, Err(error))
    case None =>
      if reviewer !in env.users then (db, Err(UncaughtError))
      else
        var row := db.requests[requestId - 1].(
          status := Rejected, reviewedBy := Some(reviewer), reviewedAt := Some(env.now),
          rejectionReason := Some(reason));
        (db.(requests := db.requests[requestId - 1 := row]), Ok(requestId))
  }

  function OwnedCertificate(db: Db, requestId: nat, actor: nat, privileged: bool): Result<nat, RequestError>
  {
    if !HasId(db.requests, requestId) then Err(NotFound)
    else
      var request := db.requests[requestId - 1];
      if request.requestedBy != actor && !privileged then Err(Forbidden)
      else if request.status != Approved || request.certificateId.None? then Err(NotApproved)
      else if !HasId(db.certs, request.certificateId.value) then Err(NotFound)
      else Ok(request.certificateId.value)
  }

  // ----- Expiry notifications -----

  /** The owner of this certificate is to be told in this run. */
  predicate Attempted(row: CertRow, env: Env, warningDays: int)
  {
    && row.status == Valid
    && row.certificate.content.notAfter <= env.now + warningDays * DAY
    && row.expiryNotifiedAt.None?
    && row.requestedBy.Some? && row.requestedBy.value in env.users
  }

  /** `delivered` holds the ids for which a channel succeeds in this run. */
  function Notified(row: CertRow, id: nat, env: Env, warningDays: int, delivered: set<nat>): CertRow
  {
    if Attempted(row, env, warningDays) && id in delivered then row.(expiryNotifiedAt := Some(env.now)) else row
  }

  /** After the run has gone through the first n certificates. */
  function NotifyFirst(certs: seq<CertRow>, n: nat, env: Env, warningDays: int, delivered: set<nat>): (r: seq<CertRow>)
    requires n <= |certs|
    ensures |r| == |certs|
    ensures forall i :: 0 <= i < |certs| ==>
              r[i] == if i < n then Notified(certs[i], i + 1, env, warningDays, delivered) else certs[i]
  {
    seq(|certs|, i requires 0 <= i < |certs| =>
      if i < n then Notified(certs[i], i + 1, env, warningDays, delivered) else certs[i])
  }
}
