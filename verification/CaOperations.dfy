/** When the CA's calls succeed, and what a certificate issued on request contains. */
module CaOperations {
  import opened Wrappers
  import opened Numerals
  import opened Crypto
  import opened X509
  import opened CertPolicy
  import opened CaState
  import opened CaInvariant
  import opened CaMachine
  import opened CaHistory
  import opened CaTheorems

  // ----- Setting up -----

  /** Why a root cannot be created. */
  predicate RootRefused(st: State, root: RootArgs, error: CaError)
  {
    match error
    case RootAlreadyExists => st.db.cas != []
    case PassphraseTooShort => st.db.cas == [] && |root.passphrase| < 12
    case _ => false
  }

  /** Why an intermediate cannot be created. */
  predicate IntermediateRefused(st: State, error: CaError)
  {
    match error
    case RootNotInitialized => st.db.cas == []
    case RootLocked => st.db.cas != [] && st.vault.rootKey.None?
    case IntermediateAlreadyExists => |st.db.cas| > 1 && st.vault.rootKey.Some?
    case _ => false
  }

  /**
   In every run: a root can be created exactly while there is no CA row, the intermediate exactly while
   there is only the root and its key is in memory; and the new CA publishes its first list at once.
   */
  lemma SetupExactly(
      cfg: Config, keyFile: Option<MasterKey>, events: seq<Event>, root: RootArgs, intermediate: IntermediateArgs,
      now: int)
    ensures
      var st := Run(cfg, keyFile, events);
      var (withRoot, r) := InitRoot(cfg, st, root, now);
      && (r.Ok? <==> st.db.cas == [] && |root.passphrase| >= 12)
      && (r.Err? ==> withRoot == st && RootRefused(st, root, r.error))
      && (r.Ok? ==>
            && r.value == 1 == |withRoot.db.cas| && withRoot.vault.rootKey.Some?
            && ServedCrl(withRoot.db.crls, 1).Some? && RootAsAsked(withRoot.db.cas[0], root, now))
    ensures
      var st := Run(cfg, keyFile, events);
      var (withBoth, r) := InitIntermediate(cfg, st, intermediate, now);
      && (r.Ok? <==> |st.db.cas| == 1 && st.vault.rootKey.Some?)
      && (r.Err? ==> withBoth == st && IntermediateRefused(st, r.error))
      && (r.Ok? ==>
            && r.value == 2 == |withBoth.db.cas| && withBoth.vault.intermediateKey.Some?
            && ServedCrl(withBoth.db.crls, 2).Some? && IntermediateAsAsked(withBoth.db.cas[1], intermediate, now))
  {
    var st := Run(cfg, keyFile, events);
    RunOk(cfg, keyFile, events);
    hide Run, RootAsAsked, IntermediateAsAsked;
    RootSetup(cfg, st, root, now);
    IntermediateSetup(cfg, st, intermediate, now);
  }

  // ----- What a CA certificate contains -----

  /** Organization, if there is one, and common name. */
  predicate Names(subject: Name, commonName: string, organization: Option<string>)
  {
    if organization.Some? && |organization.value| > 0
    then subject == [OrganizationName(organization.value), CommonName(commonName)]
    else subject == [CommonName(commonName)]
  }

  predicate CaAsAsked(row: CaRow, commonName: string, organization: Option<string>, keyId: nat, serial: nat, now: int)
  {
    && row.name == commonName && Names(row.subject, commonName, organization)
    && row.status == CaActive && row.certificate.Some? && row.privateKey.Some?
    && var c := row.certificate.value.content;
       && c.subject == row.subject && c.serial == serial && c.notBefore == now - 86400
       && c.publicKey == c.subjectKeyId && c.publicKey.id == keyId
       && c.ca && c.keyUsage == {"key_cert_sign", "crl_sign"} && c.extendedKeyUsage == [] && c.sans == []
       && c.aiaCaId == 1 && c.crlCaId == 1
  }

  /** A self-signed certificate of an RSA key of 4096 bits for ten years. */
  predicate RootAsAsked(row: CaRow, root: RootArgs, now: int)
  {
    && CaAsAsked(row, root.commonName, root.organization, root.keyId, root.serial, now)
    && row.kind == RootCa && row.parent == None
    && var c := row.certificate.value.content;
       && c.issuer == c.subject && c.authorityKeyId == c.publicKey && c.pathLength == None
       && c.publicKey.kind == Rsa(4096) && c.notAfter == now + 3653 * 86400
  }

  /** A certificate of an RSA key of 3072 bits for five years that certifies leaves only. */
  predicate IntermediateAsAsked(row: CaRow, args: IntermediateArgs, now: int)
  {
    && CaAsAsked(row, args.commonName, args.organization, args.keyId, args.serial, now)
    && row.kind == IntermediateCa && row.parent == Some(1)
    && var c := row.certificate.value.content;
       c.pathLength == Some(0) && c.publicKey.kind == Rsa(3072) && c.notAfter == now + 1827 * 86400
  }

  lemma RootContents(cfg: Config, args: RootArgs, now: int)
    ensures RootAsAsked(RootRow(cfg, args, 1, now), args, now)
  {
  }

  lemma IntermediateContents(cfg: Config, st: State, args: IntermediateArgs, masterKey: MasterKey, now: int)
    requires RunningOk(cfg, st) && IntermediateError(st) == None
    ensures IntermediateAsAsked(IntermediateRow(st, args, masterKey, 2, now), args, now)
  {
    hide CertsOk, RevocationsOk, CrlsOk, RequestsOk;
    Lookups(MasterKeyOf(cfg, st), st.db.cas);
  }

  lemma RefreshKeepsRows(db: Db, vault: Vault, caId: nat, now: int, i: nat)
    requires i < |db.cas|
    ensures
      var cas := RefreshCrl(db, vault, caId, now).cas;
      i < |cas| && cas[i] == db.cas[i].(crlNumber := cas[i].crlNumber)
  {
  }

  lemma Publishes(db: Db, vault: Vault, caId: nat, now: int)
    requires CanPublish(db, vault, caId)
    ensures ServedCrl(RefreshCrl(db, vault, caId, now).crls, caId).Some?
    ensures |RefreshCrl(db, vault, caId, now).cas| == |db.cas|
  {
  }

  lemma RootSetup(cfg: Config, st: State, args: RootArgs, now: int)
    requires RunningOk(cfg, st)
    ensures
      var (st', r) := InitRoot(cfg, st, args, now);
      && (r.Ok? <==> st.db.cas == [] && |args.passphrase| >= 12)
      && (r.Err? ==> st' == st && RootRefused(st, args, r.error))
      && (r.Ok? ==>
            && r.value == 1 == |st'.db.cas| && st'.vault.rootKey.Some?
            && ServedCrl(st'.db.crls, 1).Some? && RootAsAsked(st'.db.cas[0], args, now))
  {
    hide CertsOk, RevocationsOk, CrlsOk, RequestsOk, RefreshCrl, UnlockRoot, ServedCrl, RootRow;
    Lookups(MasterKeyOf(cfg, st), st.db.cas);
    if RootError(st.db, args) == None {
      var db := CommitRoot(cfg, st.db, args, now);
      var vault := UnlockRoot(cfg, db, st.vault, args.passphrase, now).0;
      RootUnlocks(cfg, MasterKeyOf(cfg, st), st.db, st.vault, args, now);
      Publishes(db, vault, 1, now);
      RootContents(cfg, args, now);
      RefreshKeepsRows(db, vault, 1, now, 0);
    }
  }

  lemma IntermediateSetup(cfg: Config, st: State, args: IntermediateArgs, now: int)
    requires RunningOk(cfg, st)
    ensures
      var (st', r) := InitIntermediate(cfg, st, args, now);
      && (r.Ok? <==> |st.db.cas| == 1 && st.vault.rootKey.Some?)
      && (r.Err? ==> st' == st && IntermediateRefused(st, r.error))
      && (r.Ok? ==>
            && r.value == 2 == |st'.db.cas| && st'.vault.intermediateKey.Some?
            && ServedCrl(st'.db.crls, 2).Some? && IntermediateAsAsked(st'.db.cas[1], args, now))
  {
    hide CertsOk, RevocationsOk, CrlsOk, RequestsOk, RefreshCrl, CanPublish, Load, ServedCrl, IntermediateRow;
    hide IntermediateAsAsked;
    Lookups(MasterKeyOf(cfg, st), st.db.cas);
    if IntermediateError(st) == None {
      var ready := EnsureMasterKey(cfg, st, args.masterKey);
      EnsureKeeps(cfg, st, args.masterKey);
      LoadedAfterCommit(cfg, ready, args, now);
      var loaded := Load(cfg, CommitIntermediate(cfg, ready, args, now));
      Publishes(loaded.db, loaded.vault, 2, now);
      IntermediateContents(cfg, ready, args, MasterKeyOf(cfg, ready).value, now);
      RefreshKeepsRows(loaded.db, loaded.vault, 2, now, 1);
      RowCounted(loaded.db.cas[1], RefreshCrl(loaded.db, loaded.vault, 2, now).cas[1], args, now);
    }
  }

  lemma RowCounted(row: CaRow, row': CaRow, args: IntermediateArgs, now: int)
    requires IntermediateAsAsked(row, args, now) && row' == row.(crlNumber := row'.crlNumber)
    ensures IntermediateAsAsked(row', args, now)
  {
  }

  // ----- Unlocking -----

  /** Event m stores the root, even if the process dies later in the call. */
  predicate RootStoredAt(cfg: Config, keyFile: Option<MasterKey>, events: seq<Event>, m: nat)
  {
    && m < |events| && events[m].op.InitRootOp?
    && Run(cfg, keyFile, events[..m]).db.cas == [] && Run(cfg, keyFile, events[..m + 1]).db.cas != []
  }

  /**
   At every later moment of every run, through locks, restarts and crashes, the root unlocks with
   exactly the passphrase it was created with, whatever the configured derivation parameters have become,
   and what is then in memory is the certified root key.
   */
  lemma UnlocksExactly(
      cfg: Config, keyFile: Option<MasterKey>, events: seq<Event>, m: nat, later: Config, passphrase: string, now: int)
    requires m < |events| && events[m].op.InitRootOp?
    ensures
      var st := Run(cfg, keyFile, events);
      var (vault, ok) := UnlockRoot(later, st.db, st.vault, passphrase, now);
      RootStoredAt(cfg, keyFile, events, m) ==>
        && (ok <==> passphrase == events[m].op.root.passphrase)
        && (!ok ==> vault == st.vault)
        && (ok ==>
              && st.db.cas != [] && st.db.cas[0].certificate.Some? && vault.rootUnlockedAt == Some(now)
              && vault.rootKey.Some? && Pub(vault.rootKey.value) == st.db.cas[0].certificate.value.content.publicKey)
  {
    hide After, RunningOk, UnlockRoot, RootRow, RowEvolves, RequestsGrow;
    if RootStoredAt(cfg, keyFile, events, m) {
      var e, before, st := events[m], Run(cfg, keyFile, events[..m]), Run(cfg, keyFile, events);
      RunOk(cfg, keyFile, events[..m]);
      RunOk(cfg, keyFile, events);
      NothingUndone(cfg, keyFile, events, m + 1);
      assert events[..m + 1][..m] == events[..m];
      assert Run(cfg, keyFile, events[..m + 1]) == After(cfg, before, e);
      hide Run;
      StoredRoot(cfg, before, e);
      UnlockOf(cfg, st, e.op.root, e.env.now, later, passphrase, now);
    }
  }

  lemma StoredRoot(cfg: Config, st: State, e: Event)
    requires RunningOk(cfg, st) && st.db.cas == [] && e.op.InitRootOp? && After(cfg, st, e).db.cas != []
    ensures
      var row := After(cfg, st, e).db.cas[0];
      row == RootRow(cfg, e.op.root, 1, e.env.now).(crlNumber := row.crlNumber)
  {
    hide DbOk, VaultOk, RootRow, UnlockRoot, LoadIntermediate;
  }

  lemma UnlockOf(cfg: Config, st: State, args: RootArgs, then_: int, later: Config, passphrase: string, now: int)
    requires RunningOk(cfg, st) && st.db.cas != []
    requires st.db.cas[0] == RootRow(cfg, args, 1, then_).(crlNumber := st.db.cas[0].crlNumber)
    ensures
      var (vault, ok) := UnlockRoot(later, st.db, st.vault, passphrase, now);
      && (ok <==> passphrase == args.passphrase)
      && (!ok ==> vault == st.vault)
      && (ok ==>
            && st.db.cas[0].certificate.Some? && vault.rootUnlockedAt == Some(now)
            && vault.rootKey.Some? && Pub(vault.rootKey.value) == st.db.cas[0].certificate.value.content.publicKey)
  {
  }

  // ----- Issuing -----

  function LifetimeOf(args: IssueArgs, profile: Profile): int
  {
    if args.validityDays.Some? then args.validityDays.value else profile.maxValidityDays
  }

  /**
   The checks made before a serial is drawn: the intermediate is there, an active profile of the asked
   code accepts the signing request, and the asked lifetime is within its limit.
   */
  predicate RequestPasses(db: Db, env: Env, args: IssueArgs)
  {
    var profile := FindProfile(env.profiles, args.profileCode);
    && |db.cas| == 2 && profile.Some? && Acceptable(args.csr, profile.value)
    && (args.validityDays.Some? ==> 0 < args.validityDays.value <= profile.value.maxValidityDays)
  }

  /** The library can write a certificate of this profile and lifetime. */
  predicate ProfileWritable(args: IssueArgs, profile: Profile)
  {
    && LifetimeOf(args, profile) >= -1
    && (forall n :: n in profile.keyUsage ==> KnownUsage(n))
    && ("encipher_only" in profile.keyUsage || "decipher_only" in profile.keyUsage ==>
          "key_agreement" in profile.keyUsage)
    && (forall n :: n in profile.extendedKeyUsage ==> KnownPurpose(n))
  }

  predicate Writable(args: IssueArgs, profile: Profile, draw: Token)
  {
    ProfileWritable(args, profile) && HexValue(draw) > 0
  }

  predicate ChecksPass(db: Db, env: Env, args: IssueArgs)
  {
    RequestPasses(db, env, args) && ProfileWritable(args, FindProfile(env.profiles, args.profileCode).value)
  }

  predicate InUse(certs: seq<CertRow>, draw: Token)
  {
    exists row :: row in certs && row.serialHex == draw
  }

  /** The user and the token named in the call are stored. */
  predicate Known(env: Env, args: IssueArgs)
  {
    && (args.requestedBy.Some? ==> args.requestedBy.value in env.users)
    && (args.apiToken.Some? ==> args.apiToken.value in env.tokens)
  }

  /** Draw k cannot be written, and all draws before it can, but the database refuses their rows. */
  predicate RaisesAt(db: Db, env: Env, args: IssueArgs, profile: Profile, k: nat)
  {
    && k < 5 && !Writable(args, profile, args.draws[k])
    && forall j :: 0 <= j < k ==>
         Writable(args, profile, args.draws[j]) && (InUse(db.certs, args.draws[j]) || !Known(env, args))
  }

  /** What is known before a call that makes it end in an exception of the library. */
  predicate Raises(db: Db, env: Env, args: IssueArgs)
  {
    && RequestPasses(db, env, args)
    && exists k :: 0 <= k < 5 && RaisesAt(db, env, args, FindProfile(env.profiles, args.profileCode).value, k)
  }

  /** The first draw not in use yet; none so far is zero. */
  predicate FirstDraw(certs: seq<CertRow>, draws: Draws, k: nat)
  {
    && k < 5
    && (forall j :: 0 <= j <= k ==> HexValue(draws[j]) > 0)
    && (forall j :: 0 <= j < k ==> InUse(certs, draws[j]))
    && !InUse(certs, draws[k])
  }

  /** What is known before a call that makes it succeed. */
  predicate Issuable(db: Db, env: Env, args: IssueArgs)
  {
    && ChecksPass(db, env, args) && Known(env, args)
    && exists k :: 0 <= k < 5 && FirstDraw(db.certs, args.draws, k)
  }

  /** What is known before a call that makes it fail with this error. */
  ghost predicate FailsWith(db: Db, env: Env, args: IssueArgs, error: IssueError)
  {
    var profile := FindProfile(env.profiles, args.profileCode);
    match error
    case IntermediateNotReady => |db.cas| < 2
    case UnknownProfile => |db.cas| == 2 && profile.None?
    case ValidityExceedsProfileMax =>
      && |db.cas| == 2 && profile.Some? && Acceptable(args.csr, profile.value)
      && args.validityDays.Some? && !(1 <= args.validityDays.value <= profile.value.maxValidityDays)
    case SerialAllocationFailed =>
      && ChecksPass(db, env, args)
      && forall j :: 0 <= j < 5 ==>
           HexValue(args.draws[j]) > 0 && (InUse(db.certs, args.draws[j]) || !Known(env, args))
    case Uncaught => Raises(db, env, args)
    case PredecessorNotFound => false
    case _ =>
      && |db.cas| == 2 && profile.Some? && !Acceptable(args.csr, profile.value)
      && ComplainsOf(args.csr, profile.value, error)
  }

  /** The row follows the request and an active profile of the asked code. */
  predicate AsAsked(row: CertRow, args: IssueArgs, profile: Profile, now: int)
  {
    && profile.isActive && profile.code == args.profileCode == row.profileCode
    && args.csr.Readable? && row.csr == args.csr && row.status == Valid && row.expiryNotifiedAt == None
    && row.requestedBy == args.requestedBy && row.issuedVia == args.issuedVia && row.apiToken == args.apiToken
    && var csr, c := args.csr.csr, row.certificate.content;
       && c.subject == row.subject == csr.subject && c.publicKey == c.subjectKeyId == csr.publicKey
       && c.sans == csr.sans && Printed(row.sans, csr.sans) && c.serial == HexValue(row.serialHex)
       && !c.ca && c.pathLength == None
       && c.keyUsage == (set n | n in profile.keyUsage) && c.extendedKeyUsage == profile.extendedKeyUsage
       && c.notBefore == now - 86400
       && c.notAfter ==
            now + (if args.validityDays.Some? then args.validityDays.value else profile.maxValidityDays) * 86400
       && c.notAfter <= now + profile.maxValidityDays * 86400
  }

  /** The job of an issuance is that of the profile found. */
  lemma JobAccepted(db: Db, vault: Vault, env: Env, args: IssueArgs)
    requires JobFor(db, vault, env, args).Ok?
    ensures
      var job := JobFor(db, vault, env, args).value;
      && FindProfile(env.profiles, args.profileCode) == Some(job.profile)
      && ValidatedCsr(args.csr, job.profile) == Ok((job.csr, job.sanStrings))
      && (args.validityDays.Some? ==> 0 < args.validityDays.value <= job.profile.maxValidityDays)
      && job.days == LifetimeOf(args, job.profile)
  {
    hide ValidatedCsr;
  }

  /** The checks before the serial is drawn, and what each of them reports. */
  lemma JobExactly(cfg: Config, st: State, env: Env, args: IssueArgs)
    requires RunningOk(cfg, st)
    ensures
      var job := JobFor(st.db, st.vault, env, args);
      && (job.Ok? <==> RequestPasses(st.db, env, args))
      && (job.Err? ==>
            && FailsWith(st.db, env, args, job.error)
            && job.error != SerialAllocationFailed && job.error != Uncaught)
  {
    hide ValidatedCsr, FindProfile, RunningOk, Acceptable, ComplainsOf;
    HierarchyOf(cfg, st);
    var profile := FindProfile(env.profiles, args.profileCode);
    if profile.Some? {
      AcceptedExactly(args.csr, profile.value);
      if !Acceptable(args.csr, profile.value) {
        ComplaintKinds(args.csr, profile.value, ValidatedCsr(args.csr, profile.value).error);
      }
    }
  }

  lemma ComplaintKinds(pem: CsrPem, profile: Profile, error: IssueError)
    requires ComplainsOf(pem, profile, error)
    ensures error != IntermediateNotReady && error != UnknownProfile && error != ValidityExceedsProfileMax
    ensures error != SerialAllocationFailed && error != Uncaught && error != PredecessorNotFound
  {
  }

  lemma InUseExact(certs: seq<CertRow>, draw: Token)
    ensures SerialStored(certs, draw) <==> InUse(certs, draw)
  {
    if i :| 0 <= i < |certs| && certs[i].serialHex == draw {
      assert certs[i] in certs;
    }
  }

  lemma UsableDraw(job: Job, args: IssueArgs, draw: Token)
    requires job.days == LifetimeOf(args, job.profile)
    ensures Usable(job, draw) <==> Writable(args, job.profile, draw)
  {
    UsagesExact(job.profile.keyUsage);
    UsagesExact(job.profile.extendedKeyUsage);
    hide KeyUsageOk, ExtendedKeyUsageOk;
  }

  lemma RowAsAsked(job: Job, env: Env, args: IssueArgs, draw: Token)
    requires FindProfile(env.profiles, args.profileCode) == Some(job.profile)
    requires ValidatedCsr(args.csr, job.profile) == Ok((job.csr, job.sanStrings))
    requires job.days == LifetimeOf(args, job.profile)
    requires args.validityDays.Some? ==> 0 < args.validityDays.value <= job.profile.maxValidityDays
    requires LeafFor(job, draw, env.now).Some?
    ensures AsAsked(NewCertRow(job, args, draw, LeafFor(job, draw, env.now).value), args, job.profile, env.now)
  {
    hide KeyUsageOk, ExtendedKeyUsageOk;
    AcceptedExactly(args.csr, job.profile);
    assert job.days * DAY <= job.profile.maxValidityDays * DAY;
  }

  /** What an issuance returns and does to the tables, in terms of what is known before the call. */
  ghost predicate IssuanceOutcome(db: Db, env: Env, args: IssueArgs, db': Db, r: Result<nat, IssueError>)
  {
    && (r.Ok? <==> Issuable(db, env, args))
    && (r.Err? ==> FailsWith(db, env, args, r.error))
    && (r == Err(SerialAllocationFailed) <==> FailsWith(db, env, args, SerialAllocationFailed))
    && (r == Err(Uncaught) <==> FailsWith(db, env, args, Uncaught))
    && (r == Err(ValidityExceedsProfileMax) <==> FailsWith(db, env, args, ValidityExceedsProfileMax))
    && (r.Err? ==> db' == db)
    && (r.Ok? ==>
          && r.value == |db.certs| + 1 == |db'.certs| && db' == db.(certs := db'.certs)
          && db'.certs[..|db.certs|] == db.certs
          && (forall k: nat :: FirstDraw(db.certs, args.draws, k) ==> db'.certs[|db.certs|].serialHex == args.draws[k])
          && exists profile :: profile in env.profiles && AsAsked(db'.certs[|db.certs|], args, profile, env.now))
  }

  /**
   In every run an issuance succeeds exactly when it is issuable: it then adds one certificate, as asked,
   with the first free draw as its serial. It reports serial_allocation_failed exactly when the checks
   pass and the database refuses all five draws, and ends in an exception of the library exactly when it
   comes to a draw that cannot be written; and a failure changes nothing.
   */
  lemma IssuanceExact(cfg: Config, keyFile: Option<MasterKey>, events: seq<Event>, env: Env, args: IssueArgs)
    ensures
      var st := Run(cfg, keyFile, events);
      var (db', r) := Issue(st.db, st.vault, env, args);
      IssuanceOutcome(st.db, env, args, db', r)
  {
    hide Run;
    RunOk(cfg, keyFile, events);
    IssuanceOf(cfg, Run(cfg, keyFile, events), env, args);
  }

  lemma IssuanceOf(cfg: Config, st: State, env: Env, args: IssueArgs)
    requires RunningOk(cfg, st)
    ensures
      var (db', r) := Issue(st.db, st.vault, env, args);
      IssuanceOutcome(st.db, env, args, db', r)
  {
    hide RunningOk, RequestPasses, LeafFor, NewCertRow, SerialStored, InUse, AsAsked, Usable, Writable;
    hide FirstDraw, RaisesAt, FirstFree, RaisesFrom, ComplainsOf, ProfileWritable;
    JobExactly(cfg, st, env, args);
    LateErrors(st.db, env, args);
    if JobFor(st.db, st.vault, env, args).Ok? {
      var job := JobFor(st.db, st.vault, env, args).value;
      JobAccepted(st.db, st.vault, env, args);
      AllocationExact(st.db, st.vault, env, args);
      OnlyLateErrors(st.db, st.vault, env, args);
      hide JobFor, Issue, FailsWith;
      DrawsMean(st.db, env, args, job);
      if Issue(st.db, st.vault, env, args).1.Ok? {
        forall k: nat | FirstFree(st.db, args, job, k)
          ensures
            var row := Issue(st.db, st.vault, env, args).0.certs[|st.db.certs|];
            row.serialHex == args.draws[k] && AsAsked(row, args, job.profile, env.now)
        {
          RowAsAsked(job, env, args, args.draws[k]);
          RowSerial(job, env, args, args.draws[k]);
        }
      }
    }
  }

  /** The errors that are reported only once the request has passed. */
  lemma LateErrors(db: Db, env: Env, args: IssueArgs)
    ensures FailsWith(db, env, args, SerialAllocationFailed) <==>
              && ChecksPass(db, env, args)
              && forall j :: 0 <= j < 5 ==>
                   HexValue(args.draws[j]) > 0 && (InUse(db.certs, args.draws[j]) || !Known(env, args))
    ensures FailsWith(db, env, args, Uncaught) <==> Raises(db, env, args)
    ensures FailsWith(db, env, args, ValidityExceedsProfileMax) ==> !RequestPasses(db, env, args)
  {
    hide Acceptable, ProfileWritable, Raises, InUse;
  }

  lemma OnlyLateErrors(db: Db, vault: Vault, env: Env, args: IssueArgs)
    requires JobFor(db, vault, env, args).Ok?
    ensures
      var r := Issue(db, vault, env, args).1;
      r.Err? ==> r.error == SerialAllocationFailed || r.error == Uncaught
  {
    hide JobFor, Attempts;
    AttemptErrors(db, env, args, JobFor(db, vault, env, args).value, 0);
  }

  lemma {:induction false} AttemptErrors(db: Db, env: Env, args: IssueArgs, job: Job, i: nat)
    requires i <= MAX_SERIAL_ALLOCATION_ATTEMPTS
    ensures
      var r := Attempts(db, env, args, job, i).1;
      r.Err? ==> r.error == SerialAllocationFailed || r.error == Uncaught
    decreases MAX_SERIAL_ALLOCATION_ATTEMPTS - i
  {
    hide LeafFor, Refused, NewCertRow;
    if i < MAX_SERIAL_ALLOCATION_ATTEMPTS {
      AttemptErrors(db, env, args, job, i + 1);
    }
  }

  lemma RowSerial(job: Job, env: Env, args: IssueArgs, draw: Token)
    requires LeafFor(job, draw, env.now).Some?
    ensures NewCertRow(job, args, draw, LeafFor(job, draw, env.now).value).serialHex == draw
  {
  }

  /** What the attempts do with the draws, in terms of the profile and the request. */
  lemma DrawsMean(db: Db, env: Env, args: IssueArgs, job: Job)
    requires job.days == LifetimeOf(args, job.profile)
    ensures ReferencesExist(env, args) <==> Known(env, args)
    ensures
      forall j :: 0 <= j < 5 ==>
        && (Usable(job, args.draws[j]) <==> ProfileWritable(args, job.profile) && HexValue(args.draws[j]) > 0)
        && (SerialStored(db.certs, args.draws[j]) <==> InUse(db.certs, args.draws[j]))
    ensures
      forall k: nat :: FirstFree(db, args, job, k) <==>
          ProfileWritable(args, job.profile) && FirstDraw(db.certs, args.draws, k)
    ensures RaisesFrom(db, env, args, job, 0) <==> exists k: nat :: RaisesAt(db, env, args, job.profile, k)
    ensures forall k: nat :: FirstDraw(db.certs, args.draws, k) ==> k < 5
    ensures forall k: nat :: RaisesAt(db, env, args, job.profile, k) ==> k < 5
  {
    hide Usable, ProfileWritable, SerialStored, HexValue, InUse;
    forall j | 0 <= j < 5
      ensures Usable(job, args.draws[j]) <==> Writable(args, job.profile, args.draws[j])
      ensures SerialStored(db.certs, args.draws[j]) <==> InUse(db.certs, args.draws[j])
    {
      UsableDraw(job, args, args.draws[j]);
      InUseExact(db.certs, args.draws[j]);
    }
    forall k: nat | FirstFree(db, args, job, k)
      ensures ProfileWritable(args, job.profile)
    {
      assert Usable(job, args.draws[k]);
    }
    forall k: nat
      ensures FirstUnusable(db, env, args, job, 0, k) <==> RaisesAt(db, env, args, job.profile, k)
    {
    }
  }
}
