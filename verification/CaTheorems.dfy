/** What users of the CA rely on, proved for every run. */
module CaTheorems {
  import opened Wrappers
  import opened Numerals
  import opened Crypto
  import opened X509
  import opened CertPolicy
  import opened CaState
  import opened CaInvariant
  import opened CaMachine
  import opened CaHistory

  // ----- The hierarchy and its keys -----

  /**
   In every run, crashes and restarts included: at most one root and one intermediate, which the root
   signed; no row is pending; and the process holds exactly the keys certified in those rows.
   */
  lemma Hierarchy(cfg: Config, keyFile: Option<MasterKey>, events: seq<Event>)
    ensures
      var st := Run(cfg, keyFile, events);
      && |st.db.cas| <= 2
      && (forall i :: 0 <= i < |st.db.cas| ==>
            && st.db.cas[i].status == CaActive
            && st.db.cas[i].kind == (if i == 0 then RootCa else IntermediateCa)
            && st.db.cas[i].parent == (if i == 0 then None else Some(1))
            && st.db.cas[i].certificate.Some?)
      && GetActiveIntermediate(st.db.cas) == st.vault.intermediateCaId
      && (st.vault.intermediateCaId.Some? ==>
            && HasId(st.db.cas, st.vault.intermediateCaId.value)
            && st.vault.intermediateKey.Some?
            && Pub(st.vault.intermediateKey.value) ==
               st.db.cas[st.vault.intermediateCaId.value - 1].certificate.value.content.publicKey)
      && (st.vault.intermediateKey.Some? <==> |st.db.cas| == 2)
      && (st.vault.rootKey.Some? <==> st.vault.rootUnlockedAt.Some?)
      && (st.vault.rootKey.Some? ==>
            |st.db.cas| >= 1 && Pub(st.vault.rootKey.value) == st.db.cas[0].certificate.value.content.publicKey)
  {
    hide Run, RunningOk;
    RunOk(cfg, keyFile, events);
    var st := Run(cfg, keyFile, events);
    HierarchyOf(cfg, st);
  }

  /** A valid certificate has no revocation row. */
  lemma NotYetRevoked(cfg: Config, st: State, certId: nat)
    requires RunningOk(cfg, st) && HasId(st.db.certs, certId) && st.db.certs[certId - 1].status == Valid
    ensures forall r :: r in st.db.revocations ==> r.certId != certId
  {
  }

  lemma HierarchyOf(cfg: Config, st: State)
    requires RunningOk(cfg, st)
    ensures |st.db.cas| <= 2
    ensures forall i :: 0 <= i < |st.db.cas| ==>
              && st.db.cas[i].status == CaActive
              && st.db.cas[i].kind == (if i == 0 then RootCa else IntermediateCa)
              && st.db.cas[i].parent == (if i == 0 then None else Some(1))
              && CaRowOk(st.db.cas[i])
    ensures GetActiveIntermediate(st.db.cas) == st.vault.intermediateCaId
    ensures VaultOk(st.db.cas, st.vault)
  {
  }

  /** Once there is a master key it is the same at every later moment. */
  lemma {:induction false} MasterKeyStays(cfg: Config, keyFile: Option<MasterKey>, events: seq<Event>, n: nat)
    requires n <= |events|
    ensures
      var before := MasterKeyOf(cfg, Run(cfg, keyFile, events[..n]));
      before.Some? ==> MasterKeyOf(cfg, Run(cfg, keyFile, events)) == before
    decreases |events|
  {
    if n == |events| {
      assert events[..n] == events;
    } else {
      hide After;
      var init := events[..|events| - 1];
      assert init[..n] == events[..n];
      MasterKeyStays(cfg, keyFile, init, n);
      if MasterKeyOf(cfg, Run(cfg, keyFile, init)).Some? {
        KeyFileAfter(cfg, Run(cfg, keyFile, init), events[|events| - 1]);
      }
    }
  }

  /**
   The stored intermediate key is the certified one, and it opens under the environment's key if that is
   set, which then leaves the file as it was found, and under the file's key otherwise.
   */
  lemma MasterKeyInForce(cfg: Config, keyFile: Option<MasterKey>, events: seq<Event>)
    ensures
      var st := Run(cfg, keyFile, events);
      var inForce := if cfg.masterKeyEnv.Some? then cfg.masterKeyEnv else st.keyFile;
      && (cfg.masterKeyEnv.Some? ==> st.keyFile == keyFile)
      && (keyFile.Some? ==> st.keyFile == keyFile)
      && (|st.db.cas| == 2 ==>
            && inForce.Some? && st.db.cas[1].privateKey.Some? && st.db.cas[1].certificate.Some?
            && var key := UnwrapWithMasterKey(st.db.cas[1].privateKey.value, inForce.value, CaAad(2));
               key.Some? && Pub(key.value) == st.db.cas[1].certificate.value.content.publicKey)
  {
    hide Run;
    RunOk(cfg, keyFile, events);
    FileKept(cfg, keyFile, events);
    if |Run(cfg, keyFile, events).db.cas| == 2 {
      KeyInForce(cfg, Run(cfg, keyFile, events));
    }
  }

  lemma KeyInForce(cfg: Config, st: State)
    requires RunningOk(cfg, st) && |st.db.cas| == 2
    ensures st.db.cas[1].privateKey.Some? && st.db.cas[1].certificate.Some?
    ensures
      var inForce := if cfg.masterKeyEnv.Some? then cfg.masterKeyEnv else st.keyFile;
      && inForce.Some?
      && var key := UnwrapWithMasterKey(st.db.cas[1].privateKey.value, inForce.value, CaAad(2));
         key.Some? && Pub(key.value) == st.db.cas[1].certificate.value.content.publicKey
  {
    hide CertsOk, RevocationsOk, CrlsOk, RequestsOk, VaultOk;
  }

  lemma {:induction false} FileKept(cfg: Config, keyFile: Option<MasterKey>, events: seq<Event>)
    ensures cfg.masterKeyEnv.Some? || keyFile.Some? ==> Run(cfg, keyFile, events).keyFile == keyFile
    decreases |events|
  {
    if events != [] {
      hide After;
      var init, last := events[..|events| - 1], events[|events| - 1];
      FileKept(cfg, keyFile, init);
      if cfg.masterKeyEnv.Some? || keyFile.Some? {
        KeyFileSame(cfg, Run(cfg, keyFile, init), last);
      }
    }
  }

  lemma KeyFileSame(cfg: Config, st: State, e: Event)
    requires MasterKeyOf(cfg, st).Some?
    ensures After(cfg, st, e).keyFile == st.keyFile
  {
    hide Issue, Step, Partial;
    KeyFileStep(cfg, st, e.env, e.op);
    if e.crash.Some? {
      KeyFilePartial(cfg, st, e.env, e.op, e.crash.value.commits);
    }
  }

  lemma KeyFileAfter(cfg: Config, st: State, e: Event)
    requires MasterKeyOf(cfg, st).Some?
    ensures MasterKeyOf(cfg, After(cfg, st, e)) == MasterKeyOf(cfg, st)
  {
    KeyFileStep(cfg, st, e.env, e.op);
    if e.crash.Some? {
      KeyFilePartial(cfg, st, e.env, e.op, e.crash.value.commits);
    }
  }

  lemma KeyFileStep(cfg: Config, st: State, env: Env, op: Op)
    requires MasterKeyOf(cfg, st).Some?
    ensures Step(cfg, st, env, op).keyFile == st.keyFile
  {
  }

  lemma KeyFilePartial(cfg: Config, st: State, env: Env, op: Op, k: nat)
    requires MasterKeyOf(cfg, st).Some?
    ensures Partial(cfg, st, env, op, k).keyFile == st.keyFile
  {
    hide Step, Issue, RefreshCrls, RootRow, IntermediateRow, Revoke;
    KeyFileStep(cfg, st, env, op);
  }

  // ----- Chains -----

  /**
   Every issued certificate's chain is leaf, intermediate, root, and passes path validation under the root:
   in particular each is signed with the key certified in the next, by the name in it.
   */
  lemma ChainsValidate(cfg: Config, keyFile: Option<MasterKey>, events: seq<Event>, i: nat)
    requires i < |Run(cfg, keyFile, events).db.certs|
    ensures
      var db := Run(cfg, keyFile, events).db;
      && |db.cas| == 2 && db.cas[0].certificate.Some? && db.cas[1].certificate.Some?
      && BuildChain(db, db.certs[i]) ==
         [db.certs[i].certificate, db.cas[1].certificate.value, db.cas[0].certificate.value]
      && ChainValid(BuildChain(db, db.certs[i]))
      && SignedUnder(db.certs[i].certificate, db.cas[1].certificate.value)
      && SignedUnder(db.cas[1].certificate.value, db.cas[0].certificate.value)
      && SignedUnder(db.cas[0].certificate.value, db.cas[0].certificate.value)
      && !db.certs[i].certificate.content.ca && db.cas[1].certificate.value.content.pathLength == Some(0)
      && db.cas[0].certificate.value.content.pathLength == None
  {
    hide Run, RunningOk, SignedUnder;
    RunOk(cfg, keyFile, events);
    ChainOf(cfg, Run(cfg, keyFile, events), i);
    SignaturesOf(cfg, Run(cfg, keyFile, events), i);
  }

  /** The certificate is signed, as it stands, with the key certified in the issuer's certificate. */
  predicate SignedUnder(c: Certificate, issuer: Certificate)
  {
    && c.signature.content == c.content && Pub(c.signature.key) == issuer.content.publicKey
    && c.content.issuer == issuer.content.subject
    && issuer.content.ca && issuer.content.keyUsage == {"key_cert_sign", "crl_sign"}
  }

  lemma SignaturesOf(cfg: Config, st: State, i: nat)
    requires RunningOk(cfg, st) && i < |st.db.certs| && |st.db.cas| == 2
    ensures st.db.cas[0].certificate.Some? && st.db.cas[1].certificate.Some?
    ensures SignedUnder(st.db.certs[i].certificate, st.db.cas[1].certificate.value)
    ensures SignedUnder(st.db.cas[1].certificate.value, st.db.cas[0].certificate.value)
    ensures SignedUnder(st.db.cas[0].certificate.value, st.db.cas[0].certificate.value)
    ensures !st.db.certs[i].certificate.content.ca
    ensures st.db.cas[1].certificate.value.content.pathLength == Some(0)
    ensures st.db.cas[0].certificate.value.content.pathLength == None
  {
    LeafFacts(cfg, st, i);
    hide CertsOk, RevocationsOk, CrlsOk, RequestsOk, VaultOk;
  }

  lemma ChainOf(cfg: Config, st: State, i: nat)
    requires RunningOk(cfg, st) && i < |st.db.certs|
    ensures
      && |st.db.cas| == 2 && st.db.cas[0].certificate.Some? && st.db.cas[1].certificate.Some?
      && BuildChain(st.db, st.db.certs[i]) ==
         [st.db.certs[i].certificate, st.db.cas[1].certificate.value, st.db.cas[0].certificate.value]
      && ChainValid(BuildChain(st.db, st.db.certs[i]))
  {
    hide CertsOk, RevocationsOk, CrlsOk, RequestsOk, VaultOk, PathValid;
    LeafAt(MasterKeyOf(cfg, st), st.db, i);
    Lookups(MasterKeyOf(cfg, st), st.db.cas);
    var leaf, intermediate, root :=
        st.db.certs[i].certificate, st.db.cas[1].certificate.value, st.db.cas[0].certificate.value;
    var anchor := PathState(root.content.subject, root.content.publicKey, 2);
    TwoStepPath(anchor, intermediate, leaf);
    assert [leaf, intermediate, root][..2] == [leaf, intermediate];
    ReversedPair(leaf, intermediate);
  }

  lemma ReversedPair<T>(a: T, b: T)
    ensures Reversed([a, b]) == [b, a]
  {
    assert [a, b][1..] == [b];
    assert [b][1..] == [];
    assert Reversed<T>([]) == [];
    assert Reversed([b]) == [b];
  }

  lemma TwoStepPath(st: PathState, ca: Certificate, leaf: Certificate)
    requires CertificateOk(st, ca) && CaCertificateOk(ca) && st.maxPathLength > 0
    requires CertificateOk(PathState(ca.content.subject, ca.content.publicKey, 0), leaf)
    ensures PathValid(st, [ca, leaf])
  {
  }

  // ----- Serial numbers -----

  /** Serials are positive, below 2 to the 128, and distinct as numbers. */
  lemma SerialsDistinct(cfg: Config, keyFile: Option<MasterKey>, events: seq<Event>, i: nat, j: nat)
    requires i < |Run(cfg, keyFile, events).db.certs| && j < |Run(cfg, keyFile, events).db.certs|
    ensures
      var certs := Run(cfg, keyFile, events).db.certs;
      && 0 < certs[i].certificate.content.serial < TWO_TO_128
      && (certs[i].certificate.content.serial == certs[j].certificate.content.serial <==> i == j)
  {
    hide Run, RunningOk;
    RunOk(cfg, keyFile, events);
    SerialsOf(cfg, Run(cfg, keyFile, events), i, j);
  }

  lemma SerialsOf(cfg: Config, st: State, i: nat, j: nat)
    requires RunningOk(cfg, st) && i < |st.db.certs| && j < |st.db.certs|
    ensures 0 < st.db.certs[i].certificate.content.serial < TWO_TO_128
    ensures st.db.certs[i].certificate.content.serial == HexValue(st.db.certs[i].serialHex)
    ensures st.db.certs[j].certificate.content.serial == HexValue(st.db.certs[j].serialHex)
    ensures HexValue(st.db.certs[i].serialHex) == HexValue(st.db.certs[j].serialHex) <==> i == j
  {
    hide LeafOk, RevocationsOk, CrlsOk, RequestsOk, VaultOk, CasOk;
    LeafSerial(cfg, st, i);
    LeafSerial(cfg, st, j);
    TokenBelow(st.db.certs[i].serialHex);
    HexInjective(st.db.certs[i].serialHex, st.db.certs[j].serialHex);
  }

  lemma LeafSerial(cfg: Config, st: State, i: nat)
    requires RunningOk(cfg, st) && i < |st.db.certs|
    ensures st.db.certs[i].certificate.content.serial == HexValue(st.db.certs[i].serialHex) > 0
  {
  }

  /** The i-th draw yields a certificate the library accepts. */
  predicate Usable(job: Job, draw: Token)
  {
    && KeyUsageOk(job.profile.keyUsage) && ExtendedKeyUsageOk(job.profile.extendedKeyUsage)
    && job.days >= -1 && HexValue(draw) > 0
  }

  lemma UsableExact(job: Job, draw: Token, now: int)
    ensures LeafFor(job, draw, now).Some? <==> Usable(job, draw)
  {
  }

  /** The first usable and unused draw, with only used ones before it. */
  predicate FirstFree(db: Db, args: IssueArgs, job: Job, k: nat)
  {
    && k < MAX_SERIAL_ALLOCATION_ATTEMPTS
    && (forall j :: 0 <= j <= k ==> Usable(job, args.draws[j]))
    && (forall j :: 0 <= j < k ==> SerialStored(db.certs, args.draws[j]))
    && !SerialStored(db.certs, args.draws[k])
  }

  lemma {:induction false} AttemptsFail(db: Db, env: Env, args: IssueArgs, job: Job, i: nat)
    requires i <= MAX_SERIAL_ALLOCATION_ATTEMPTS
    ensures
      Attempts(db, env, args, job, i).1 == Err(SerialAllocationFailed) <==>
      forall j :: i <= j < MAX_SERIAL_ALLOCATION_ATTEMPTS ==>
        Usable(job, args.draws[j]) && Refused(db, env, args, args.draws[j])
    decreases MAX_SERIAL_ALLOCATION_ATTEMPTS - i
  {
    hide LeafFor, Usable, Refused, NewCertRow;
    if i < MAX_SERIAL_ALLOCATION_ATTEMPTS {
      UsableExact(job, args.draws[i], env.now);
      AttemptsFail(db, env, args, job, i + 1);
    }
  }

  /** The i-th draw gives no certificate, and the database refuses the rows of all draws before it. */
  predicate FirstUnusable(db: Db, env: Env, args: IssueArgs, job: Job, i: nat, k: nat)
  {
    && i <= k < MAX_SERIAL_ALLOCATION_ATTEMPTS && !Usable(job, args.draws[k])
    && forall j :: i <= j < k ==> Usable(job, args.draws[j]) && Refused(db, env, args, args.draws[j])
  }

  ghost predicate RaisesFrom(db: Db, env: Env, args: IssueArgs, job: Job, i: nat)
  {
    exists k: nat :: FirstUnusable(db, env, args, job, i, k)
  }

  lemma RaisesNext(db: Db, env: Env, args: IssueArgs, job: Job, i: nat)
    requires i < MAX_SERIAL_ALLOCATION_ATTEMPTS
    ensures
      RaisesFrom(db, env, args, job, i) <==>
        || !Usable(job, args.draws[i])
        || (Refused(db, env, args, args.draws[i]) && RaisesFrom(db, env, args, job, i + 1))
  {
    hide Usable, Refused;
    if k: nat :| FirstUnusable(db, env, args, job, i, k) {
      assert k > i ==> FirstUnusable(db, env, args, job, i + 1, k) && Refused(db, env, args, args.draws[i]);
    }
    if !Usable(job, args.draws[i]) {
      assert FirstUnusable(db, env, args, job, i, i);
    } else if Refused(db, env, args, args.draws[i]) && RaisesFrom(db, env, args, job, i + 1) {
      var next := i + 1;
      var k: nat :| FirstUnusable(db, env, args, job, next, k);
      assert FirstUnusable(db, env, args, job, i, k);
    }
  }

  lemma {:induction false} AttemptsRaise(db: Db, env: Env, args: IssueArgs, job: Job, i: nat)
    requires i <= MAX_SERIAL_ALLOCATION_ATTEMPTS
    ensures Attempts(db, env, args, job, i).1 == Err(Uncaught) <==> RaisesFrom(db, env, args, job, i)
    decreases MAX_SERIAL_ALLOCATION_ATTEMPTS - i
  {
    hide LeafFor, Usable, Refused, NewCertRow;
    if i < MAX_SERIAL_ALLOCATION_ATTEMPTS {
      UsableExact(job, args.draws[i], env.now);
      AttemptsRaise(db, env, args, job, i + 1);
      RaisesNext(db, env, args, job, i);
      hide RaisesFrom;
    }
  }

  lemma {:induction false} AttemptsPick(db: Db, env: Env, args: IssueArgs, job: Job, i: nat, k: nat)
    requires i <= k && FirstFree(db, args, job, k) && ReferencesExist(env, args)
    ensures LeafFor(job, args.draws[k], env.now).Some?
    ensures Attempts(db, env, args, job, i) ==
            (db.(certs := db.certs
                 + [NewCertRow(job, args, args.draws[k], LeafFor(job, args.draws[k], env.now).value)]),
             Ok(|db.certs| + 1))
    decreases MAX_SERIAL_ALLOCATION_ATTEMPTS - i
  {
    hide LeafFor, Usable, NewCertRow, SerialStored;
    UsableExact(job, args.draws[i], env.now);
    if i < k {
      AttemptsPick(db, env, args, job, i + 1, k);
    }
  }

  /** An issuance that succeeds took a first free draw. */
  lemma {:induction false} AttemptsOk(db: Db, env: Env, args: IssueArgs, job: Job, i: nat)
    requires i <= MAX_SERIAL_ALLOCATION_ATTEMPTS && Attempts(db, env, args, job, i).1.Ok?
    requires forall j :: 0 <= j < i ==> Usable(job, args.draws[j]) && SerialStored(db.certs, args.draws[j])
    ensures ReferencesExist(env, args) && exists k: nat :: FirstFree(db, args, job, k)
    decreases MAX_SERIAL_ALLOCATION_ATTEMPTS - i
  {
    hide LeafFor, Usable, NewCertRow, SerialStored;
    UsableExact(job, args.draws[i], env.now);
    if Refused(db, env, args, args.draws[i]) {
      if ReferencesExist(env, args) {
        AttemptsOk(db, env, args, job, i + 1);
      } else {
        AttemptsRefused(db, env, args, job, i + 1);
      }
    } else {
      assert FirstFree(db, args, job, i);
    }
  }

  lemma {:induction false} AttemptsRefused(db: Db, env: Env, args: IssueArgs, job: Job, i: nat)
    requires i <= MAX_SERIAL_ALLOCATION_ATTEMPTS && !ReferencesExist(env, args)
    ensures Attempts(db, env, args, job, i).1.Err?
    decreases MAX_SERIAL_ALLOCATION_ATTEMPTS - i
  {
    if i < MAX_SERIAL_ALLOCATION_ATTEMPTS {
      AttemptsRefused(db, env, args, job, i + 1);
    }
  }

  /** The attempts of one issuance whose checks have passed. */
  lemma AllocationExact(db: Db, vault: Vault, env: Env, args: IssueArgs)
    requires JobFor(db, vault, env, args).Ok?
    ensures
      var job := JobFor(db, vault, env, args).value;
      var (db', r) := Issue(db, vault, env, args);
      && (r.Ok? <==> ReferencesExist(env, args) && exists k: nat :: FirstFree(db, args, job, k))
      && (r == Err(SerialAllocationFailed) <==>
            forall j :: 0 <= j < MAX_SERIAL_ALLOCATION_ATTEMPTS ==>
              && Usable(job, args.draws[j])
              && (SerialStored(db.certs, args.draws[j]) || !ReferencesExist(env, args)))
      && (r == Err(Uncaught) <==> RaisesFrom(db, env, args, job, 0))
      && (r.Err? ==> db' == db)
      && (forall k: nat :: r.Ok? && FirstFree(db, args, job, k) ==>
            && LeafFor(job, args.draws[k], env.now).Some?
            && r.value == |db.certs| + 1
            && db' == db.(certs :=
                          db.certs + [NewCertRow(job, args, args.draws[k],
                                                 LeafFor(job, args.draws[k], env.now).value)]))
  {
    hide JobFor, LeafFor, Usable, NewCertRow, SerialStored, FirstFree, RaisesFrom;
    var job := JobFor(db, vault, env, args).value;
    AttemptsFail(db, env, args, job, 0);
    AttemptsRaise(db, env, args, job, 0);
    AttemptsShape(db, env, args, job, 0);
    if Attempts(db, env, args, job, 0).1.Ok? {
      AttemptsOk(db, env, args, job, 0);
    }
    if ReferencesExist(env, args) {
      forall k: nat | FirstFree(db, args, job, k)
        ensures
          && k < MAX_SERIAL_ALLOCATION_ATTEMPTS
          && LeafFor(job, args.draws[k], env.now).Some?
          && Attempts(db, env, args, job, 0) ==
             (db.(certs := db.certs
                  + [NewCertRow(job, args, args.draws[k], LeafFor(job, args.draws[k], env.now).value)]),
              Ok(|db.certs| + 1))
      {
        FirstFreeBound(db, args, job, k);
        AttemptsPick(db, env, args, job, 0, k);
      }
    }
  }

  lemma FirstFreeBound(db: Db, args: IssueArgs, job: Job, k: nat)
    requires FirstFree(db, args, job, k)
    ensures k < MAX_SERIAL_ALLOCATION_ATTEMPTS
  {
  }

  // ----- Revocation lists -----

  lemma {:induction false} CrlsOfMembers(crls: seq<CrlRow>, caId: nat)
    ensures forall row :: row in CrlsOf(crls, caId) <==> row in crls && row.caId == caId
  {
    if crls != [] {
      CrlsOfMembers(crls[..|crls| - 1], caId);
      assert crls == crls[..|crls| - 1] + [crls[|crls| - 1]];
    }
  }

  /** The list with the highest number is the one stored last. */
  lemma ServedIsLast(crls: seq<CrlRow>, caId: nat)
    requires
      var lists := CrlsOf(crls, caId);
      forall p :: 0 <= p < |lists| ==> lists[p].number == p + 1
    ensures
      var lists := CrlsOf(crls, caId);
      ServedCrl(crls, caId) == if lists == [] then None else Some(lists[|lists| - 1])
  {
    var lists := CrlsOf(crls, caId);
    CrlsOfMembers(crls, caId);
    if lists != [] {
      var last := lists[|lists| - 1];
      assert last in lists;
      var served := ServedCrl(crls, caId).value;
      assert served in lists;
      var p :| 0 <= p < |lists| && lists[p] == served;
    }
  }

  /**
   For each CA the numbers are 1, 2, 3, ... in the order of publication, the served list is the last
   one published, and an entry on one list is on every later one unchanged. A list of the root is valid
   for 180 days, one of the intermediate for 30.
   */
  lemma ListsNumbered(cfg: Config, keyFile: Option<MasterKey>, events: seq<Event>, caId: nat)
    ensures
      var db := Run(cfg, keyFile, events).db;
      HasId(db.cas, caId) ==>
        var lists := CrlsOf(db.crls, caId);
        && |lists| == db.cas[caId - 1].crlNumber
        && (forall p :: 0 <= p < |lists| ==>
              && lists[p].number == lists[p].crl.content.number == p + 1
              && lists[p].thisUpdate == lists[p].crl.content.thisUpdate
              && lists[p].nextUpdate == lists[p].crl.content.nextUpdate
              && lists[p].nextUpdate == lists[p].thisUpdate + (if caId == 1 then 180 else 30) * 86400)
        && ServedCrl(db.crls, caId) == (if lists == [] then None else Some(lists[|lists| - 1]))
        && (forall p, q, e :: 0 <= p < q < |lists| && e in lists[p].crl.content.entries ==>
            e in lists[q].crl.content.entries)
  {
    hide Run, RunningOk;
    RunOk(cfg, keyFile, events);
    var st := Run(cfg, keyFile, events);
    if HasId(st.db.cas, caId) {
      ListsOf(cfg, st, caId);
      HierarchyOf(cfg, st);
      var lists := CrlsOf(st.db.crls, caId);
      assert forall p :: 0 <= p < |lists| ==>
          CrlRowOk(lists[p], st.db.cas[caId - 1], caId, p, Entries(st.db.certs, st.db.revocations, caId));
    }
  }

  /** A list carries the time of the call that published it. */
  lemma ListsDated(cfg: Config, keyFile: Option<MasterKey>, events: seq<Event>, m: nat, k: nat)
    requires m < |events|
    ensures
      var before, after := Run(cfg, keyFile, events[..m]).db.crls, Run(cfg, keyFile, events[..m + 1]).db.crls;
      before <= after && (|before| <= k < |after| ==> after[k].thisUpdate == events[m].env.now)
  {
    hide RunningOk, After, RowEvolves, CasGrow, RequestsGrow;
    assert events[..m + 1][..m] == events[..m];
    var st := Run(cfg, keyFile, events[..m]);
    assert Run(cfg, keyFile, events[..m + 1]) == After(cfg, st, events[m]);
    hide Run;
    RunOk(cfg, keyFile, events[..m]);
    AfterPublishes(cfg, st, events[m]);
    AfterEvolves(cfg, st, events[m]);
  }

  lemma ListsOf(cfg: Config, st: State, caId: nat)
    requires RunningOk(cfg, st) && HasId(st.db.cas, caId)
    ensures
      var lists := CrlsOf(st.db.crls, caId);
      && CaRowOk(st.db.cas[caId - 1])
      && CrlsOkFor(st.db.cas[caId - 1], caId, lists, Entries(st.db.certs, st.db.revocations, caId))
      && ServedCrl(st.db.crls, caId) == (if lists == [] then None else Some(lists[|lists| - 1]))
  {
    hide CertsOk, RevocationsOk, RequestsOk, VaultOk, CasOk;
    var lists := CrlsOf(st.db.crls, caId);
    assert CaRowOk(st.db.cas[caId - 1])
        && CrlsOkFor(st.db.cas[caId - 1], caId, lists, Entries(st.db.certs, st.db.revocations, caId));
    assert forall p :: 0 <= p < |lists| ==>
        CrlRowOk(lists[p], st.db.cas[caId - 1], caId, p, Entries(st.db.certs, st.db.revocations, caId));
    ServedIsLast(st.db.crls, caId);
  }

  /** The revocation behind an entry: the triple of serial, date and the reason code of the stored name. */
  predicate IsTriple(db: Db, r: RevocationRow, caId: nat, e: CrlEntry)
  {
    && HasId(db.certs, r.certId) && db.certs[r.certId - 1].caId == caId
    && e.serial == db.certs[r.certId - 1].certificate.content.serial
    && e.date == r.revokedAt && FlagName(e.reason) == r.reason
  }

  lemma {:induction false} EntriesExact(certs: seq<CertRow>, revocations: seq<RevocationRow>, caId: nat, e: CrlEntry)
    ensures e in Entries(certs, revocations, caId) <==>
              exists r :: r in revocations && OnCrl(certs, r, caId) && e == EntryOf(certs, r)
  {
    if revocations != [] {
      var init, last := revocations[..|revocations| - 1], revocations[|revocations| - 1];
      assert revocations == init + [last];
      EntriesExact(certs, init, caId, e);
    }
  }

  /**
   Current entries are the triples of all revocations of this CA's certificates; the fallback
   reason is never used.
   */
  lemma EntriesAreTriples(cfg: Config, st: State, caId: nat, e: CrlEntry)
    requires RunningOk(cfg, st)
    ensures e in Entries(st.db.certs, st.db.revocations, caId) <==>
              exists r :: r in st.db.revocations && IsTriple(st.db, r, caId, e)
  {
    hide CertsOk, CrlsOk, RequestsOk, VaultOk, CasOk;
    EntriesExact(st.db.certs, st.db.revocations, caId, e);
    forall r | r in st.db.revocations
      ensures OnCrl(st.db.certs, r, caId) && e == EntryOf(st.db.certs, r) <==> IsTriple(st.db, r, caId, e)
    {
      RevocationAt(cfg, st, r);
      LeafSerial(cfg, st, r.certId - 1);
      ReasonFlagsExact(r.reason);
      FlagNameInjective(e.reason, REASON_FLAGS[r.reason]);
    }
  }

  lemma RevocationAt(cfg: Config, st: State, r: RevocationRow)
    requires RunningOk(cfg, st) && r in st.db.revocations
    ensures HasId(st.db.certs, r.certId) && r.reason in REASON_FLAGS && st.db.certs[r.certId - 1].status == Revoked
  {
  }

  lemma ServedListOf(cfg: Config, st: State, caId: nat, e: CrlEntry)
    requires RunningOk(cfg, st) && HasId(st.db.cas, caId) && FreshFor(st.db, caId)
    ensures ServedCrl(st.db.crls, caId).Some?
    ensures e in ServedCrl(st.db.crls, caId).value.crl.content.entries <==>
              exists r :: r in st.db.revocations && IsTriple(st.db, r, caId, e)
  {
    hide RunningOk;
    ListsOf(cfg, st, caId);
    EntriesAreTriples(cfg, st, caId, e);
    var lists := CrlsOf(st.db.crls, caId);
    assert CrlRowOk(lists[|lists| - 1], st.db.cas[caId - 1], caId, |lists| - 1,
                    Entries(st.db.certs, st.db.revocations, caId));
  }

  /** A served list shows nothing but the triples of stored revocations, no serial twice. */
  lemma ServedListSubset(cfg: Config, keyFile: Option<MasterKey>, events: seq<Event>, caId: nat, e: CrlEntry)
    ensures
      var db := Run(cfg, keyFile, events).db;
      ServedCrl(db.crls, caId).Some? ==>
        && DistinctSerials(ServedCrl(db.crls, caId).value.crl.content.entries)
        && (e in ServedCrl(db.crls, caId).value.crl.content.entries ==>
              exists r :: r in db.revocations && IsTriple(db, r, caId, e))
  {
    hide RunningOk, Run;
    RunOk(cfg, keyFile, events);
    var st := Run(cfg, keyFile, events);
    if ServedCrl(st.db.crls, caId).Some? {
      ServedByCa(cfg, st, caId);
      ListsOf(cfg, st, caId);
      EntriesAreTriples(cfg, st, caId, e);
      var lists := CrlsOf(st.db.crls, caId);
      assert CrlRowOk(lists[|lists| - 1], st.db.cas[caId - 1], caId, |lists| - 1,
                      Entries(st.db.certs, st.db.revocations, caId));
    }
  }

  lemma ServedByCa(cfg: Config, st: State, caId: nat)
    requires RunningOk(cfg, st) && ServedCrl(st.db.crls, caId).Some?
    ensures HasId(st.db.cas, caId)
  {
  }

  lemma {:induction false} RefreshAllFreshens(
      masterKey: Option<MasterKey>, db: Db, vault: Vault, n: nat, now: int, caId: nat)
    requires DbOk(masterKey, db) && VaultOk(db.cas, vault) && n <= |db.cas|
    requires CanPublish(db, vault, caId) && caId <= n && db.cas[caId - 1].status == CaActive
    ensures FreshFor(RefreshCrls(db, vault, n, now), caId)
  {
    hide DbOk, VaultOk, FreshFor, RefreshCrl;
    var before := RefreshCrls(db, vault, n - 1, now);
    RefreshAllKeeps(masterKey, db, vault, n - 1, now);
    RefreshAllGrows(db, vault, n - 1, now);
    if caId < n {
      RefreshAllFreshens(masterKey, db, vault, n - 1, now, caId);
      RefreshElsewhere(before, vault, n, now, caId);
    } else {
      assert CanPublish(before, vault, caId) by {
        assert before.cas[caId - 1] == db.cas[caId - 1].(crlNumber := before.cas[caId - 1].crlNumber);
      }
      RefreshFreshens(before, vault, caId, now);
    }
  }

  lemma RefreshElsewhere(db: Db, vault: Vault, caId: nat, now: int, id: nat)
    requires id != caId && FreshFor(db, id)
    ensures FreshFor(RefreshCrl(db, vault, caId, now), id)
  {
  }

  lemma RunCall(cfg: Config, keyFile: Option<MasterKey>, events: seq<Event>, env: Env, op: Op)
    ensures Run(cfg, keyFile, events + [Event(env, op, None)]) == Step(cfg, Run(cfg, keyFile, events), env, op)
  {
  }

  /** The key of this CA is in memory: that of the intermediate always is. */
  predicate KeyAtHand(st: State, caId: nat)
  {
    HasId(st.db.cas, caId) && (caId == 1 ==> st.vault.rootKey.Some?)
  }

  /** A refresh of the first n CAs brings the list of each of them up to date whose key is there. */
  lemma RefreshRestoresOf(cfg: Config, st: State, n: nat, now: int, caId: nat)
    requires RunningOk(cfg, st) && KeyAtHand(st, caId) && caId <= n <= |st.db.cas|
    ensures
      var db' := RefreshCrls(st.db, st.vault, n, now);
      HasId(db'.cas, caId) && FreshFor(db', caId)
  {
    HierarchyOf(cfg, st);
    hide DbOk, FreshFor, RefreshCrls;
    RefreshAllFreshens(MasterKeyOf(cfg, st), st.db, st.vault, n, now, caId);
  }

  // ----- Following a certificate's CRL pointer -----

  /** A served list behind an issued certificate's pointer is one that a relying party accepts for it. */
  lemma CrlPointerOf(cfg: Config, st: State, i: nat)
    requires RunningOk(cfg, st) && i < |st.db.certs|
    ensures
      var c := st.db.certs[i].certificate;
      var served := ServedCrl(st.db.crls, 2);
      && c.content.crlCaId == 2 && HasId(st.db.cas, 2) && st.db.cas[1].certificate.Some?
      && (served.Some? ==>
            && CrlUsable(served.value.crl, c, st.db.cas[1].certificate.value)
            && served.value.crl.signature.key == c.signature.key)
  {
    hide RunningOk;
    LeafFacts(cfg, st, i);
    ListsOf(cfg, st, 2);
    var lists := CrlsOf(st.db.crls, 2);
    assert lists != [] ==>
        CrlRowOk(lists[|lists| - 1], st.db.cas[1], 2, |lists| - 1, Entries(st.db.certs, st.db.revocations, 2));
  }

  lemma LeafFacts(cfg: Config, st: State, i: nat)
    requires RunningOk(cfg, st) && i < |st.db.certs|
    ensures LeafOk(st.db.certs[i], st.db.cas)
  {
  }

  /** Serials being distinct, an entry with this serial stems from this certificate's own revocation. */
  lemma ListedIffRevoked(cfg: Config, st: State, i: nat, crl: Crl)
    requires RunningOk(cfg, st) && i < |st.db.certs| && LeafOk(st.db.certs[i], st.db.cas)
    requires forall e :: e in crl.content.entries <==> e in Entries(st.db.certs, st.db.revocations, 2)
    ensures Lists(crl, st.db.certs[i].certificate.content.serial) <==> st.db.certs[i].status == Revoked
  {
    hide RunningOk;
    var serial := st.db.certs[i].certificate.content.serial;
    if st.db.certs[i].status == Revoked {
      var r := RevocationOf(cfg, st, i);
      var e := EntryOf(st.db.certs, r);
      EntriesExact(st.db.certs, st.db.revocations, 2, e);
      assert e in crl.content.entries && e.serial == serial;
    }
    if Lists(crl, serial) {
      var e :| e in crl.content.entries && e.serial == serial;
      EntriesExact(st.db.certs, st.db.revocations, 2, e);
      var r :| r in st.db.revocations && OnCrl(st.db.certs, r, 2) && e == EntryOf(st.db.certs, r);
      SerialsOf(cfg, st, i, r.certId - 1);
    }
  }

  lemma RevocationOf(cfg: Config, st: State, i: nat) returns (r: RevocationRow)
    requires RunningOk(cfg, st) && i < |st.db.certs| && st.db.certs[i].status == Revoked
    ensures r in st.db.revocations && r.certId == i + 1
  {
    hide CertsOk, CrlsOk, RequestsOk, VaultOk, CasOk;
    r :| r in st.db.revocations && r.certId == i + 1;
  }

  /** The CA certificates' own pointers lead to the root's list, which lists nothing. */
  lemma CaCrlPointerOf(cfg: Config, st: State, caId: nat)
    requires RunningOk(cfg, st) && HasId(st.db.cas, caId)
    ensures
      var served := ServedCrl(st.db.crls, 1);
      && st.db.cas[caId - 1].certificate.Some? && st.db.cas[0].certificate.Some?
      && st.db.cas[caId - 1].certificate.value.content.crlCaId == 1
      && (served.Some? ==>
            && CrlUsable(served.value.crl, st.db.cas[caId - 1].certificate.value, st.db.cas[0].certificate.value)
            && forall serial: nat :: !Lists(served.value.crl, serial))
  {
    CaSignedByRoot(cfg, st, caId);
    hide RunningOk;
    ListsOf(cfg, st, 1);
    var lists := CrlsOf(st.db.crls, 1);
    assert lists != [] ==>
        CrlRowOk(lists[|lists| - 1], st.db.cas[0], 1, |lists| - 1, Entries(st.db.certs, st.db.revocations, 1));
    NoRootEntries(cfg, st);
  }

  lemma CaSignedByRoot(cfg: Config, st: State, caId: nat)
    requires RunningOk(cfg, st) && HasId(st.db.cas, caId)
    ensures CaRowOk(st.db.cas[0]) && CaRowOk(st.db.cas[caId - 1])
    ensures SignedBy(st.db.cas[caId - 1].certificate.value, KeyIn(st.db.cas[0]))
    ensures st.db.cas[caId - 1].certificate.value.content.issuer == st.db.cas[0].certificate.value.content.subject
  {
  }

  lemma NoRootEntries(cfg: Config, st: State)
    requires RunningOk(cfg, st)
    ensures Entries(st.db.certs, st.db.revocations, 1) == []
  {
    forall r | r in st.db.revocations
      ensures !OnCrl(st.db.certs, r, 1)
    {
      RevocationAt(cfg, st, r);
      LeafFacts(cfg, st, r.certId - 1);
    }
    NoEntries(st.db.certs, st.db.revocations, 1);
  }

  lemma {:induction false} NoEntries(certs: seq<CertRow>, revocations: seq<RevocationRow>, caId: nat)
    requires forall r :: r in revocations ==> !OnCrl(certs, r, caId)
    ensures Entries(certs, revocations, caId) == []
  {
    if revocations != [] {
      assert revocations[|revocations| - 1] in revocations;
      NoEntries(certs, revocations[..|revocations| - 1], caId);
    }
  }

  /** A certificate is REVOKED exactly when it has one revocation row. */
  lemma RevokedExactly(cfg: Config, keyFile: Option<MasterKey>, events: seq<Event>, i: nat)
    requires i < |Run(cfg, keyFile, events).db.certs|
    ensures
      var db := Run(cfg, keyFile, events).db;
      && db.certs[i].status != Expired
      && (db.certs[i].status == Revoked <==> exists k :: 0 <= k < |db.revocations| && db.revocations[k].certId == i + 1)
      && (forall k, l :: 0 <= k < l < |db.revocations| ==> db.revocations[k].certId != db.revocations[l].certId)
  {
    hide Run, RunningOk;
    RunOk(cfg, keyFile, events);
    var st := Run(cfg, keyFile, events);
    LeafFacts(cfg, st, i);
    RevokedExactlyOf(cfg, st, i);
  }

  lemma RevokedExactlyOf(cfg: Config, st: State, i: nat)
    requires RunningOk(cfg, st) && i < |st.db.certs|
    ensures st.db.certs[i].status == Revoked <==>
              exists k :: 0 <= k < |st.db.revocations| && st.db.revocations[k].certId == i + 1
    ensures forall k, l :: 0 <= k < l < |st.db.revocations| ==>
        st.db.revocations[k].certId != st.db.revocations[l].certId
  {
  }
}
