/**
 What holds of the CA tables after every commit, and of the process memory whenever a call has ended
 or the process has started.
 */
module CaInvariant {
  import opened Wrappers
  import opened Numerals
  import opened Crypto
  import opened X509
  import opened CertPolicy
  import opened CaState

  // ----- CA rows -----

  /** The private key stored in a row, whoever can open it. */
  function KeyIn(row: CaRow): PrivateKey
    requires row.privateKey.Some?
  {
    row.privateKey.value.ciphertext.plaintext
  }

  predicate CaRowOk(row: CaRow)
  {
    && row.status == CaActive && row.certificate.Some? && row.privateKey.Some?
    && var c := row.certificate.value.content;
       && c.subject == row.subject
       && c.publicKey == c.subjectKeyId == Pub(KeyIn(row))
       && c.ca && c.keyUsage == CA_KEY_USAGE
       && c.crlCaId == c.aiaCaId == 1
  }

  predicate SignedBy(c: Certificate, key: PrivateKey)
  {
    c.signature == Signature(key, c.content)
  }

  predicate RootOk(row: CaRow)
  {
    && CaRowOk(row) && row.kind == RootCa && row.parent == None
    && var c := row.certificate.value;
       SignedBy(c, KeyIn(row)) && SelfIssued(c) && c.content.pathLength == None
           && c.content.authorityKeyId == c.content.publicKey
  }

  predicate IntermediateOk(row: CaRow, root: CaRow, masterKey: Option<MasterKey>)
    requires CaRowOk(root)
  {
    && CaRowOk(row) && row.kind == IntermediateCa && row.parent == Some(1)
    && masterKey.Some?
    && UnwrapWithMasterKey(row.privateKey.value, masterKey.value, CaAad(2)) == Some(KeyIn(row))
    && var c := row.certificate.value;
       && SignedBy(c, KeyIn(root))
       && c.content.issuer == root.certificate.value.content.subject
       && c.content.authorityKeyId == root.certificate.value.content.publicKey
       && c.content.pathLength == Some(0)
  }

  /** Nothing, a root, or a root and the intermediate it signed. */
  predicate CasOk(masterKey: Option<MasterKey>, cas: seq<CaRow>)
  {
    && |cas| <= 2
    && (|cas| >= 1 ==> RootOk(cas[0]))
    && (|cas| == 2 ==> IntermediateOk(cas[1], cas[0], masterKey))
  }

  // ----- Certificates and revocations -----

  predicate LeafOk(row: CertRow, cas: seq<CaRow>)
  {
    && |cas| == 2 && CaRowOk(cas[1])
    && row.caId == 2 && row.status != Expired && row.csr.Readable?
    && var c := row.certificate.content;
       var issuer := cas[1].certificate.value.content;
       && SignedBy(row.certificate, KeyIn(cas[1]))
       && c.issuer == issuer.subject && c.authorityKeyId == issuer.publicKey
       && !c.ca && c.crlCaId == c.aiaCaId == 2
       && c.subject == row.csr.csr.subject && c.publicKey == row.csr.csr.publicKey
       && c.serial == HexValue(row.serialHex) && c.serial > 0
  }

  predicate CertsOk(cas: seq<CaRow>, certs: seq<CertRow>)
  {
    && (forall i :: 0 <= i < |certs| ==> LeafOk(certs[i], cas))
    && (forall i, j :: 0 <= i < j < |certs| ==> certs[i].serialHex != certs[j].serialHex)
  }

  function RevokedIds(revocations: seq<RevocationRow>): set<nat>
  {
    set r | r in revocations :: r.certId
  }

  predicate RevocationsOk(certs: seq<CertRow>, revocations: seq<RevocationRow>)
  {
    && (forall k :: 0 <= k < |revocations| ==>
          HasId(certs, revocations[k].certId) && revocations[k].reason in REASON_FLAGS)
    && (forall k, l :: 0 <= k < l < |revocations| ==> revocations[k].certId != revocations[l].certId)
    && (forall i :: 0 <= i < |certs| ==> (certs[i].status == Revoked <==> i + 1 in RevokedIds(revocations)))
  }

  // ----- Revocation lists -----

  /** The lists of one CA in the order they were stored. */
  function CrlsOf(crls: seq<CrlRow>, caId: nat): seq<CrlRow>
  {
    if crls == [] then []
    else CrlsOf(crls[..|crls| - 1], caId) + if crls[|crls| - 1].caId == caId then [crls[|crls| - 1]] else []
  }

  predicate Within(a: seq<CrlEntry>, b: seq<CrlEntry>)
  {
    forall e :: e in a ==> e in b
  }

  predicate DistinctSerials(entries: seq<CrlEntry>)
  {
    forall a, b :: 0 <= a < b < |entries| ==> entries[a].serial != entries[b].serial
  }

  predicate CrlRowOk(row: CrlRow, ca: CaRow, caId: nat, position: nat, current: seq<CrlEntry>)
    requires CaRowOk(ca)
  {
    && row.caId == caId && row.number == position + 1
    && row.crl.signature == Signature(KeyIn(ca), row.crl.content)
    && var c := row.crl.content;
       && c.issuer == ca.certificate.value.content.subject && c.number == row.number
       && c.thisUpdate == row.thisUpdate && c.nextUpdate == row.nextUpdate
       && row.nextUpdate == row.thisUpdate + CrlDays(ca.kind) * DAY
       && Within(c.entries, current) && DistinctSerials(c.entries)
  }

  predicate CrlsOkFor(ca: CaRow, caId: nat, lists: seq<CrlRow>, current: seq<CrlEntry>)
    requires CaRowOk(ca)
  {
    && |lists| == ca.crlNumber
    && (forall p :: 0 <= p < |lists| ==> CrlRowOk(lists[p], ca, caId, p, current))
    && (forall p, q :: 0 <= p < q < |lists| ==> Within(lists[p].crl.content.entries, lists[q].crl.content.entries))
  }

  predicate CrlsOk(cas: seq<CaRow>, certs: seq<CertRow>, revocations: seq<RevocationRow>, crls: seq<CrlRow>)
  {
    && (forall k :: 0 <= k < |crls| ==> HasId(cas, crls[k].caId))
    && (forall i :: 0 <= i < |cas| ==>
          CaRowOk(cas[i]) && CrlsOkFor(cas[i], i + 1, CrlsOf(crls, i + 1), Entries(certs, revocations, i + 1)))
  }

  // ----- Requests -----

  predicate RequestOk(request: RequestRow, certs: seq<CertRow>)
  {
    && (request.status == Approved <==> request.certificateId.Some?)
    && (request.certificateId.Some? ==>
          && HasId(certs, request.certificateId.value)
          && var row := certs[request.certificateId.value - 1];
             row.csr == request.csr && row.profileCode == request.profileCode
                 && row.requestedBy == Some(request.requestedBy))
  }

  predicate RequestsOk(certs: seq<CertRow>, requests: seq<RequestRow>)
  {
    && (forall i :: 0 <= i < |requests| ==> RequestOk(requests[i], certs))
    && (forall i, j :: 0 <= i < j < |requests| && requests[i].certificateId.Some? ==>
          requests[i].certificateId != requests[j].certificateId)
  }

  // ----- Process memory -----

  predicate RootKeyOk(cas: seq<CaRow>, vault: Vault)
  {
    && (vault.rootKey.Some? <==> vault.rootUnlockedAt.Some?)
    && (vault.rootKey.Some? ==> |cas| >= 1 && CaRowOk(cas[0]) && vault.rootKey.value == KeyIn(cas[0]))
  }

  predicate VaultOk(cas: seq<CaRow>, vault: Vault)
  {
    && RootKeyOk(cas, vault)
    && (if |cas| == 2
        then CaRowOk(cas[1]) && vault.intermediateKey == Some(KeyIn(cas[1])) && vault.intermediateCaId == Some(2)
        else vault.intermediateKey == None && vault.intermediateCaId == None)
  }

  // ----- All together -----

  predicate DbOk(masterKey: Option<MasterKey>, db: Db)
  {
    && CasOk(masterKey, db.cas)
    && CertsOk(db.cas, db.certs)
    && RevocationsOk(db.certs, db.revocations)
    && CrlsOk(db.cas, db.certs, db.revocations, db.crls)
    && RequestsOk(db.certs, db.requests)
  }

  function MasterKeyOf(cfg: Config, st: State): Option<MasterKey>
  {
    CurrentMasterKey(cfg.masterKeyEnv, st.keyFile)
  }

  /** Holds after every commit, also when the process dies there. */
  predicate StoredOk(cfg: Config, st: State)
  {
    DbOk(MasterKeyOf(cfg, st), st.db)
  }

  /** Holds whenever the process is up and no call is under way. */
  predicate RunningOk(cfg: Config, st: State)
  {
    StoredOk(cfg, st) && VaultOk(st.db.cas, st.vault)
  }

  predicate FreshFor(db: Db, caId: nat)
  {
    var lists := CrlsOf(db.crls, caId);
    && lists != []
    && Within(Entries(db.certs, db.revocations, caId), lists[|lists| - 1].crl.content.entries)
  }

  // ----- Lookups -----

  lemma LeafAt(masterKey: Option<MasterKey>, db: Db, i: nat)
    requires DbOk(masterKey, db) && i < |db.certs|
    ensures LeafOk(db.certs[i], db.cas)
  {
  }

  lemma RequestAt(masterKey: Option<MasterKey>, db: Db, i: nat)
    requires DbOk(masterKey, db) && i < |db.requests|
    ensures RequestOk(db.requests[i], db.certs)
  {
  }

  lemma Lookups(masterKey: Option<MasterKey>, cas: seq<CaRow>)
    requires CasOk(masterKey, cas)
    ensures GetRoot(cas) == if |cas| == 0 then None else Some(1)
    ensures GetActiveIntermediate(cas) == if |cas| == 2 then Some(2) else None
  {
  }

  // ----- Publishing -----

  /** Entries depend only on the issuer, status and serial of the revoked rows. */
  lemma {:induction false} EntriesStable(
      certs: seq<CertRow>, certs': seq<CertRow>, revocations: seq<RevocationRow>, caId: nat)
    requires |certs| <= |certs'|
    requires forall k :: 0 <= k < |revocations| ==> HasId(certs, revocations[k].certId)
    requires forall i :: 0 <= i < |certs| && i + 1 in RevokedIds(revocations) ==>
               certs'[i].caId == certs[i].caId && certs'[i].status == certs[i].status
                   && certs'[i].serialHex == certs[i].serialHex
    ensures Entries(certs', revocations, caId) == Entries(certs, revocations, caId)
  {
    if revocations != [] {
      var init, last := revocations[..|revocations| - 1], revocations[|revocations| - 1];
      assert revocations == init + [last];
      assert RevokedIds(init) <= RevokedIds(revocations);
      assert last in revocations && last.certId in RevokedIds(revocations);
      EntriesStable(certs, certs', init, caId);
      assert certs'[last.certId - 1].caId == certs[last.certId - 1].caId;
    }
  }

  lemma CrlsOfAppend(crls: seq<CrlRow>, row: CrlRow, caId: nat)
    ensures CrlsOf(crls + [row], caId) == CrlsOf(crls, caId) + if row.caId == caId then [row] else []
  {
  }

  lemma PublishKeepsCrls(
      cas: seq<CaRow>, certs: seq<CertRow>, revocations: seq<RevocationRow>, crls: seq<CrlRow>, i: nat, row: CrlRow)
    requires CrlsOk(cas, certs, revocations, crls) && i < |cas|
    requires CrlRowOk(row, cas[i], i + 1, |CrlsOf(crls, i + 1)|, Entries(certs, revocations, i + 1))
    requires row.crl.content.entries == Entries(certs, revocations, i + 1)
    ensures CrlsOk(cas[i := cas[i].(crlNumber := cas[i].crlNumber + 1)], certs, revocations, crls + [row])
  {
  }

  lemma CountKeepsCas(masterKey: Option<MasterKey>, cas: seq<CaRow>, i: nat, n: nat)
    requires CasOk(masterKey, cas) && i < |cas|
    ensures CasOk(masterKey, cas[i := cas[i].(crlNumber := n)])
  {
  }

  lemma {:induction false} EntrySource(certs: seq<CertRow>, revocations: seq<RevocationRow>, caId: nat, e: CrlEntry)
    requires e in Entries(certs, revocations, caId)
    ensures
      exists k :: 0 <= k < |revocations| && HasId(certs, revocations[k].certId) && e == EntryOf(certs, revocations[k])
  {
    var n := |revocations| - 1;
    if e in Entries(certs, revocations[..n], caId) {
      EntrySource(certs, revocations[..n], caId, e);
      var k :| 0 <= k < n && HasId(certs, revocations[k].certId) && e == EntryOf(certs, revocations[k]);
    } else {
      assert e == EntryOf(certs, revocations[n]);
    }
  }

  lemma OtherEntry(certs: seq<CertRow>, revocations: seq<RevocationRow>, r: RevocationRow, caId: nat, e: CrlEntry)
    requires forall i, j :: 0 <= i < j < |certs| ==> certs[i].serialHex != certs[j].serialHex
    requires HasId(certs, r.certId) && forall k :: 0 <= k < |revocations| ==> revocations[k].certId != r.certId
    requires e in Entries(certs, revocations, caId)
    ensures e.serial != EntryOf(certs, r).serial
  {
    hide Entries, HexValue, ReasonOf;
    EntrySource(certs, revocations, caId, e);
    var k :| 0 <= k < |revocations| && HasId(certs, revocations[k].certId) && e == EntryOf(certs, revocations[k]);
    HexInjective(certs[revocations[k].certId - 1].serialHex, certs[r.certId - 1].serialHex);
  }

  /** Revocations of different certificates give entries with different serials. */
  lemma {:induction false} EntriesDistinct(certs: seq<CertRow>, revocations: seq<RevocationRow>, caId: nat)
    requires forall i, j :: 0 <= i < j < |certs| ==> certs[i].serialHex != certs[j].serialHex
    requires forall k, l :: 0 <= k < l < |revocations| ==> revocations[k].certId != revocations[l].certId
    ensures DistinctSerials(Entries(certs, revocations, caId))
  {
    hide EntryOf;
    if revocations != [] {
      var n := |revocations| - 1;
      EntriesDistinct(certs, revocations[..n], caId);
      if OnCrl(certs, revocations[n], caId) {
        forall e | e in Entries(certs, revocations[..n], caId)
          ensures e.serial != EntryOf(certs, revocations[n]).serial
        {
          OtherEntry(certs, revocations[..n], revocations[n], caId, e);
        }
      }
    }
  }

  /** The list about to be published is signed by the CA's own key and has one entry for a serial at most. */
  lemma NextCrlOk(masterKey: Option<MasterKey>, db: Db, vault: Vault, caId: nat, now: int)
    requires DbOk(masterKey, db) && VaultOk(db.cas, vault) && CanPublish(db, vault, caId)
    ensures
      var current := Entries(db.certs, db.revocations, caId);
      && CaRowOk(db.cas[caId - 1])
      && CrlsOkFor(db.cas[caId - 1], caId, CrlsOf(db.crls, caId), current)
      && CrlRowOk(NextCrl(db, vault, caId, now), db.cas[caId - 1], caId, |CrlsOf(db.crls, caId)|, current)
  {
    EntriesDistinct(db.certs, db.revocations, caId);
    hide DistinctSerials, Entries;
  }

  /** Certificate checks look at CA rows only through their keys and certificates. */
  lemma CertsStable(cas: seq<CaRow>, cas': seq<CaRow>, certs: seq<CertRow>)
    requires CertsOk(cas, certs) && |cas'| == |cas|
    requires forall i :: 0 <= i < |cas| ==> cas'[i] == cas[i].(crlNumber := cas'[i].crlNumber)
    ensures CertsOk(cas', certs)
  {
  }

  lemma RefreshKeeps(masterKey: Option<MasterKey>, db: Db, vault: Vault, caId: nat, now: int)
    requires DbOk(masterKey, db) && VaultOk(db.cas, vault)
    ensures
      var db' := RefreshCrl(db, vault, caId, now);
      DbOk(masterKey, db') && VaultOk(db'.cas, vault) && |db'.cas| == |db.cas|
  {
    hide CertsOk, RevocationsOk, CrlsOk, RequestsOk, CasOk;
    if CanPublish(db, vault, caId) {
      var db' := RefreshCrl(db, vault, caId, now);
      CountKeepsCas(masterKey, db.cas, caId - 1, db.cas[caId - 1].crlNumber + 1);
      NextCrlOk(masterKey, db, vault, caId, now);
      PublishKeepsCrls(db.cas, db.certs, db.revocations, db.crls, caId - 1, NextCrl(db, vault, caId, now));
      CertsStable(db.cas, db'.cas, db.certs);
    }
  }

  /** A list just published is the newest of its CA and has every revocation. */
  lemma RefreshFreshens(db: Db, vault: Vault, caId: nat, now: int)
    requires CanPublish(db, vault, caId)
    ensures FreshFor(RefreshCrl(db, vault, caId, now), caId)
    ensures forall id :: id != caId && FreshFor(db, id) ==> FreshFor(RefreshCrl(db, vault, caId, now), id)
  {
  }

  lemma {:induction false} RefreshAllKeeps(masterKey: Option<MasterKey>, db: Db, vault: Vault, n: nat, now: int)
    requires DbOk(masterKey, db) && VaultOk(db.cas, vault) && n <= |db.cas|
    ensures
      var db' := RefreshCrls(db, vault, n, now);
      DbOk(masterKey, db') && VaultOk(db'.cas, vault)
  {
    hide DbOk, VaultOk, RefreshCrl;
    if n > 0 {
      RefreshAllKeeps(masterKey, db, vault, n - 1, now);
      var before := RefreshCrls(db, vault, n - 1, now);
      RefreshKeeps(masterKey, before, vault, n, now);
    }
  }

  // ----- Setting up -----

  lemma WhatNeedsWhat(masterKey: Option<MasterKey>, db: Db)
    requires DbOk(masterKey, db)
    ensures db.certs != [] ==> |db.cas| == 2
    ensures db.revocations != [] ==> db.certs != []
    ensures db.crls != [] ==> db.cas != []
  {
    if db.certs != [] {
      assert LeafOk(db.certs[0], db.cas);
    }
    if db.revocations != [] {
      assert HasId(db.certs, db.revocations[0].certId);
    }
    if db.crls != [] {
      assert HasId(db.cas, db.crls[0].caId);
    }
  }

  lemma RootKeeps(cfg: Config, masterKey: Option<MasterKey>, db: Db, args: RootArgs, now: int)
    requires DbOk(masterKey, db) && RootError(db, args) == None
    ensures |db.cas| == 0 && DbOk(masterKey, CommitRoot(cfg, db, args, now))
  {
    Lookups(masterKey, db.cas);
    WhatNeedsWhat(masterKey, db);
  }

  /** The passphrase just chosen unlocks the new root. */
  lemma RootUnlocks(cfg: Config, masterKey: Option<MasterKey>, db: Db, vault: Vault, args: RootArgs, now: int)
    requires DbOk(masterKey, db) && VaultOk(db.cas, vault) && RootError(db, args) == None
    ensures
      var db' := CommitRoot(cfg, db, args, now);
      var (vault', ok) := UnlockRoot(cfg, db', vault, args.passphrase, now);
      ok && VaultOk(db'.cas, vault') && CanPublish(db', vault', 1)
  {
  }

  lemma CrlsOfNone(crls: seq<CrlRow>, caId: nat)
    requires forall k :: 0 <= k < |crls| ==> crls[k].caId != caId
    ensures CrlsOf(crls, caId) == []
  {
  }

  lemma IntermediateRowOk(cfg: Config, st: State, args: IntermediateArgs, now: int)
    requires RunningOk(cfg, st) && IntermediateError(st) == None && MasterKeyOf(cfg, st).Some?
    ensures |st.db.cas| == 1
    ensures
      var row := IntermediateRow(st, args, MasterKeyOf(cfg, st).value, 2, now);
      IntermediateOk(row, st.db.cas[0], MasterKeyOf(cfg, st)) && CaRowOk(row) && row.crlNumber == 0
  {
    hide CertsOk, RevocationsOk, CrlsOk, RequestsOk;
    Lookups(MasterKeyOf(cfg, st), st.db.cas);
  }

  /** A CA that has published nothing yet joins the tables. */
  lemma NewCaKeepsCrls(cas: seq<CaRow>, crls: seq<CrlRow>, row: CaRow)
    requires CrlsOk(cas, [], [], crls) && CaRowOk(row) && row.crlNumber == 0
    ensures CrlsOk(cas + [row], [], [], crls)
  {
    CrlsOfNone(crls, |cas| + 1);
  }

  lemma IntermediateKeeps(cfg: Config, st: State, args: IntermediateArgs, now: int)
    requires RunningOk(cfg, st) && IntermediateError(st) == None && MasterKeyOf(cfg, st).Some?
    ensures |st.db.cas| == 1 && StoredOk(cfg, CommitIntermediate(cfg, st, args, now))
  {
    hide CrlsOk, VaultOk, IntermediateOk, IntermediateRow;
    IntermediateRowOk(cfg, st, args, now);
    WhatNeedsWhat(MasterKeyOf(cfg, st), st.db);
    NewCaKeepsCrls(st.db.cas, st.db.crls, CommitIntermediate(cfg, st, args, now).db.cas[1]);
  }

  /** Loading finds the key certified in the active intermediate's row. */
  lemma LoadKeeps(cfg: Config, st: State)
    requires StoredOk(cfg, st)
    ensures
      var st' := Load(cfg, st);
      && st'.db == st.db && st'.keyFile == st.keyFile
      && (st.vault == EMPTY_VAULT ==> VaultOk(st.db.cas, st'.vault))
      && (|st.db.cas| == 2 ==> CanPublish(st'.db, st'.vault, 2))
      && (|st.db.cas| == 2 && RootKeyOk(st.db.cas, st.vault) ==> VaultOk(st.db.cas, st'.vault))
  {
  }

  // ----- Issuing -----

  /** The row an issuance appends, if it appends one. */
  lemma {:induction false} AttemptsShape(db: Db, env: Env, args: IssueArgs, job: Job, i: nat)
    requires i <= MAX_SERIAL_ALLOCATION_ATTEMPTS
    ensures
      var (db', r) := Attempts(db, env, args, job, i);
      && (r.Err? ==> db' == db)
      && (r.Ok? ==>
            && r.value == |db.certs| + 1
            && exists k :: i <= k < MAX_SERIAL_ALLOCATION_ATTEMPTS
                 && LeafFor(job, args.draws[k], env.now).Some?
                 && !Refused(db, env, args, args.draws[k])
                 && db'.certs == db.certs
                       + [NewCertRow(job, args, args.draws[k], LeafFor(job, args.draws[k], env.now).value)])
    decreases MAX_SERIAL_ALLOCATION_ATTEMPTS - i
  {
    if i < MAX_SERIAL_ALLOCATION_ATTEMPTS {
      AttemptsShape(db, env, args, job, i + 1);
    }
  }

  lemma JobShape(masterKey: Option<MasterKey>, db: Db, vault: Vault, env: Env, args: IssueArgs)
    requires DbOk(masterKey, db) && VaultOk(db.cas, vault) && JobFor(db, vault, env, args).Ok?
    ensures
      var job := JobFor(db, vault, env, args).value;
      && |db.cas| == 2 && job.caId == 2 && job.key == KeyIn(db.cas[1]) && Some(job.issuer) == db.cas[1].certificate
      && args.csr == Readable(job.csr) && job.profile.code == args.profileCode
  {
    Lookups(masterKey, db.cas);
    var profile := FindProfile(env.profiles, args.profileCode).value;
    AcceptedExactly(args.csr, profile);
  }

  /** The appended row is a valid leaf for this request. */
  lemma IssuedRow(masterKey: Option<MasterKey>, db: Db, vault: Vault, env: Env, args: IssueArgs) returns (row: CertRow)
    requires DbOk(masterKey, db) && VaultOk(db.cas, vault) && Issue(db, vault, env, args).1.Ok?
    ensures
      var (db', r) := Issue(db, vault, env, args);
      && r.value == |db.certs| + 1 && db'.certs == db.certs + [row]
    ensures LeafOk(row, db.cas) && !SerialStored(db.certs, row.serialHex)
    ensures row.status == Valid && row.csr == args.csr && row.profileCode == args.profileCode
    ensures row.requestedBy == args.requestedBy && row.expiryNotifiedAt == None && ReferencesExist(env, args)
  {
    JobShape(masterKey, db, vault, env, args);
    var job := JobFor(db, vault, env, args).value;
    AttemptsShape(db, env, args, job, 0);
    var db' := Issue(db, vault, env, args).0;
    var k :| 0 <= k < MAX_SERIAL_ALLOCATION_ATTEMPTS
      && LeafFor(job, args.draws[k], env.now).Some?
      && !Refused(db, env, args, args.draws[k])
      && db'.certs == db.certs + [NewCertRow(job, args, args.draws[k], LeafFor(job, args.draws[k], env.now).value)];
    row := NewCertRow(job, args, args.draws[k], LeafFor(job, args.draws[k], env.now).value);
  }

  lemma IssueUnchanged(db: Db, vault: Vault, env: Env, args: IssueArgs)
    requires Issue(db, vault, env, args).1.Err?
    ensures Issue(db, vault, env, args).0 == db
  {
  }

  lemma EntriesAfterAppend(certs: seq<CertRow>, row: CertRow, revocations: seq<RevocationRow>)
    requires RevocationsOk(certs, revocations)
    ensures forall id: nat :: Entries(certs + [row], revocations, id) == Entries(certs, revocations, id)
  {
    forall id: nat
      ensures Entries(certs + [row], revocations, id) == Entries(certs, revocations, id)
    {
      EntriesStable(certs, certs + [row], revocations, id);
    }
  }

  lemma AppendKeepsRevocations(certs: seq<CertRow>, row: CertRow, revocations: seq<RevocationRow>)
    requires RevocationsOk(certs, revocations) && row.status == Valid
    ensures RevocationsOk(certs + [row], revocations)
  {
  }

  lemma AppendKeepsRequests(certs: seq<CertRow>, row: CertRow, requests: seq<RequestRow>)
    requires RequestsOk(certs, requests)
    ensures RequestsOk(certs + [row], requests)
  {
  }

  /** Lists of tables that show the same entries are in the same order. */
  lemma CrlsStable(db: Db, certs': seq<CertRow>)
    requires CrlsOk(db.cas, db.certs, db.revocations, db.crls)
    requires forall id: nat :: Entries(certs', db.revocations, id) == Entries(db.certs, db.revocations, id)
    ensures CrlsOk(db.cas, certs', db.revocations, db.crls)
  {
  }

  /** Adding a leaf with an unused serial and no revocation. */
  lemma AppendKeeps(masterKey: Option<MasterKey>, db: Db, row: CertRow)
    requires DbOk(masterKey, db)
    requires LeafOk(row, db.cas) && !SerialStored(db.certs, row.serialHex) && row.status == Valid
    ensures DbOk(masterKey, db.(certs := db.certs + [row]))
  {
    hide CasOk, RevocationsOk, CrlsOk, RequestsOk, LeafOk;
    EntriesAfterAppend(db.certs, row, db.revocations);
    CrlsStable(db, db.certs + [row]);
    AppendKeepsRevocations(db.certs, row, db.revocations);
    AppendKeepsRequests(db.certs, row, db.requests);
  }

  lemma IssueKeeps(masterKey: Option<MasterKey>, db: Db, vault: Vault, env: Env, args: IssueArgs)
    requires DbOk(masterKey, db) && VaultOk(db.cas, vault)
    ensures
      var db' := Issue(db, vault, env, args).0;
      DbOk(masterKey, db') && VaultOk(db'.cas, vault)
  {
    if Issue(db, vault, env, args).1.Ok? {
      var row := IssuedRow(masterKey, db, vault, env, args);
      AppendKeeps(masterKey, db, row);
      assert Issue(db, vault, env, args).0 == db.(certs := db.certs + [row]);
    } else {
      IssueUnchanged(db, vault, env, args);
    }
  }

  // ----- Revoking -----

  lemma EntriesSnoc(certs: seq<CertRow>, revocations: seq<RevocationRow>, revocation: RevocationRow, caId: nat)
    ensures Entries(certs, revocations + [revocation], caId) ==
            Entries(certs, revocations, caId)
            + if OnCrl(certs, revocation, caId) then [EntryOf(certs, revocation)] else []
  {
    assert (revocations + [revocation])[..|revocations|] == revocations;
  }

  lemma EntriesKept(certs: seq<CertRow>, revocations: seq<RevocationRow>, certId: nat, caId: nat)
    requires RevocationsOk(certs, revocations)
    requires HasId(certs, certId) && certs[certId - 1].status != Revoked
    ensures Entries(WithRevoked(certs, certId), revocations, caId) == Entries(certs, revocations, caId)
  {
    hide Entries, RevokedIds;
    forall i | 0 <= i < |certs| && i + 1 in RevokedIds(revocations)
      ensures WithRevoked(certs, certId)[i] == certs[i]
    {
      assert certs[i].status == Revoked;
    }
    EntriesStable(certs, WithRevoked(certs, certId), revocations, caId);
  }

  /** A revocation adds one entry to the list of the certificate's issuer and none elsewhere. */
  lemma EntriesAfterRevocation(
      certs: seq<CertRow>, revocations: seq<RevocationRow>, revocation: RevocationRow, caId: nat)
    requires RevocationsOk(certs, revocations)
    requires HasId(certs, revocation.certId) && certs[revocation.certId - 1].status != Revoked
    ensures
      Entries(WithRevoked(certs, revocation.certId), revocations + [revocation], caId) ==
      Entries(certs, revocations, caId)
      + if certs[revocation.certId - 1].caId == caId then [EntryOf(certs, revocation)] else []
  {
    hide Entries, RevocationsOk;
    EntriesKept(certs, revocations, revocation.certId, caId);
    EntriesSnoc(WithRevoked(certs, revocation.certId), revocations, revocation, caId);
  }

  lemma RevocationKeepsRevocations(certs: seq<CertRow>, revocations: seq<RevocationRow>, revocation: RevocationRow)
    requires RevocationsOk(certs, revocations) && revocation.reason in REASON_FLAGS
    requires HasId(certs, revocation.certId) && certs[revocation.certId - 1].status != Revoked
    ensures RevocationsOk(WithRevoked(certs, revocation.certId), revocations + [revocation])
  {
  }

  /** More revocations do no harm to the lists already out. */
  lemma MoreRevocations(ca: CaRow, caId: nat, lists: seq<CrlRow>, current: seq<CrlEntry>, current': seq<CrlEntry>)
    requires CaRowOk(ca) && CrlsOkFor(ca, caId, lists, current) && Within(current, current')
    ensures CrlsOkFor(ca, caId, lists, current')
  {
    forall p | 0 <= p < |lists|
      ensures CrlRowOk(lists[p], ca, caId, p, current')
    {
      assert CrlRowOk(lists[p], ca, caId, p, current);
    }
  }

  lemma RevocationKeepsCrls(
      cas: seq<CaRow>, certs: seq<CertRow>, revocations: seq<RevocationRow>, crls: seq<CrlRow>,
      revocation: RevocationRow)
    requires RevocationsOk(certs, revocations) && CrlsOk(cas, certs, revocations, crls)
    requires HasId(certs, revocation.certId) && certs[revocation.certId - 1].status != Revoked
    ensures CrlsOk(cas, WithRevoked(certs, revocation.certId), revocations + [revocation], crls)
  {
    hide RevocationsOk, CaRowOk, CrlsOkFor, CrlsOf, Entries, WithRevoked, EntryOf;
    var certs' := WithRevoked(certs, revocation.certId);
    forall i | 0 <= i < |cas|
      ensures CaRowOk(cas[i])
              && CrlsOkFor(cas[i], i + 1, CrlsOf(crls, i + 1), Entries(certs', revocations + [revocation], i + 1))
    {
      EntriesAfterRevocation(certs, revocations, revocation, i + 1);
      MoreRevocations(cas[i], i + 1, CrlsOf(crls, i + 1),
                      Entries(certs, revocations, i + 1), Entries(certs', revocations + [revocation], i + 1));
    }
  }

  /** Changing nothing but the status and the notification date of certificates. */
  lemma StatusKeeps(cas: seq<CaRow>, certs: seq<CertRow>, certs': seq<CertRow>, requests: seq<RequestRow>)
    requires CertsOk(cas, certs) && RequestsOk(certs, requests) && |certs'| == |certs|
    requires forall i :: 0 <= i < |certs| ==>
               && certs'[i] == certs[i].(status := certs'[i].status, expiryNotifiedAt := certs'[i].expiryNotifiedAt)
               && certs'[i].status != Expired
    ensures CertsOk(cas, certs') && RequestsOk(certs', requests)
  {
  }

  lemma NoneExpired(masterKey: Option<MasterKey>, db: Db)
    requires DbOk(masterKey, db)
    ensures forall i :: 0 <= i < |db.certs| ==> db.certs[i].status != Expired
  {
  }

  lemma CommitRevocationKeeps(
      masterKey: Option<MasterKey>, db: Db, certId: nat, reason: string, actor: Option<nat>, now: int)
    requires DbOk(masterKey, db) && HasId(db.certs, certId) && db.certs[certId - 1].status != Revoked
    requires reason in REASON_FLAGS
    ensures DbOk(masterKey, CommitRevocation(db, certId, reason, actor, now))
  {
    hide CasOk, CertsOk, RevocationsOk, CrlsOk, RequestsOk, LeafOk;
    var revocation := RevocationRow(certId, now, reason, actor);
    var db' := CommitRevocation(db, certId, reason, actor, now);
    RevocationKeepsRevocations(db.certs, db.revocations, revocation);
    RevocationKeepsCrls(db.cas, db.certs, db.revocations, db.crls, revocation);
    NoneExpired(masterKey, db);
    StatusKeeps(db.cas, db.certs, db'.certs, db.requests);
  }

  /** A running process can always publish the intermediate's list. */
  lemma IntermediatePublishes(masterKey: Option<MasterKey>, db: Db, vault: Vault)
    requires DbOk(masterKey, db) && VaultOk(db.cas, vault) && |db.cas| == 2
    ensures CanPublish(db, vault, 2)
  {
  }

  lemma CommitRevocationTables(db: Db, certId: nat, reason: string, actor: Option<nat>, now: int)
    requires HasId(db.certs, certId)
    ensures CommitRevocation(db, certId, reason, actor, now).cas == db.cas
  {
  }

  /** A successful revocation is its commit followed by a refresh of the intermediate's list. */
  lemma RevokeShape(
      masterKey: Option<MasterKey>, db: Db, vault: Vault, env: Env, certId: nat, reason: string, actor: Option<nat>)
    requires DbOk(masterKey, db) && VaultOk(db.cas, vault)
    ensures
      var (db', r) := Revoke(db, vault, env, certId, reason, actor);
      if RevokeError(db, env, certId, reason, actor).Some? then r.Err? && db' == db
      else
        var committed := CommitRevocation(db, certId, reason, actor, env.now);
        && r.Ok? && db' == RefreshCrl(committed, vault, 2, env.now)
        && DbOk(masterKey, committed) && CanPublish(committed, vault, 2)
        && db.certs[certId - 1].caId == 2 && db.certs[certId - 1].status == Valid
  {
    hide DbOk, VaultOk, CommitRevocation;
    if RevokeError(db, env, certId, reason, actor) == None {
      LeafAt(masterKey, db, certId - 1);
      IntermediatePublishes(masterKey, db, vault);
      CommitRevocationTables(db, certId, reason, actor, env.now);
      CommitRevocationKeeps(masterKey, db, certId, reason, actor, env.now);
    }
  }

  lemma RevokeKeeps(
      masterKey: Option<MasterKey>, db: Db, vault: Vault, env: Env, certId: nat, reason: string, actor: Option<nat>)
    requires DbOk(masterKey, db) && VaultOk(db.cas, vault)
    ensures
      var (db', r) := Revoke(db, vault, env, certId, reason, actor);
      && DbOk(masterKey, db') && VaultOk(db'.cas, vault)
      && (r.Ok? ==> FreshFor(db', 2))
  {
    RevokeShape(masterKey, db, vault, env, certId, reason, actor);
    if RevokeError(db, env, certId, reason, actor) == None {
      var committed := CommitRevocation(db, certId, reason, actor, env.now);
      RefreshKeeps(masterKey, committed, vault, 2, env.now);
      RefreshFreshens(committed, vault, 2, env.now);
    }
  }

  /** A renewal ends where it began, after the issuance, or after the revocation of the predecessor. */
  lemma RenewShape(db: Db, vault: Vault, env: Env, predecessor: nat, args: IssueArgs)
    requires HasId(db.certs, predecessor)
    ensures
      var issued := Issue(db, vault, env, args.(profileCode := db.certs[predecessor - 1].profileCode)).0;
      var db' := Renew(db, vault, env, predecessor, args).0;
      db' == issued || db' == Revoke(issued, vault, env, predecessor, "superseded", args.requestedBy).0
  {
  }

  lemma RenewKeeps(
      masterKey: Option<MasterKey>, db: Db, vault: Vault, env: Env, predecessor: nat, args: IssueArgs)
    requires DbOk(masterKey, db) && VaultOk(db.cas, vault)
    ensures
      var db' := Renew(db, vault, env, predecessor, args).0;
      DbOk(masterKey, db') && VaultOk(db'.cas, vault)
  {
    if HasId(db.certs, predecessor) {
      var args' := args.(profileCode := db.certs[predecessor - 1].profileCode);
      IssueKeeps(masterKey, db, vault, env, args');
      var issued := Issue(db, vault, env, args').0;
      RevokeKeeps(masterKey, issued, vault, env, predecessor, "superseded", args.requestedBy);
      RenewShape(db, vault, env, predecessor, args);
    }
  }

  // ----- Requests -----

  lemma SubmitKeeps(masterKey: Option<MasterKey>, db: Db, env: Env, csr: CsrPem, profileCode: string, requestedBy: nat)
    requires DbOk(masterKey, db)
    ensures
      var db' := Submit(db, env, csr, profileCode, requestedBy).0;
      DbOk(masterKey, db')
  {
    hide CasOk, CertsOk, RevocationsOk, CrlsOk;
    var db' := Submit(db, env, csr, profileCode, requestedBy).0;
    assert RequestsOk(db'.certs, db'.requests);
  }

  lemma RejectKeeps(masterKey: Option<MasterKey>, db: Db, env: Env, requestId: nat, reviewer: nat, reason: string)
    requires DbOk(masterKey, db)
    ensures
      var db' := Reject(db, env, requestId, reviewer, reason).0;
      DbOk(masterKey, db')
  {
    hide CasOk, CertsOk, RevocationsOk, CrlsOk;
    var db' := Reject(db, env, requestId, reviewer, reason).0;
    if HasId(db.requests, requestId) {
      assert RequestOk(db.requests[requestId - 1], db.certs);
    }
    assert RequestsOk(db'.certs, db'.requests);
  }

  /** A request may be linked to a certificate no other request is linked to. */
  lemma CommitApprovalKeeps(masterKey: Option<MasterKey>, db: Db, requestId: nat, reviewer: nat, certId: nat, now: int)
    requires DbOk(masterKey, db) && HasId(db.requests, requestId) && HasId(db.certs, certId)
    requires forall i :: 0 <= i < |db.requests| ==> db.requests[i].certificateId != Some(certId)
    requires
      var row, request := db.certs[certId - 1], db.requests[requestId - 1];
      row.csr == request.csr && row.profileCode == request.profileCode && row.requestedBy == Some(request.requestedBy)
    ensures
      var db' := CommitApproval(db, requestId, reviewer, certId, now);
      DbOk(masterKey, db')
  {
    hide CasOk, CertsOk, RevocationsOk, CrlsOk;
    var db' := CommitApproval(db, requestId, reviewer, certId, now);
    forall i | 0 <= i < |db'.requests|
      ensures RequestOk(db'.requests[i], db.certs)
    {
      assert RequestOk(db.requests[i], db.certs);
    }
  }

  /** A certificate just issued for a request can be linked to it. */
  lemma LinkKeeps(
      masterKey: Option<MasterKey>, db: Db, vault: Vault, env: Env, requestId: nat, reviewer: nat,
      validityDays: Option<int>, draws: Draws)
    requires DbOk(masterKey, db) && VaultOk(db.cas, vault) && HasId(db.requests, requestId)
    requires Issue(db, vault, env, ApprovalArgs(db.requests[requestId - 1], validityDays, draws)).1.Ok?
    ensures
      var (issued, r) := Issue(db, vault, env, ApprovalArgs(db.requests[requestId - 1], validityDays, draws));
      var db' := CommitApproval(issued, requestId, reviewer, r.value, env.now);
      DbOk(masterKey, db')
  {
    hide DbOk, VaultOk, Issue;
    var args := ApprovalArgs(db.requests[requestId - 1], validityDays, draws);
    IssueKeeps(masterKey, db, vault, env, args);
    var (issued, r) := Issue(db, vault, env, args);
    var row := IssuedRow(masterKey, db, vault, env, args);
    forall i | 0 <= i < |db.requests|
      ensures db.requests[i].certificateId != Some(r.value)
    {
      RequestAt(masterKey, db, i);
    }
    CommitApprovalKeeps(masterKey, issued, requestId, reviewer, r.value, env.now);
  }

  lemma ApproveKeeps(
      masterKey: Option<MasterKey>, db: Db, vault: Vault, env: Env, requestId: nat, reviewer: nat,
      validityDays: Option<int>, draws: Draws)
    requires DbOk(masterKey, db) && VaultOk(db.cas, vault)
    ensures
      var db' := Approve(db, vault, env, requestId, reviewer, validityDays, draws).0;
      DbOk(masterKey, db') && VaultOk(db'.cas, vault)
  {
    hide DbOk, Issue;
    if PendingError(db, requestId) == None {
      var args := ApprovalArgs(db.requests[requestId - 1], validityDays, draws);
      IssueKeeps(masterKey, db, vault, env, args);
      if Issue(db, vault, env, args).1.Ok? {
        LinkKeeps(masterKey, db, vault, env, requestId, reviewer, validityDays, draws);
      }
    }
  }

  // ----- Notifications -----

  lemma NotifyKeeps(masterKey: Option<MasterKey>, db: Db, n: nat, env: Env, warningDays: int, delivered: set<nat>)
    requires DbOk(masterKey, db) && n <= |db.certs|
    ensures
      var db' := db.(certs := NotifyFirst(db.certs, n, env, warningDays, delivered));
      DbOk(masterKey, db')
  {
    hide CasOk, CertsOk, RevocationsOk, CrlsOk, RequestsOk, LeafOk, Notified;
    var certs' := NotifyFirst(db.certs, n, env, warningDays, delivered);
    NoneExpired(masterKey, db);
    forall i | 0 <= i < |certs'|
      ensures certs'[i] == db.certs[i].(expiryNotifiedAt := certs'[i].expiryNotifiedAt)
    {
      NotifiedShape(db.certs[i], i + 1, env, warningDays, delivered);
    }
    StatusKeeps(db.cas, db.certs, certs', db.requests);
    RenotedKeeps(db.certs, certs', db.revocations);
    CrlsStable(db, certs');
  }

  lemma NotifiedShape(row: CertRow, id: nat, env: Env, warningDays: int, delivered: set<nat>)
    ensures
      var row' := Notified(row, id, env, warningDays, delivered);
      && row' == row.(expiryNotifiedAt := row'.expiryNotifiedAt)
      && (row.expiryNotifiedAt.Some? ==> row' == row)
  {
  }

  lemma RenotedKeeps(certs: seq<CertRow>, certs': seq<CertRow>, revocations: seq<RevocationRow>)
    requires RevocationsOk(certs, revocations) && |certs'| == |certs|
    requires forall i :: 0 <= i < |certs| ==> certs'[i] == certs[i].(expiryNotifiedAt := certs'[i].expiryNotifiedAt)
    ensures RevocationsOk(certs', revocations)
    ensures forall id: nat :: Entries(certs', revocations, id) == Entries(certs, revocations, id)
  {
    forall id: nat
      ensures Entries(certs', revocations, id) == Entries(certs, revocations, id)
    {
      EntriesStable(certs, certs', revocations, id);
    }
  }
}
