/**
 Concrete runs, for every configuration, that show where the conditions of the theorems are needed. Those
 of a process that dies: a revocation kept off the served list, a CA left without a list, a request with
 two certificates, an owner told twice. And two that only the signature of a service admits, with a user
 who is not stored: a failed approval that leaves a certificate, and a failed allocation without a collision.
 */
module CaExamples {
  import opened Wrappers
  import opened Numerals
  import opened Crypto
  import opened X509
  import opened CertPolicy
  import opened CaState
  import opened CaInvariant
  import opened CaMachine
  import opened CaTheorems
  import opened CaLists
  import opened CaNotifications
  import opened CaOperations
  import opened CaWorkflows

  const ROOT := RootArgs("Root", None, "twelve chars", 1, 1, 1, 1)
  const INTERMEDIATE := IntermediateArgs("Issuing", None, 2, 2, 2, MasterKey(0))
  const PROFILE := Profile("web", [], [], 30, [], false, true)
  const CSR := Readable(Csr([], PublicKey(Secp256r1, 3), true, []))
  const ENV := Env([PROFILE], {1}, {}, 0)
  const SERIAL: Token := "00000000000000000000000000000001"
  const DRAWS: Draws := [SERIAL, SERIAL, SERIAL, SERIAL, SERIAL]
  const OTHER: Token := "00000000000000000000000000000002"
  const OTHER_DRAWS: Draws := [OTHER, OTHER, OTHER, OTHER, OTHER]

  function Asking(user: nat, draws: Draws): IssueArgs
  {
    IssueArgs(CSR, "web", Some(user), Ui, None, None, draws)
  }

  function Call(op: Op): Event
  {
    Event(ENV, op, None)
  }

  const SETUP := [Call(InitRootOp(ROOT)), Call(InitIntermediateOp(INTERMEDIATE))]

  /** The hierarchy is there, and no certificate and no request. */
  predicate Ready(st: State)
  {
    |st.db.cas| == 2 && st.db.certs == [] && st.db.requests == [] && st.db.revocations == []
  }

  lemma InitTouches(cfg: Config, st: State, root: RootArgs, intermediate: IntermediateArgs, now: int)
    ensures
      var db := InitRoot(cfg, st, root, now).0.db;
      db == st.db.(cas := db.cas, crls := db.crls)
    ensures
      var db := InitIntermediate(cfg, st, intermediate, now).0.db;
      db == st.db.(cas := db.cas, crls := db.crls)
  {
  }

  lemma SetupReady(cfg: Config, keyFile: Option<MasterKey>)
    ensures Ready(Run(cfg, keyFile, SETUP)) && CrashFree(SETUP)
  {
    var first := Call(InitRootOp(ROOT));
    assert SETUP == [first] + [Call(InitIntermediateOp(INTERMEDIATE))];
    assert [first] == [] + [first];
    assert Run(cfg, keyFile, []) == Installed(keyFile);
    RunCall(cfg, keyFile, [], ENV, InitRootOp(ROOT));
    RunCall(cfg, keyFile, [first], ENV, InitIntermediateOp(INTERMEDIATE));
    hide Run, InitRoot, InitIntermediate;
    SetupExactly(cfg, keyFile, [], ROOT, INTERMEDIATE, 0);
    SetupExactly(cfg, keyFile, [first], ROOT, INTERMEDIATE, 0);
    InitTouches(cfg, Run(cfg, keyFile, []), ROOT, INTERMEDIATE, 0);
    InitTouches(cfg, Run(cfg, keyFile, [first]), ROOT, INTERMEDIATE, 0);
  }

  lemma Serials()
    ensures HexValue(SERIAL) > 0 && HexValue(OTHER) > 0 && SERIAL != OTHER
  {
    assert SERIAL[|SERIAL| - 1] == '1';
    assert OTHER[|OTHER| - 1] == '2';
  }

  /** With the hierarchy in place every check on the request passes. */
  lemma Passes(db: Db, user: nat, draws: Draws)
    requires |db.cas| == 2
    ensures ChecksPass(db, ENV, Asking(user, draws))
  {
    assert FindProfile([PROFILE], "web") == Some(PROFILE);
  }

  /** User 1 gets a certificate if the first draw is free. */
  lemma Issued(cfg: Config, st: State, draws: Draws)
    requires RunningOk(cfg, st) && |st.db.cas| == 2 && HexValue(draws[0]) > 0 && !InUse(st.db.certs, draws[0])
    ensures Issuable(st.db, ENV, Asking(1, draws))
    ensures
      var (db', r) := Issue(st.db, st.vault, ENV, Asking(1, draws));
      && r == Ok(|st.db.certs| + 1) && |db'.certs| == |st.db.certs| + 1 && db' == st.db.(certs := db'.certs)
      && db'.certs[..|st.db.certs|] == st.db.certs && db'.certs[|st.db.certs|].serialHex == draws[0]
      && AsAsked(db'.certs[|st.db.certs|], Asking(1, draws), PROFILE, 0)
  {
    hide RunningOk, Issue, AsAsked, ChecksPass, InUse, HexValue, FailsWith;
    Passes(st.db, 1, draws);
    assert FirstDraw(st.db.certs, draws, 0);
    IssuanceOf(cfg, st, ENV, Asking(1, draws));
  }

  // ----- When a process dies -----

  /** One certificate has been issued, to user 1. */
  lemma OneIssued(cfg: Config, keyFile: Option<MasterKey>) returns (events: seq<Event>)
    ensures CrashFree(events) && events == SETUP + [Call(IssueOp(Asking(1, DRAWS)))]
    ensures
      var db := Run(cfg, keyFile, events).db;
      && |db.certs| == 1 && db.revocations == [] && AsAsked(db.certs[0], Asking(1, DRAWS), PROFILE, 0)
  {
    hide Run, RunningOk, Issue, AsAsked;
    Serials();
    events := SETUP + [Call(IssueOp(Asking(1, DRAWS)))];
    SetupReady(cfg, keyFile);
    RunOk(cfg, keyFile, SETUP);
    RunCall(cfg, keyFile, SETUP, ENV, IssueOp(Asking(1, DRAWS)));
    Issued(cfg, Run(cfg, keyFile, SETUP), DRAWS);
  }

  /** A process that dies between the two commits of a revocation keeps serving the list without it. */
  lemma CrashHidesRevocation(cfg: Config, keyFile: Option<MasterKey>) returns (events: seq<Event>)
    ensures
      var db := Run(cfg, keyFile, events).db;
      && |db.certs| == 1 && db.certs[0].status == Revoked && ServedCrl(db.crls, 2).Some?
      && !Lists(ServedCrl(db.crls, 2).value.crl, db.certs[0].certificate.content.serial)
  {
    hide RunningOk, StoredOk, Restart, Lists, CrlUsable, Partial, NeverListed, Overlooked;
    var before := OneIssued(cfg, keyFile);
    var crash := Event(ENV, RevokeOp(1, "key_compromise", Some(1)), Some(Crash(1, MasterKey(0))));
    events := before + [crash];
    var st := Run(cfg, keyFile, before);
    assert Run(cfg, keyFile, events) == After(cfg, st, crash) by {
      assert events[..|before|] == before;
    }
    hide Run;
    RunOk(cfg, keyFile, before);
    NoneOverlooked(cfg, keyFile, before, 2);
    CrlPointer(cfg, keyFile, before, 0);
    PointerOf(cfg, st);
    PartialOk(cfg, st, ENV, crash.op, 1);
    CommittedOnly(cfg, st);
    RestartOk(cfg, Partial(cfg, st, ENV, crash.op, 1), MasterKey(0));
  }

  lemma PointerOf(cfg: Config, st: State)
    requires RunningOk(cfg, st) && |st.db.certs| == 1
    ensures st.db.certs[0].certificate.content.crlCaId == 2
  {
  }

  lemma CommittedOnly(cfg: Config, st: State)
    requires |st.db.certs| == 1 && st.db.certs[0].status == Valid && st.db.revocations == []
    ensures
      var db := Partial(cfg, st, ENV, RevokeOp(1, "key_compromise", Some(1)), 1).db;
      db.certs == [st.db.certs[0].(status := Revoked)] && db.crls == st.db.crls
  {
  }

  /** A process that dies between the two commits of creating the root leaves it without a list. */
  lemma CrashLeavesNoList(cfg: Config, keyFile: Option<MasterKey>)
    ensures Unlisted(Run(cfg, keyFile, [Event(ENV, InitRootOp(ROOT), Some(Crash(1, MasterKey(0))))]).db, 1)
  {
    var e := Event(ENV, InitRootOp(ROOT), Some(Crash(1, MasterKey(0))));
    assert [e][..0] == [];
    var st := Installed(keyFile);
    assert Run(cfg, keyFile, []) == st;
    assert Run(cfg, keyFile, [e]) == After(cfg, st, e);
    hide Run, RunningOk, StoredOk, Restart, RootRow;
    RunOk(cfg, keyFile, []);
    PartialOk(cfg, st, ENV, e.op, 1);
    RestartOk(cfg, Partial(cfg, st, ENV, e.op, 1), MasterKey(0));
  }

  /** A request of user 1 is stored and pending, and nothing has been issued. */
  lemma OnePending(cfg: Config, keyFile: Option<MasterKey>) returns (events: seq<Event>)
    ensures CrashFree(events) && events == SETUP + [Call(SubmitOp(CSR, "web", 1))]
    ensures
      var db := Run(cfg, keyFile, events).db;
      && |db.cas| == 2 && db.certs == []
      && db.requests == [RequestRow(CSR, "web", 1, RequestPending, None, None, None, None)]
  {
    hide Run, Submit;
    events := SETUP + [Call(SubmitOp(CSR, "web", 1))];
    SetupReady(cfg, keyFile);
    RunCall(cfg, keyFile, SETUP, ENV, SubmitOp(CSR, "web", 1));
    Submitted(Run(cfg, keyFile, SETUP));
  }

  lemma Submitted(st: State)
    requires Ready(st)
    ensures
      var db := Submit(st.db, ENV, CSR, "web", 1).0;
      db == st.db.(requests := [RequestRow(CSR, "web", 1, RequestPending, None, None, None, None)])
  {
    assert FindProfile([PROFILE], "web") == Some(PROFILE);
    AcceptedExactly(CSR, PROFILE);
  }

  /**
   A process that dies between the two commits of an approval leaves the certificate and a pending
   request; the next approval issues a second certificate for it.
   */
  lemma CrashIssuesTwice(cfg: Config, keyFile: Option<MasterKey>) returns (events: seq<Event>)
    ensures |events| == 5 && IssuesFor(cfg, keyFile, events, 3, 1) && IssuesFor(cfg, keyFile, events, 4, 1)
    ensures
      var db := Run(cfg, keyFile, events).db;
      && |db.certs| == 2 && |db.requests| == 1 && db.requests[0].certificateId == Some(2)
      && db.certs[0].csr == db.certs[1].csr == CSR && db.certs[0].status == Valid
  {
    hide RunningOk, StoredOk, Restart, Approve, Issue, AsAsked, Approvable, Partial;
    Serials();
    var before := OnePending(cfg, keyFile);
    var crash := Event(ENV, ApproveOp(1, 1, None, DRAWS), Some(Crash(1, MasterKey(0))));
    var again := Call(ApproveOp(1, 1, None, OTHER_DRAWS));
    events := before + [crash] + [again];
    var st := Run(cfg, keyFile, before);
    assert events[..3] == before && events[..4] == before + [crash] && (before + [crash])[..3] == before;
    var mid := Run(cfg, keyFile, before + [crash]);
    assert mid == After(cfg, st, crash);
    assert events[..5] == events && Run(cfg, keyFile, events) == Step(cfg, mid, ENV, again.op);
    hide Run;
    RunOk(cfg, keyFile, before);
    RunOk(cfg, keyFile, before + [crash]);
    FirstApproval(cfg, st);
    PartialOk(cfg, st, ENV, crash.op, 1);
    RestartOk(cfg, Partial(cfg, st, ENV, crash.op, 1), MasterKey(0));
    SecondApproval(cfg, mid);
  }

  lemma FirstApproval(cfg: Config, st: State)
    requires RunningOk(cfg, st) && |st.db.cas| == 2 && st.db.certs == []
    requires st.db.requests == [RequestRow(CSR, "web", 1, RequestPending, None, None, None, None)]
    ensures
      var db := Partial(cfg, st, ENV, ApproveOp(1, 1, None, DRAWS), 1).db;
      && db == st.db.(certs := db.certs) && |db.certs| == 1
      && db.certs[0].csr == CSR && db.certs[0].serialHex == SERIAL && db.certs[0].status == Valid
  {
    hide RunningOk, Issue;
    Serials();
    assert ApprovalArgs(st.db.requests[0], None, DRAWS) == Asking(1, DRAWS);
    Issued(cfg, st, DRAWS);
  }

  lemma SecondApproval(cfg: Config, st: State)
    requires RunningOk(cfg, st) && |st.db.cas| == 2 && |st.db.certs| == 1 && st.db.certs[0].serialHex == SERIAL
    requires st.db.requests == [RequestRow(CSR, "web", 1, RequestPending, None, None, None, None)]
    ensures
      var db := Step(cfg, st, ENV, ApproveOp(1, 1, None, OTHER_DRAWS)).db;
      && |db.certs| == 2 && db.certs[0] == st.db.certs[0] && db.certs[1].csr == CSR
      && |db.requests| == 1 && db.requests[0].certificateId == Some(2)
  {
    hide RunningOk, Issue;
    Serials();
    assert ApprovalArgs(st.db.requests[0], None, OTHER_DRAWS) == Asking(1, OTHER_DRAWS);
    Issued(cfg, st, OTHER_DRAWS);
    assert Issue(st.db, st.vault, ENV, Asking(1, OTHER_DRAWS)).0.certs[..1] == st.db.certs;
  }

  /** A process that dies after a delivery and before its commit tells the owner again. */
  lemma CrashNotifiesTwice(cfg: Config, keyFile: Option<MasterKey>) returns (events: seq<Event>)
    ensures |events| == 5 && ReachedAt(cfg, keyFile, events, 3, 1) && ReachedAt(cfg, keyFile, events, 4, 1)
  {
    hide RunningOk, After, AsAsked;
    var before := OneIssued(cfg, keyFile);
    var tell := NotifyOp(365, {1});
    events := before + [Event(ENV, tell, Some(Crash(0, MasterKey(0))))] + [Call(tell)];
    var st := Run(cfg, keyFile, before);
    assert events[..3] == before && events[..4][..3] == before;
    assert Run(cfg, keyFile, events[..4]) == After(cfg, st, events[3]);
    hide Run;
    RunOk(cfg, keyFile, before);
    NothingStored(cfg, st, events[3]);
    DueSoon(st.db.certs[0]);
  }

  lemma NothingStored(cfg: Config, st: State, e: Event)
    requires RunningOk(cfg, st) && e.crash.Some? && e.crash.value.commits == 0
    ensures After(cfg, st, e).db == st.db
  {
    hide DbOk, Restart;
    RestartOk(cfg, st, e.crash.value.drawn);
  }

  lemma DueSoon(row: CertRow)
    requires AsAsked(row, Asking(1, DRAWS), PROFILE, 0)
    ensures Attempted(row, ENV, 365)
  {
  }

  // ----- When a user is not stored -----

  /** An approval by a reviewer who is not stored fails, but the certificate is out and the request still pending. */
  lemma FailedApprovalLeavesCertificate(cfg: Config, keyFile: Option<MasterKey>)
    ensures
      var st := Run(cfg, keyFile, SETUP + [Call(SubmitOp(CSR, "web", 1))]);
      var (db', r) := Approve(st.db, st.vault, ENV, 1, 2, None, DRAWS);
      && r.Err? && st.db.certs == [] && |db'.certs| == 1
      && db'.requests == st.db.requests && HasId(db'.requests, 1) && db'.requests[0].status == RequestPending
  {
    hide Run, RunningOk, Issue;
    Serials();
    var events := OnePending(cfg, keyFile);
    RunOk(cfg, keyFile, events);
    var st := Run(cfg, keyFile, events);
    Issued(cfg, st, DRAWS);
    assert ApprovalArgs(st.db.requests[0], None, DRAWS) == Asking(1, DRAWS);
  }

  /** For a user who is not stored, allocation reports five collisions against an empty table. */
  lemma AllocationFailsWithoutCollision(cfg: Config, keyFile: Option<MasterKey>)
    ensures
      var st := Run(cfg, keyFile, SETUP);
      st.db.certs == [] && Issue(st.db, st.vault, ENV, Asking(2, DRAWS)).1 == Err(SerialAllocationFailed)
  {
    hide Run, RunningOk, Issue, ChecksPass, HexValue, AsAsked, FirstDraw;
    Serials();
    SetupReady(cfg, keyFile);
    RunOk(cfg, keyFile, SETUP);
    var st := Run(cfg, keyFile, SETUP);
    Passes(st.db, 2, DRAWS);
    LateErrors(st.db, ENV, Asking(2, DRAWS));
    hide FailsWith, Issuable;
    IssuanceOf(cfg, st, ENV, Asking(2, DRAWS));
  }

  // ----- When a serial is zero -----

  const ZERO: Token := "00000000000000000000000000000000"
  const ZERO_DRAWS: Draws := [ZERO, SERIAL, SERIAL, SERIAL, SERIAL]

  lemma {:induction false} ZeroValue(n: nat)
    ensures IsHex(seq(n, _ => '0')) && HexValue(seq(n, _ => '0')) == 0
  {
    if n > 0 {
      ZeroValue(n - 1);
      assert seq(n, _ => '0')[..n - 1] == seq(n - 1, _ => '0');
    }
  }

  /** A drawn serial of zero raises an exception, although the next draw would do. */
  lemma ZeroDrawRaises(cfg: Config, keyFile: Option<MasterKey>)
    ensures
      var st := Run(cfg, keyFile, SETUP);
      Issue(st.db, st.vault, ENV, Asking(1, ZERO_DRAWS)).1 == Err(Uncaught)
  {
    hide Run, RunningOk, Issue, ChecksPass;
    SetupReady(cfg, keyFile);
    RunOk(cfg, keyFile, SETUP);
    var st := Run(cfg, keyFile, SETUP);
    Passes(st.db, 1, ZERO_DRAWS);
    ZeroValue(32);
    assert ZERO == seq(32, _ => '0');
    assert RaisesAt(st.db, ENV, Asking(1, ZERO_DRAWS), PROFILE, 0);
    IssuanceOf(cfg, st, ENV, Asking(1, ZERO_DRAWS));
  }
}
