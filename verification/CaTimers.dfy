/** The scheduler's time bounds: how long the root key is held, and how long a list is valid. */
module CaTimers {
  import opened Wrappers
  import opened Crypto
  import opened CaState
  import opened CaInvariant
  import opened CaMachine
  import opened CaHistory
  import opened CaTheorems
  import opened CaOperations

  /** The clock does not run backwards. */
  predicate Chronological(events: seq<Event>)
  {
    forall i, j :: 0 <= i < j < |events| ==> events[i].env.now <= events[j].env.now
  }

  /** The last relock check, process start or crash, or `start` if there was none. */
  function LastCheck(events: seq<Event>, start: int): int
  {
    if events == [] then start
    else
      var last := events[|events| - 1];
      if last.op.RelockOp? || last.op.RestartOp? || last.crash.Some? then last.env.now
      else LastCheck(events[..|events| - 1], start)
  }

  lemma {:induction false} LastCheckBounds(events: seq<Event>, start: int, t: int)
    requires start <= t && forall i :: 0 <= i < |events| ==> events[i].env.now <= t
    ensures LastCheck(events, start) <= t
  {
    if events != [] {
      LastCheckBounds(events[..|events| - 1], start, t);
    }
  }

  /** Only an unlocking sets the time, to the current one; a check leaves the key in place only within the limit. */
  lemma UnlockedAtStep(cfg: Config, st: State, env: Env, op: Op)
    ensures
      var before, after := st.vault.rootUnlockedAt, Step(cfg, st, env, op).vault.rootUnlockedAt;
      && (after == None || after == Some(env.now) || after == before)
      && (op.RelockOp? && after.Some? ==> env.now - after.value < cfg.relockSeconds)
      && (op.RestartOp? ==> after == None)
  {
  }

  lemma RestartLocks(cfg: Config, st: State, drawn: MasterKey)
    ensures Restart(cfg, st, drawn).vault.rootUnlockedAt == None
  {
  }

  lemma {:induction false} UnlockedSince(cfg: Config, keyFile: Option<MasterKey>, events: seq<Event>, start: int)
    requires Chronological(events) && (forall i :: 0 <= i < |events| ==> start <= events[i].env.now)
    ensures
      var unlocked := Run(cfg, keyFile, events).vault.rootUnlockedAt;
      unlocked.Some? ==>
        LastCheck(events, start) - unlocked.value < cfg.relockSeconds || LastCheck(events, start) <= unlocked.value
  {
    if events != [] {
      var init, last := events[..|events| - 1], events[|events| - 1];
      var st := Run(cfg, keyFile, init);
      UnlockedSince(cfg, keyFile, init, start);
      LastCheckBounds(init, start, last.env.now);
      hide Step, Restart, Partial;
      UnlockedAtStep(cfg, st, last.env, last.op);
      if last.crash.Some? {
        RestartLocks(cfg, Partial(cfg, st, last.env, last.op, last.crash.value.commits), last.crash.value.drawn);
      }
    }
  }

  /** Of all calls only locking, a restart and an expired check take the root key away. */
  lemma StaysUnlockedStep(cfg: Config, st: State, env: Env, op: Op)
    requires st.vault.rootUnlockedAt.Some? && !op.LockOp? && !op.RestartOp?
    requires op.RelockOp? ==> env.now - st.vault.rootUnlockedAt.value < cfg.relockSeconds
    ensures Step(cfg, st, env, op).vault.rootUnlockedAt.Some?
  {
  }

  /** Event m leaves a root key alone that was unlocked at u or later. */
  predicate Spares(cfg: Config, e: Event, u: int)
  {
    && e.crash == None && !e.op.LockOp? && !e.op.RestartOp? && e.env.now >= u
    && (e.op.RelockOp? ==> e.env.now - u < cfg.relockSeconds)
  }

  /** An unlocked root stays so until it is locked, the process ends or a check finds the limit reached. */
  lemma {:induction false} RootKeyStays(cfg: Config, keyFile: Option<MasterKey>, events: seq<Event>, n: nat, u: int)
    requires n <= |events| && forall m :: n <= m < |events| ==> Spares(cfg, events[m], u)
    ensures
      Run(cfg, keyFile, events[..n]).vault.rootUnlockedAt == Some(u) ==>
        var vault := Run(cfg, keyFile, events).vault;
        vault.rootKey.Some? && vault.rootUnlockedAt.Some? && vault.rootUnlockedAt.value >= u
    decreases |events|
  {
    hide RunningOk, Step;
    RunOk(cfg, keyFile, events);
    KeyWithTime(cfg, Run(cfg, keyFile, events));
    if n < |events| {
      var init, last := events[..|events| - 1], events[|events| - 1];
      assert init[..n] == events[..n];
      RootKeyStays(cfg, keyFile, init, n, u);
      var st := Run(cfg, keyFile, init);
      assert Spares(cfg, last, u);
      if st.vault.rootUnlockedAt.Some? && st.vault.rootUnlockedAt.value >= u {
        StaysUnlockedStep(cfg, st, last.env, last.op);
        UnlockedAtStep(cfg, st, last.env, last.op);
      }
    } else {
      assert events[..n] == events;
    }
  }

  lemma KeyWithTime(cfg: Config, st: State)
    requires RunningOk(cfg, st)
    ensures st.vault.rootKey.Some? <==> st.vault.rootUnlockedAt.Some?
  {
  }

  // ----- When the root key is there -----

  lemma NoCaYet(cfg: Config, st: State, env: Env, op: Op, k: nat)
    requires st.db.cas == [] && !op.InitRootOp?
    ensures Step(cfg, st, env, op).db.cas == [] && Partial(cfg, st, env, op, k).db.cas == []
  {
    hide Issue, NotifyFirst, LoadIntermediate, UnlockRoot, IntermediateRow;
  }

  lemma FirstCaIsRoot(cfg: Config, st: State, e: Event)
    requires RunningOk(cfg, st) && st.db.cas == [] && After(cfg, st, e).db.cas != []
    ensures e.op.InitRootOp?
  {
    hide RunningOk, StoredOk, Restart, Step, Partial;
    if !e.op.InitRootOp? {
      NoCaYet(cfg, st, e.env, e.op, if e.crash.Some? then e.crash.value.commits else 0);
      if e.crash.Some? {
        PartialOk(cfg, st, e.env, e.op, e.crash.value.commits);
        RestartOk(cfg, Partial(cfg, st, e.env, e.op, e.crash.value.commits), e.crash.value.drawn);
      }
    }
  }

  /** While there is a root, one event of the run stored it. */
  lemma {:induction false} RootStored(cfg: Config, keyFile: Option<MasterKey>, events: seq<Event>) returns (m: nat)
    requires Run(cfg, keyFile, events).db.cas != []
    ensures RootStoredAt(cfg, keyFile, events, m)
    decreases |events|
  {
    var n := |events| - 1;
    var st := Run(cfg, keyFile, events[..n]);
    assert events[..n + 1] == events;
    if st.db.cas != [] {
      m := RootStored(cfg, keyFile, events[..n]);
      assert events[..n][..m] == events[..m] && events[..n][..m + 1] == events[..m + 1];
    } else {
      m := n;
      assert Run(cfg, keyFile, events) == After(cfg, st, events[n]);
      hide Run, After;
      RunOk(cfg, keyFile, events[..n]);
      FirstCaIsRoot(cfg, st, events[n]);
    }
  }

  /** The passphrase is the one the stored root was created with. */
  ghost predicate RootPassphrase(cfg: Config, keyFile: Option<MasterKey>, events: seq<Event>, passphrase: string)
  {
    exists m: nat :: RootStoredAt(cfg, keyFile, events, m) && events[m].op.root.passphrase == passphrase
  }

  /** The call unlocks the root: with its passphrase, or by creating it. */
  ghost predicate Unlocks(cfg: Config, keyFile: Option<MasterKey>, events: seq<Event>, e: Event)
  {
    match e.op
    case UnlockOp(passphrase) => RootPassphrase(cfg, keyFile, events, passphrase)
    case InitRootOp(root) => Run(cfg, keyFile, events).db.cas == [] && |root.passphrase| >= 12
    case _ => false
  }

  /** The call takes the root key away: by locking, by ending the process, or by a check past the limit. */
  predicate Locks(cfg: Config, vault: Vault, e: Event)
  {
    || e.crash.Some? || e.op.RestartOp? || e.op.LockOp?
    || (e.op.RelockOp? && vault.rootUnlockedAt.Some?
        && e.env.now - vault.rootUnlockedAt.value >= cfg.relockSeconds)
  }

  /** A call to unlock succeeds exactly with the passphrase of the stored root. */
  lemma UnlockingExact(cfg: Config, keyFile: Option<MasterKey>, events: seq<Event>, passphrase: string, now: int)
    ensures
      var st := Run(cfg, keyFile, events);
      var (vault, ok) := UnlockRoot(cfg, st.db, st.vault, passphrase, now);
      && (ok <==> RootPassphrase(cfg, keyFile, events, passphrase))
      && (ok ==> vault.rootKey.Some? && vault.rootUnlockedAt == Some(now))
      && (!ok ==> vault == st.vault)
  {
    var st := Run(cfg, keyFile, events);
    forall m: nat | RootStoredAt(cfg, keyFile, events, m)
      ensures UnlockRoot(cfg, st.db, st.vault, passphrase, now).1 <==> passphrase == events[m].op.root.passphrase
      ensures UnlockRoot(cfg, st.db, st.vault, passphrase, now).1 ==>
                UnlockRoot(cfg, st.db, st.vault, passphrase, now).0.rootKey.Some?
    {
      UnlocksExactly(cfg, keyFile, events, m, cfg, passphrase, now);
    }
    NoRootToUnlock(cfg, st, passphrase, now);
    hide Run, RootStoredAt;
    if st.db.cas != [] {
      var m := RootStored(cfg, keyFile, events);
    }
  }

  lemma NoRootToUnlock(cfg: Config, st: State, passphrase: string, now: int)
    ensures st.db.cas == [] ==> UnlockRoot(cfg, st.db, st.vault, passphrase, now) == (st.vault, false)
  {
  }

  lemma OtherCallsKeepKey(cfg: Config, st: State, e: Event)
    requires e.crash.None? && !Locks(cfg, st.vault, e) && !e.op.UnlockOp? && !e.op.InitRootOp?
    ensures After(cfg, st, e).vault.rootKey == st.vault.rootKey
    ensures After(cfg, st, e).vault.rootUnlockedAt == st.vault.rootUnlockedAt
  {
    hide Issue, Renew, Revoke, Submit, Approve, Reject, RefreshCrls, RefreshCrl;
  }

  lemma LockingForgets(cfg: Config, st: State, e: Event)
    requires Locks(cfg, st.vault, e)
    ensures After(cfg, st, e).vault.rootKey == None && After(cfg, st, e).vault.rootUnlockedAt == None
  {
    hide Partial;
  }

  lemma RootCreationUnlocks(cfg: Config, st: State, root: RootArgs, now: int)
    requires RunningOk(cfg, st)
    ensures
      var vault := InitRoot(cfg, st, root, now).0.vault;
      if st.db.cas == [] && |root.passphrase| >= 12 then vault.rootKey.Some? && vault.rootUnlockedAt == Some(now)
      else vault == st.vault
  {
    hide StoredOk, RefreshCrl, RootRow, RootAsAsked;
    RootSetup(cfg, st, root, now);
  }

  /**
   In every run the root key is in memory exactly from an unlocking, with the passphrase of the root or by
   creating it, to the next locking; the time is that of the last unlocking.
   */
  lemma RootKeyExactly(cfg: Config, keyFile: Option<MasterKey>, events: seq<Event>)
    requires events != []
    ensures
      var init, e := events[..|events| - 1], events[|events| - 1];
      var before, after := Run(cfg, keyFile, init).vault, Run(cfg, keyFile, events).vault;
      if Locks(cfg, before, e) then after.rootKey == None && after.rootUnlockedAt == None
      else if Unlocks(cfg, keyFile, init, e) then after.rootKey.Some? && after.rootUnlockedAt == Some(e.env.now)
      else after.rootKey == before.rootKey && after.rootUnlockedAt == before.rootUnlockedAt
  {
    var init, e := events[..|events| - 1], events[|events| - 1];
    var st := Run(cfg, keyFile, init);
    assert Run(cfg, keyFile, events) == After(cfg, st, e);
    hide Run, Locks, RunningOk;
    RunOk(cfg, keyFile, init);
    if Locks(cfg, st.vault, e) {
      LockingForgets(cfg, st, e);
    } else {
      NotDied(cfg, st.vault, e);
      match e.op
      case UnlockOp(passphrase) =>
        hide UnlockRoot, RootPassphrase;
        UnlockingExact(cfg, keyFile, init, passphrase, e.env.now);
      case InitRootOp(root) =>
        hide InitRoot;
        RootCreationUnlocks(cfg, st, root, e.env.now);
      case _ =>
        hide After;
        OtherCallsKeepKey(cfg, st, e);
    }
  }

  lemma NotDied(cfg: Config, vault: Vault, e: Event)
    requires !Locks(cfg, vault, e)
    ensures e.crash.None?
  {
  }

  // ----- How long it is there -----

  /** The last relock check is at most g before t. */
  predicate Supervised(events: seq<Event>, start: int, t: int, g: int)
  {
    && Chronological(events) && (forall i :: 0 <= i < |events| ==> start <= events[i].env.now)
    && t - LastCheck(events, start) <= g
  }

  predicate HeldBelow(vault: Vault, t: int, bound: int)
  {
    vault.rootKey.Some? && vault.rootUnlockedAt.Some? ==> t - vault.rootUnlockedAt.value < bound
  }

  /**
   The root key is held exactly while its unlocking time is set. With relock checks at gaps of at most
   g it is held for less than the limit plus g after the last unlocking, and for at most g if the limit
   is not positive.
   */
  lemma RootKeyHeldBound(cfg: Config, keyFile: Option<MasterKey>, events: seq<Event>, start: int, t: int, g: int)
    requires Supervised(events, start, t, g)
    ensures
      var vault := Run(cfg, keyFile, events).vault;
      && (vault.rootKey.Some? <==> vault.rootUnlockedAt.Some?)
      && (if cfg.relockSeconds > 0 then HeldBelow(vault, t, cfg.relockSeconds + g) else HeldBelow(vault, t, g + 1))
  {
    UnlockedSince(cfg, keyFile, events, start);
    RunOk(cfg, keyFile, events);
    hide Run, DbOk;
  }

  /** The bound of the limit plus g holds of all runs exactly when the limit is positive. */
  lemma RelockBoundExact(cfg: Config, g: nat)
    ensures cfg.relockSeconds > 0 <==>
              forall keyFile, events, start, t :: Supervised(events, start, t, g) ==>
                HeldBelow(Run(cfg, keyFile, events).vault, t, cfg.relockSeconds + g)
  {
    if cfg.relockSeconds > 0 {
      forall keyFile, events, start, t | Supervised(events, start, t, g)
        ensures HeldBelow(Run(cfg, keyFile, events).vault, t, cfg.relockSeconds + g)
      {
        RootKeyHeldBound(cfg, keyFile, events, start, t, g);
      }
    } else {
      var root := RootArgs("Root", None, "twelve chars", 1, 1, 1, 1);
      var events := [Event(Env([], {}, {}, 0), InitRootOp(root), None)];
      UnlockedAtZero(cfg, root);
      assert LastCheck(events, 0) == LastCheck(events[..0], 0) == 0;
      assert Supervised(events, 0, g, g);
      hide Run, HeldBelow;
      assert !HeldBelow(Run(cfg, None, events).vault, g, cfg.relockSeconds + g);
    }
  }

  lemma UnlockedAtZero(cfg: Config, root: RootArgs)
    requires |root.passphrase| >= 12
    ensures
      var vault := Run(cfg, None, [Event(Env([], {}, {}, 0), InitRootOp(root), None)]).vault;
      vault.rootKey.Some? && vault.rootUnlockedAt == Some(0)
  {
    var env := Env([], {}, {}, 0);
    var events := [Event(env, InitRootOp(root), None)];
    assert [] + events == events;
    RunCall(cfg, None, [], env, InitRootOp(root));
    UnlockedAtStep(cfg, Installed(None), env, InitRootOp(root));
    RunOk(cfg, None, events);
    hide DbOk, InitRoot;
    SetupExactly(cfg, None, [], root, IntermediateArgs("", None, 0, 0, 0, MasterKey(0)), 0);
  }

  /** Thirty days from publication on, for as long as no newer list is out. */
  predicate ListedSince(db: Db, t: int)
  {
    var lists := CrlsOf(db.crls, 2);
    lists != [] && lists[|lists| - 1].thisUpdate >= t
  }

  lemma {:induction false} ListedStays(crls: seq<CrlRow>, crls': seq<CrlRow>, now: int, t: int)
    requires crls <= crls' && Published(crls, crls', now) && now >= t
    requires
      var lists := CrlsOf(crls, 2);
      lists != [] && lists[|lists| - 1].thisUpdate >= t
    ensures
      var lists := CrlsOf(crls', 2);
      lists != [] && lists[|lists| - 1].thisUpdate >= t
    decreases |crls'|
  {
    if |crls| < |crls'| {
      ListedStays(crls, crls'[..|crls'| - 1], now, t);
    } else {
      assert crls == crls';
    }
  }

  /** Event m is a completed refresh of all lists while the intermediate exists. */
  predicate RefreshedAt(cfg: Config, keyFile: Option<MasterKey>, events: seq<Event>, m: nat)
  {
    && m < |events| && events[m].op == RefreshOp && events[m].crash == None
    && |Run(cfg, keyFile, events[..m]).db.cas| == 2
  }

  lemma RefreshLists(cfg: Config, st: State, now: int)
    requires RunningOk(cfg, st) && |st.db.cas| == 2
    ensures ListedSince(RefreshCrls(st.db, st.vault, 2, now), now)
  {
    HierarchyOf(cfg, st);
    hide DbOk;
    var before := RefreshCrls(st.db, st.vault, 1, now);
    RefreshAllGrows(st.db, st.vault, 1, now);
    assert before.cas[1] == st.db.cas[1].(crlNumber := before.cas[1].crlNumber);
    assert CanPublish(before, st.vault, 2);
    CrlsOfAppend(before.crls, NextCrl(before, st.vault, 2, now), 2);
  }

  lemma ListedAtRefresh(cfg: Config, keyFile: Option<MasterKey>, events: seq<Event>)
    requires events != [] && RefreshedAt(cfg, keyFile, events, |events| - 1)
    ensures ListedSince(Run(cfg, keyFile, events).db, events[|events| - 1].env.now)
  {
    var init, last := events[..|events| - 1], events[|events| - 1];
    var st := Run(cfg, keyFile, init);
    RunOk(cfg, keyFile, init);
    assert Run(cfg, keyFile, events) == Step(cfg, st, last.env, RefreshOp);
    hide RunningOk, Step, Run;
    RefreshLists(cfg, st, last.env.now);
    RefreshStep(cfg, st, last.env);
  }

  lemma ListedStep(cfg: Config, st: State, e: Event, t: int)
    requires RunningOk(cfg, st) && ListedSince(st.db, t) && e.env.now >= t
    ensures ListedSince(After(cfg, st, e).db, t)
  {
    hide RunningOk, After, Published, CrlsOf;
    AfterPublishes(cfg, st, e);
    AfterEvolves(cfg, st, e);
    ListedStays(st.db.crls, After(cfg, st, e).db.crls, e.env.now, t);
  }

  lemma {:induction false} ListedAfter(cfg: Config, keyFile: Option<MasterKey>, events: seq<Event>, m: nat)
    requires Chronological(events) && m < |events|
    ensures RefreshedAt(cfg, keyFile, events, m) ==> ListedSince(Run(cfg, keyFile, events).db, events[m].env.now)
    decreases |events|
  {
    if !RefreshedAt(cfg, keyFile, events, m) {
    } else if m == |events| - 1 {
      ListedAtRefresh(cfg, keyFile, events);
    } else {
      hide RunningOk, After, ListedSince;
      var init, last := events[..|events| - 1], events[|events| - 1];
      assert init[..m] == events[..m];
      ListedAfter(cfg, keyFile, init, m);
      RunOk(cfg, keyFile, init);
      ListedStep(cfg, Run(cfg, keyFile, init), last, events[m].env.now);
    }
  }

  lemma RefreshStep(cfg: Config, st: State, env: Env)
    ensures Step(cfg, st, env, RefreshOp).db == RefreshCrls(st.db, st.vault, |st.db.cas|, env.now)
  {
  }

  /**
   If the last completed refresh is at most g ago, the intermediate's served list is valid for at least
   another thirty days less g, whatever crashed or restarted since.
   */
  lemma ListValidityBound(cfg: Config, keyFile: Option<MasterKey>, events: seq<Event>, m: nat, t: int, g: int)
    requires Chronological(events) && m < |events| && t - events[m].env.now <= g
    ensures
      RefreshedAt(cfg, keyFile, events, m) ==>
        var served := ServedCrl(Run(cfg, keyFile, events).db.crls, 2);
        && served.Some?
        && served.value.nextUpdate == served.value.crl.content.nextUpdate
        && served.value.nextUpdate - t >= 30 * 86400 - g
  {
    hide Run, RunningOk, RefreshedAt, ListedSince;
    if RefreshedAt(cfg, keyFile, events, m) {
      ListedAfter(cfg, keyFile, events, m);
      RunOk(cfg, keyFile, events);
      IntermediateStays(cfg, keyFile, events, m);
      ListedLongEnough(cfg, Run(cfg, keyFile, events), events[m].env.now);
    }
  }

  lemma IntermediateStays(cfg: Config, keyFile: Option<MasterKey>, events: seq<Event>, m: nat)
    requires RefreshedAt(cfg, keyFile, events, m)
    ensures |Run(cfg, keyFile, events).db.cas| == 2
  {
    hide Run, DbOk, VaultOk, RowEvolves, RequestsGrow;
    NothingUndone(cfg, keyFile, events, m);
    RunOk(cfg, keyFile, events);
    HierarchyOf(cfg, Run(cfg, keyFile, events));
  }

  lemma ListedLongEnough(cfg: Config, st: State, since: int)
    requires RunningOk(cfg, st) && |st.db.cas| == 2 && ListedSince(st.db, since)
    ensures
      var served := ServedCrl(st.db.crls, 2);
      && served.Some?
      && served.value.nextUpdate == served.value.crl.content.nextUpdate
      && served.value.nextUpdate >= since + 30 * 86400
  {
    hide RunningOk;
    HierarchyOf(cfg, st);
    ListsOf(cfg, st, 2);
    var lists := CrlsOf(st.db.crls, 2);
    assert CrlRowOk(lists[|lists| - 1], st.db.cas[1], 2, |lists| - 1, Entries(st.db.certs, st.db.revocations, 2));
  }
}
