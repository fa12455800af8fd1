/**
 The log-forwarding queue as a machine of small steps: any number of threads producing application
 log records and audit events, one worker taking events out, and the settings page changing the
 cached configuration in between.

 The steps of one thread are those of `_enqueue` and of the logging handler around it. Two locks
 matter: `_dropped_lock`, which is not re-entrant, and the lock every `logging.Handler` takes around
 `emit`, which is. The warning about dropped events is logged while `_dropped_lock` is held, so it
 re-enters the handler and, through it, `_enqueue`.
 */
module LogQueue {
  import opened Wrappers

  const MAX_QUEUE := 2000
  const WORKER: Tid := 0

  type Tid = nat

  datatype Level = Debug | Info | Warning | Error | Critical

  function LevelNo(level: Level): nat
  {
    match level
    case Debug => 10
    case Info => 20
    case Warning => 30
    case Error => 40
    case Critical => 50
  }

  datatype Config = Config(hecEnabled: bool, syslogEnabled: bool, minLevel: Level)

  predicate Forwards(config: Option<Config>)
  {
    config.Some? && (config.value.hecEnabled || config.value.syslogEnabled)
  }

  predicate Passes(config: Option<Config>, level: Level)
  {
    Forwards(config) && LevelNo(level) >= LevelNo(config.value.minLevel)
  }

  datatype Event = AppRecord(id: nat) | AuditEvent(id: nat) | DropWarning(count: nat)

  /** Which call is on the stack: a logging call, which holds the handler lock, or an audit call. */
  datatype Caller = App | Audit

  datatype Pc =
    | Idle
    | AppLock(event: Event, level: Level)      // about to take the handler lock
    | AppCheck(event: Event, level: Level)     // in enqueue_app_log
    | Check(caller: Caller, event: Event)      // in _enqueue, before the configuration test
    | Put(caller: Caller, event: Event)        // before put_nowait
    | WaitDrop(caller: Caller)                 // queue full; about to take _dropped_lock
    | Count(caller: Caller)                    // _dropped_lock taken
    | WarnLock(caller: Caller)                 // logging the warning: about to take the handler lock
    | WarnCheck(caller: Caller)                // the warning in enqueue_app_log
    | WarnRecheck(caller: Caller, seen: Config)
    | WarnPut(caller: Caller, seen: Config)
    | WarnWait(caller: Caller, seen: Config)   // queue full again; about to take _dropped_lock again
    | WarnUnlock(caller: Caller)               // giving the handler lock back
    | DropUnlock(caller: Caller)               // giving _dropped_lock back
    | Return(caller: Caller)

  datatype State = State(
    queue: seq<Event>,
    dropped: nat,
    dropLock: Option<Tid>,
    handlerLock: Option<Tid>,
    config: Option<Config>,
    pcs: map<Tid, Pc>,
    taken: seq<Event>,       // history: what the worker has taken
    accepted: seq<Event>,    // history: what the queue has accepted
    offered: nat             // history: how often put_nowait was called
  )

  datatype Action =
    | LogRecord(t: Tid, id: nat, level: Level)
    | LogAudit(t: Tid, id: nat)
    | Advance(t: Tid)
    | Take
    | Configure(config: Config)

  function Init(threads: set<Tid>): State
  {
    State([], 0, None, None, None, map t | t in threads :: Idle, [], [], 0)
  }

  // ----- Steps -----

  function At(s: State, t: Tid, pc: Pc): State
  {
    s.(pcs := s.pcs[t := pc])
  }

  function PutNowait(s: State, event: Event): State
  {
    var counted := s.(offered := s.offered + 1);
    if |s.queue| < MAX_QUEUE
    then counted.(queue := s.queue + [event], accepted := s.accepted + [event])
    else counted
  }

  /** The next step of thread t, or None while it is idle or waits for a lock. */
  function Next(s: State, t: Tid): Option<State>
    requires t in s.pcs
  {
    var full := |s.queue| >= MAX_QUEUE;
    match s.pcs[t]
    case Idle => None
    case AppLock(event, level) =>
      if s.handlerLock.Some? then None
      else Some(At(s.(handlerLock := Some(t)), t, AppCheck(event, level)))
    case AppCheck(event, level) =>
      Some(At(s, t, if Passes(s.config, level) then Check(App, event) else Return(App)))
    case Check(caller, event) =>
      Some(At(s, t, if Forwards(s.config) then Put(caller, event) else Return(caller)))
    case Put(caller, event) =>
      Some(At(PutNowait(s, event), t, if full then WaitDrop(caller) else Return(caller)))
    case WaitDrop(caller) =>
      if s.dropLock.Some? then None
      else Some(At(s.(dropLock := Some(t)), t, Count(caller)))
    case Count(caller) =>
      var n := s.dropped + 1;
      Some(At(s.(dropped := n), t, if n % 100 == 1 then WarnLock(caller) else DropUnlock(caller)))
    case WarnLock(caller) =>
      if s.handlerLock.Some? && s.handlerLock != Some(t) then None
      else Some(At(s.(handlerLock := Some(t)), t, WarnCheck(caller)))
    case WarnCheck(caller) =>
      Some(At(s, t, if Passes(s.config, Warning) then WarnRecheck(caller, s.config.value) else WarnUnlock(caller)))
    case WarnRecheck(caller, seen) =>
      Some(At(s, t, if Forwards(s.config) then WarnPut(caller, seen) else WarnUnlock(caller)))
    case WarnPut(caller, seen) =>
      Some(At(PutNowait(s, DropWarning(s.dropped)), t, if full then WarnWait(caller, seen) else WarnUnlock(caller)))
    case WarnWait(caller, seen) =>
      if s.dropLock.Some? then None
      else Some(At(s.(dropLock := Some(t)), t, Count(caller)))
    case WarnUnlock(caller) =>
      Some(At(if caller == App then s else s.(handlerLock := None), t, DropUnlock(caller)))
    case DropUnlock(caller) =>
      Some(At(s.(dropLock := None), t, Return(caller)))
    case Return(caller) =>
      Some(At(if caller == App then s.(handlerLock := None) else s, t, Idle))
  }

  /** One action of the whole process, or None where it cannot happen. */
  function Do(s: State, a: Action): Option<State>
  {
    match a
    case LogRecord(t, id, level) =>
      if t in s.pcs && s.pcs[t] == Idle then Some(At(s, t, AppLock(AppRecord(id), level))) else None
    case LogAudit(t, id) =>
      if t in s.pcs && s.pcs[t] == Idle then Some(At(s, t, Check(Audit, AuditEvent(id)))) else None
    case Advance(t) =>
      if t in s.pcs then Next(s, t) else None
    case Take =>
      if WORKER in s.pcs && s.pcs[WORKER] == Idle && s.queue != []
      then Some(s.(queue := s.queue[1..], taken := s.taken + [s.queue[0]]))
      else None
    case Configure(config) => Some(s.(config := Some(config)))
  }

  function Exec(s: State, actions: seq<Action>): Option<State>
    decreases |actions|
  {
    if actions == [] then Some(s)
    else
      match Exec(s, actions[..|actions| - 1])
      case None => None
      case Some(mid) => Do(mid, actions[|actions| - 1])
  }

  ghost predicate Leads(s: State, s': State)
  {
    exists actions :: Exec(s, actions) == Some(s')
  }

  ghost predicate Reachable(s: State)
  {
    exists threads: set<Tid> :: Leads(Init(threads), s)
  }

  // ----- The invariant -----

  predicate HoldsDrop(pc: Pc)
  {
    || pc.Count? || pc.WarnLock? || pc.WarnCheck? || pc.WarnRecheck? || pc.WarnPut? || pc.WarnWait?
    || pc.WarnUnlock? || pc.DropUnlock?
  }

  predicate HoldsHandler(pc: Pc)
  {
    || pc.AppCheck? || pc.WarnCheck? || pc.WarnRecheck? || pc.WarnPut? || pc.WarnWait? || pc.WarnUnlock?
    || ((pc.Check? || pc.Put? || pc.WaitDrop? || pc.Count? || pc.WarnLock? || pc.DropUnlock? || pc.Return?)
        && pc.caller == App)
  }

  /** Inside the logging call that reports drops. */
  predicate Warns(pc: Pc)
  {
    pc.WarnLock? || pc.WarnCheck? || pc.WarnRecheck? || pc.WarnPut? || pc.WarnWait? || pc.WarnUnlock?
  }

  /** The queue refused this thread's event and the drop is not counted yet. */
  predicate Uncounted(pc: Pc)
  {
    pc.WaitDrop? || pc.Count? || pc.WarnWait?
  }

  function UncountedThreads(pcs: map<Tid, Pc>): set<Tid>
  {
    set t | t in pcs && Uncounted(pcs[t])
  }

  ghost predicate QueueOk(s: State)
  {
    && |s.queue| <= MAX_QUEUE
    && s.accepted == s.taken + s.queue
    && s.offered == |s.taken| + |s.queue| + s.dropped + |UncountedThreads(s.pcs)|
  }

  /** The locks and the drop count agree with where thread t is. */
  predicate ThreadOk(s: State, t: Tid)
    requires t in s.pcs
  {
    var pc := s.pcs[t];
    && (HoldsDrop(pc) <==> s.dropLock == Some(t))
    && (HoldsHandler(pc) <==> s.handlerLock == Some(t))
    && (Warns(pc) ==> s.dropped % 100 == 1)
    && (pc.WarnRecheck? || pc.WarnPut? || pc.WarnWait? ==> Passes(Some(pc.seen), Warning))
  }

  ghost predicate ThreadsOk(s: State)
  {
    && (s.dropLock.Some? ==> s.dropLock.value in s.pcs)
    && (s.handlerLock.Some? ==> s.handlerLock.value in s.pcs)
    && (forall t :: t in s.pcs ==> ThreadOk(s, t))
  }

  ghost predicate Inv(s: State)
  {
    QueueOk(s) && ThreadsOk(s)
  }

  lemma UncountedUpdate(pcs: map<Tid, Pc>, t: Tid, pc: Pc)
    requires t in pcs
    ensures |UncountedThreads(pcs[t := pc])| ==
            |UncountedThreads(pcs)| - (if Uncounted(pcs[t]) then 1 else 0) + (if Uncounted(pc) then 1 else 0)
  {
    var rest := UncountedThreads(pcs) - {t};
    assert UncountedThreads(pcs) == if Uncounted(pcs[t]) then rest + {t} else rest;
    assert UncountedThreads(pcs[t := pc]) == if Uncounted(pc) then rest + {t} else rest;
  }

  /** What a step of t does to the locks: it owns a lock afterwards exactly where its program counter says so. */
  predicate LockMoves(before: Option<Tid>, after: Option<Tid>, held: bool, holds: bool, t: Tid)
  {
    if holds then after == Some(t) && (before == None || before == Some(t))
    else if held then after == None
    else after == before
  }

  lemma AdvanceLocks(s: State, t: Tid)
    requires t in s.pcs && ThreadOk(s, t) && Next(s, t).Some?
    ensures
      var s' := Next(s, t).value;
      && s'.pcs == s.pcs[t := s'.pcs[t]]
      && LockMoves(s.dropLock, s'.dropLock, HoldsDrop(s.pcs[t]), HoldsDrop(s'.pcs[t]), t)
      && LockMoves(s.handlerLock, s'.handlerLock, HoldsHandler(s.pcs[t]), HoldsHandler(s'.pcs[t]), t)
  {
  }

  lemma AdvanceCounts(s: State, t: Tid)
    requires t in s.pcs && ThreadOk(s, t) && |s.queue| <= MAX_QUEUE && Next(s, t).Some?
    ensures
      var s' := Next(s, t).value;
      && s'.taken == s.taken && |s'.queue| <= MAX_QUEUE
      && ((s'.queue == s.queue && s'.accepted == s.accepted)
          || exists e :: s'.queue == s.queue + [e] && s'.accepted == s.accepted + [e])
      && s'.offered - |s'.queue| - s'.dropped - (if Uncounted(s'.pcs[t]) then 1 else 0) ==
         s.offered - |s.queue| - s.dropped - (if Uncounted(s.pcs[t]) then 1 else 0)
      && (s'.dropped == s.dropped || s.dropLock == Some(t))
  {
  }

  lemma AdvanceWarns(s: State, t: Tid)
    requires t in s.pcs && ThreadOk(s, t) && Next(s, t).Some?
    ensures
      var s' := Next(s, t).value;
      && (Warns(s'.pcs[t]) ==> s'.dropped % 100 == 1)
      && (s'.pcs[t].WarnRecheck? || s'.pcs[t].WarnPut? || s'.pcs[t].WarnWait? ==> Passes(Some(s'.pcs[t].seen), Warning))
  {
  }

  lemma AdvanceKeepsInv(s: State, t: Tid)
    requires Inv(s) && t in s.pcs && Next(s, t).Some?
    ensures Inv(Next(s, t).value)
  {
    var s' := Next(s, t).value;
    AdvanceLocks(s, t);
    AdvanceCounts(s, t);
    AdvanceWarns(s, t);
    UncountedUpdate(s.pcs, t, s'.pcs[t]);
    forall u | u in s'.pcs
      ensures ThreadOk(s', u)
    {
      assert u != t ==> s'.pcs[u] == s.pcs[u] && ThreadOk(s, u);
    }
  }

  lemma DoKeepsInv(s: State, a: Action)
    requires Inv(s) && Do(s, a).Some?
    ensures Inv(Do(s, a).value)
  {
    match a
    case LogRecord(t, id, level) =>
      UncountedUpdate(s.pcs, t, AppLock(AppRecord(id), level));
    case LogAudit(t, id) =>
      UncountedUpdate(s.pcs, t, Check(Audit, AuditEvent(id)));
    case Advance(t) =>
      AdvanceKeepsInv(s, t);
    case Take =>
      assert s.queue == [s.queue[0]] + s.queue[1..];
    case Configure(config) =>
  }

  lemma {:induction false} ExecKeepsInv(s: State, actions: seq<Action>)
    requires Inv(s) && Exec(s, actions).Some?
    ensures Inv(Exec(s, actions).value)
    decreases |actions|
  {
    if actions != [] {
      ExecKeepsInv(s, actions[..|actions| - 1]);
      DoKeepsInv(Exec(s, actions[..|actions| - 1]).value, actions[|actions| - 1]);
    }
  }

  lemma ReachableInv(s: State)
    requires Reachable(s)
    ensures Inv(s)
  {
    var threads: set<Tid> :| Leads(Init(threads), s);
    var actions :| Exec(Init(threads), actions) == Some(s);
    assert UncountedThreads(Init(threads).pcs) == {};
    ExecKeepsInv(Init(threads), actions);
  }

  /** Nothing is lost uncounted, the queue is bounded, and what was taken and queued is what was accepted, in order. */
  lemma Conservation(s: State)
    requires Reachable(s)
    ensures s.offered == |s.taken| + |s.queue| + s.dropped + |UncountedThreads(s.pcs)|
    ensures |s.queue| <= 2000
    ensures s.accepted == s.taken + s.queue
  {
    ReachableInv(s);
  }

  // ----- One call on its own -----

  predicate AtLeast(level: Level, least: Level)
  {
    match least
    case Debug => true
    case Info => level != Debug
    case Warning => level == Warning || level == Error || level == Critical
    case Error => level == Error || level == Critical
    case Critical => level == Critical
  }

  /** The numbers of the levels are in the order of their severity. */
  lemma LevelsExact(a: Level, b: Level)
    ensures LevelNo(a) >= LevelNo(b) <==> AtLeast(a, b)
  {
  }

  /** Thread t alone takes n steps. */
  function Turns(s: State, t: Tid, n: nat): Option<State>
  {
    if n == 0 then Some(s)
    else
      var before := Turns(s, t, n - 1);
      if before.Some? then Do(before.value, Advance(t)) else None
  }

  lemma {:induction false} TurnsThen(s: State, t: Tid, n: nat)
    requires Do(s, Advance(t)).Some?
    ensures Turns(s, t, n + 1) == Turns(Do(s, Advance(t)).value, t, n)
  {
    hide Do;
    if n > 0 {
      TurnsThen(s, t, n - 1);
    } else {
      assert Turns(s, t, 0) == Some(s);
    }
  }

  /** Somewhere events are sent to. */
  predicate SendsOn(config: Option<Config>)
  {
    match config
    case None => false
    case Some(Config(hec, syslog, _)) => hec || syslog
  }

  /** The state with one more event in the queue. */
  function WithEvent(s: State, event: Event): State
  {
    s.(queue := s.queue + [event], accepted := s.accepted + [event], offered := s.offered + 1)
  }

  /** The state with one more drop counted. */
  function WithDrop(s: State): State
  {
    s.(offered := s.offered + 1, dropped := s.dropped + 1)
  }

  /** The caller's lock is given back. */
  function Released(s: State, caller: Caller): State
  {
    if caller == App then s.(handlerLock := None) else s
  }

  /** One step leads from one place to the next. */
  predicate Turn(s: State, t: Tid, pc: Pc, s': State, pc': Pc)
  {
    Do(At(s, t, pc), Advance(t)) == Some(At(s', t, pc'))
  }

  lemma AtTwice(s: State, t: Tid, pc: Pc, pc': Pc)
    ensures At(At(s, t, pc), t, pc') == At(s, t, pc')
  {
    assert s.pcs[t := pc][t := pc'] == s.pcs[t := pc'];
  }

  lemma TurnCheck(s: State, t: Tid, caller: Caller, event: Event)
    ensures Turn(s, t, Check(caller, event), s, if SendsOn(s.config) then Put(caller, event) else Return(caller))
  {
    AtTwice(s, t, Check(caller, event), if SendsOn(s.config) then Put(caller, event) else Return(caller));
  }

  lemma TurnPut(s: State, t: Tid, caller: Caller, event: Event)
    ensures |s.queue| < 2000 ==> Turn(s, t, Put(caller, event), WithEvent(s, event), Return(caller))
    ensures |s.queue| >= 2000 ==> Turn(s, t, Put(caller, event), s.(offered := s.offered + 1), WaitDrop(caller))
  {
    AtTwice(s, t, Put(caller, event), if |s.queue| < 2000 then Return(caller) else WaitDrop(caller));
  }

  lemma TurnWait(s: State, t: Tid, caller: Caller)
    requires s.dropLock == None
    ensures Turn(s, t, WaitDrop(caller), s.(dropLock := Some(t)), Count(caller))
  {
    AtTwice(s, t, WaitDrop(caller), Count(caller));
  }

  lemma TurnCount(s: State, t: Tid, caller: Caller)
    requires s.dropped % 100 != 0
    ensures Turn(s, t, Count(caller), s.(dropped := s.dropped + 1), DropUnlock(caller))
  {
    AtTwice(s, t, Count(caller), DropUnlock(caller));
  }

  lemma TurnUnlock(s: State, t: Tid, caller: Caller)
    ensures Turn(s, t, DropUnlock(caller), s.(dropLock := None), Return(caller))
  {
    AtTwice(s, t, DropUnlock(caller), Return(caller));
  }

  lemma TurnReturn(s: State, t: Tid, caller: Caller)
    ensures Turn(s, t, Return(caller), Released(s, caller), Idle)
  {
    AtTwice(s, t, Return(caller), Idle);
  }

  lemma TurnHandler(s: State, t: Tid, event: Event, level: Level)
    requires s.handlerLock == None
    ensures Turn(s, t, AppLock(event, level), s.(handlerLock := Some(t)), AppCheck(event, level))
  {
    AtTwice(s, t, AppLock(event, level), AppCheck(event, level));
  }

  lemma TurnFilter(s: State, t: Tid, event: Event, level: Level)
    ensures
      var passes := SendsOn(s.config) && AtLeast(level, s.config.value.minLevel);
      Turn(s, t, AppCheck(event, level), s, if passes then Check(App, event) else Return(App))
  {
    if SendsOn(s.config) {
      LevelsExact(level, s.config.value.minLevel);
    }
    var passes := SendsOn(s.config) && AtLeast(level, s.config.value.minLevel);
    AtTwice(s, t, AppCheck(event, level), if passes then Check(App, event) else Return(App));
  }

  lemma TurnFirst(s: State, t: Tid, pc: Pc, s': State, pc': Pc, n: nat)
    requires Turn(s, t, pc, s', pc')
    ensures Turns(At(s, t, pc), t, n + 1) == Turns(At(s', t, pc'), t, n)
  {
    hide Do, At;
    TurnsThen(At(s, t, pc), t, n);
  }

  lemma ReturnAlone(s: State, t: Tid, caller: Caller)
    ensures Turns(At(s, t, Return(caller)), t, 1) == Some(At(Released(s, caller), t, Idle))
  {
    hide At;
    TurnReturn(s, t, caller);
    TurnFirst(s, t, Return(caller), Released(s, caller), Idle, 0);
  }

  /** A drop that is not reported is counted, and no more. */
  lemma CountAlone(s: State, t: Tid, caller: Caller)
    requires s.dropLock == None && s.dropped % 100 != 0
    ensures Turns(At(s, t, WaitDrop(caller)), t, 4) == Some(At(Released(s.(dropped := s.dropped + 1), caller), t, Idle))
  {
    hide At, Turns, Turn, Released;
    var locked := s.(dropLock := Some(t));
    var counted := locked.(dropped := s.dropped + 1);
    TurnWait(s, t, caller);
    TurnCount(locked, t, caller);
    TurnUnlock(counted, t, caller);
    TurnFirst(s, t, WaitDrop(caller), locked, Count(caller), 3);
    TurnFirst(locked, t, Count(caller), counted, DropUnlock(caller), 2);
    TurnFirst(counted, t, DropUnlock(caller), s.(dropped := s.dropped + 1), Return(caller), 1);
    ReturnAlone(s.(dropped := s.dropped + 1), t, caller);
  }

  /** An offered event is queued while there is room, and else counted as dropped. */
  lemma OfferAlone(s: State, t: Tid, caller: Caller, event: Event)
    requires SendsOn(s.config)
    ensures |s.queue| < 2000 ==>
              Turns(At(s, t, Check(caller, event)), t, 3) == Some(At(Released(WithEvent(s, event), caller), t, Idle))
    ensures |s.queue| >= 2000 && s.dropLock == None && s.dropped % 100 != 0 ==>
              Turns(At(s, t, Check(caller, event)), t, 6) == Some(At(Released(WithDrop(s), caller), t, Idle))
  {
    hide At, Turns, Turn, Released;
    TurnCheck(s, t, caller, event);
    TurnPut(s, t, caller, event);
    TurnFirst(s, t, Check(caller, event), s, Put(caller, event), 2);
    TurnFirst(s, t, Check(caller, event), s, Put(caller, event), 5);
    if |s.queue| < 2000 {
      TurnFirst(s, t, Put(caller, event), WithEvent(s, event), Return(caller), 1);
      ReturnAlone(WithEvent(s, event), t, caller);
    } else if s.dropLock == None && s.dropped % 100 != 0 {
      TurnFirst(s, t, Put(caller, event), s.(offered := s.offered + 1), WaitDrop(caller), 4);
      CountAlone(s.(offered := s.offered + 1), t, caller);
    }
  }

  lemma FilterAlone(s: State, t: Tid, event: Event, level: Level, n: nat)
    requires s.handlerLock == None
    ensures
      var passes := SendsOn(s.config) && AtLeast(level, s.config.value.minLevel);
      Turns(At(s, t, AppLock(event, level)), t, n + 2) ==
        Turns(At(s.(handlerLock := Some(t)), t, if passes then Check(App, event) else Return(App)), t, n)
  {
    var locked := s.(handlerLock := Some(t));
    var pc := if SendsOn(s.config) && AtLeast(level, s.config.value.minLevel) then Check(App, event) else Return(App);
    hide At, Turns, Turn, AtLeast, SendsOn;
    TurnHandler(s, t, event, level);
    TurnFilter(locked, t, event, level);
    TurnFirst(s, t, AppLock(event, level), locked, AppCheck(event, level), n + 1);
    TurnFirst(locked, t, AppCheck(event, level), locked, pc, n);
  }

  /**
   A record logged on its own is queued exactly if events are sent on somewhere and its level is at least
   the configured one; otherwise the call changes nothing. On a full queue it is counted as dropped.
   */
  lemma RecordAlone(s: State, t: Tid, id: nat, level: Level)
    requires t in s.pcs && s.pcs[t] == Idle && s.handlerLock == None
    ensures
      var called := Do(s, LogRecord(t, id, level));
      var passes := SendsOn(s.config) && AtLeast(level, s.config.value.minLevel);
      && called.Some?
      && (passes && |s.queue| < 2000 ==> Turns(called.value, t, 5) == Some(WithEvent(s, AppRecord(id))))
      && (passes && |s.queue| >= 2000 && s.dropLock == None && s.dropped % 100 != 0 ==>
            Turns(called.value, t, 8) == Some(WithDrop(s)))
      && (!passes ==> Turns(called.value, t, 3) == Some(s))
  {
    var event := AppRecord(id);
    var locked := s.(handlerLock := Some(t));
    var passes := SendsOn(s.config) && AtLeast(level, s.config.value.minLevel);
    hide At, Turns, AtLeast, SendsOn;
    assert Do(s, LogRecord(t, id, level)) == Some(At(s, t, AppLock(event, level)));
    hide Do;
    ReleasedAgain(s, t, event);
    hide Released, WithEvent, WithDrop;
    BackHome(s, t);
    if !passes {
      FilterAlone(s, t, event, level, 1);
      ReturnAlone(locked, t, App);
    } else if |s.queue| < 2000 {
      FilterAlone(s, t, event, level, 3);
      OfferAlone(locked, t, App, event);
    } else if s.dropLock == None && s.dropped % 100 != 0 {
      FilterAlone(s, t, event, level, 6);
      OfferAlone(locked, t, App, event);
    }
  }

  lemma ReleasedAgain(s: State, t: Tid, event: Event)
    requires t in s.pcs && s.pcs[t] == Idle && s.handlerLock == None
    ensures
      var locked := s.(handlerLock := Some(t));
      && Released(locked, App) == s
      && At(Released(WithEvent(locked, event), App), t, Idle) == WithEvent(s, event)
      && At(Released(WithDrop(locked), App), t, Idle) == WithDrop(s)
  {
    BackHome(s, t);
  }

  lemma BackHome(s: State, t: Tid)
    requires t in s.pcs && s.pcs[t] == Idle
    ensures At(s, t, Idle) == s
  {
    assert s.pcs[t := Idle] == s.pcs;
  }

  /** An audit event is not filtered by level: it is queued exactly if events are sent on somewhere. */
  lemma AuditAlone(s: State, t: Tid, id: nat)
    requires t in s.pcs && s.pcs[t] == Idle
    ensures
      var called := Do(s, LogAudit(t, id));
      && called.Some?
      && (SendsOn(s.config) && |s.queue| < 2000 ==> Turns(called.value, t, 3) == Some(WithEvent(s, AuditEvent(id))))
      && (SendsOn(s.config) && |s.queue| >= 2000 && s.dropLock == None && s.dropped % 100 != 0 ==>
            Turns(called.value, t, 6) == Some(WithDrop(s)))
      && (!SendsOn(s.config) ==> Turns(called.value, t, 2) == Some(s))
  {
    var event := AuditEvent(id);
    assert Do(s, LogAudit(t, id)) == Some(At(s, t, Check(Audit, event)));
    BackHome(s, t);
    BackHome(WithEvent(s, event), t);
    BackHome(WithDrop(s), t);
    hide Do, At, Turns, Turn, SendsOn;
    if SendsOn(s.config) {
      OfferAlone(s, t, Audit, event);
    } else {
      TurnCheck(s, t, Audit, event);
      TurnFirst(s, t, Check(Audit, event), s, Return(Audit), 1);
      ReturnAlone(s, t, Audit);
    }
  }

  // ----- A thread that waits for itself -----

  predicate WantsDrop(pc: Pc)
  {
    pc.WaitDrop? || pc.WarnWait?
  }

  predicate WaitsForSelf(s: State, t: Tid)
  {
    t in s.pcs && WantsDrop(s.pcs[t]) && s.dropLock == Some(t)
  }

  /**
   It happens only inside the drop warning, and then the drop count is 1 modulo 100 and the warning
   was not filtered.
   */
  lemma SelfWaitExact(s: State, t: Tid)
    requires Reachable(s) && t in s.pcs
    ensures WaitsForSelf(s, t) <==> s.pcs[t].WarnWait?
    ensures WaitsForSelf(s, t) ==> s.dropped % 100 == 1 && LevelNo(s.pcs[t].seen.minLevel) <= LevelNo(Warning)
  {
    ReachableInv(s);
  }

  /** The step into it is the second put, and it is taken exactly when the queue is still full. */
  lemma SelfWaitEntered(s: State, a: Action, t: Tid)
    requires Reachable(s) && Do(s, a).Some? && t in s.pcs && !WaitsForSelf(s, t)
    ensures WaitsForSelf(Do(s, a).value, t) <==> a == Advance(t) && s.pcs[t].WarnPut? && |s.queue| == MAX_QUEUE
  {
    ReachableInv(s);
    DoKeepsInv(s, a);
    hide QueueOk, LockMoves, HoldsHandler, Warns;
    if a.Advance? && a.t in s.pcs {
      if a.t == t {
        OwnStep(s, t);
      } else {
        hide Next;
        AdvanceLocks(s, a.t);
        OthersStay(s.dropLock, Do(s, a).value.dropLock, HoldsDrop(s.pcs[a.t]), HoldsDrop(Do(s, a).value.pcs[a.t]),
                   a.t, t);
      }
    }
  }

  lemma OthersStay(before: Option<Tid>, after: Option<Tid>, held: bool, holds: bool, u: Tid, t: Tid)
    requires LockMoves(before, after, held, holds, u) && t != u
    ensures after == Some(t) ==> before == Some(t)
  {
  }

  lemma OwnStep(s: State, t: Tid)
    requires QueueOk(s) && t in s.pcs && ThreadOk(s, t) && Next(s, t).Some? && !WaitsForSelf(s, t)
    ensures WaitsForSelf(Next(s, t).value, t) <==> s.pcs[t].WarnPut? && |s.queue| == MAX_QUEUE
  {
  }

  /** Two threads that wait for each other: a logging call for the drop lock, a drop warning for the handler lock. */
  predicate WaitForEachOther(s: State, t: Tid, u: Tid)
  {
    && t in s.pcs && u in s.pcs
    && s.pcs[t] == WaitDrop(App) && s.dropLock == Some(u)
    && s.pcs[u].WarnLock? && s.handlerLock == Some(t)
  }

  /**
   The step into it is either the put of a logging call on a full queue while the other thread is about to
   log the drop warning, or the count of a drop that is reported while a logging call waits to count its own.
   */
  lemma CrossWaitEntered(s: State, a: Action, t: Tid, u: Tid)
    requires Reachable(s) && Do(s, a).Some? && t in s.pcs && u in s.pcs && t != u && !WaitForEachOther(s, t, u)
    ensures
      WaitForEachOther(Do(s, a).value, t, u) <==>
        || (&& a == Advance(t) && s.pcs[t].Put? && s.pcs[t].caller == App && |s.queue| == MAX_QUEUE
            && s.dropLock == Some(u) && s.pcs[u].WarnLock?)
        || (&& a == Advance(u) && s.pcs[u].Count? && (s.dropped + 1) % 100 == 1 && s.pcs[t] == WaitDrop(App))
  {
    ReachableInv(s);
    DoKeepsInv(s, a);
    hide Inv, QueueOk;
    var s' := Do(s, a).value;
    if a.Advance? && a.t in s.pcs {
      if a.t == t {
        LoggerStep(s, t, u);
      } else if a.t == u {
        ReporterStep(s, t, u);
      } else {
        hide Next;
        AdvanceLocks(s, a.t);
        OthersStay(s.dropLock, s'.dropLock, HoldsDrop(s.pcs[a.t]), HoldsDrop(s'.pcs[a.t]), a.t, u);
        OthersStay(s.handlerLock, s'.handlerLock, HoldsHandler(s.pcs[a.t]), HoldsHandler(s'.pcs[a.t]), a.t, t);
      }
    }
  }

  lemma LoggerStep(s: State, t: Tid, u: Tid)
    requires QueueOk(s) && t in s.pcs && u in s.pcs && t != u && ThreadOk(s, t) && Next(s, t).Some?
    requires !WaitForEachOther(s, t, u)
    ensures
      WaitForEachOther(Next(s, t).value, t, u) <==>
        && s.pcs[t].Put? && s.pcs[t].caller == App && |s.queue| == MAX_QUEUE
        && s.dropLock == Some(u) && s.pcs[u].WarnLock?
  {
  }

  lemma ReporterStep(s: State, t: Tid, u: Tid)
    requires t in s.pcs && u in s.pcs && t != u && ThreadOk(s, t) && ThreadOk(s, u) && Next(s, u).Some?
    requires !WaitForEachOther(s, t, u)
    ensures
      WaitForEachOther(Next(s, u).value, t, u) <==>
        s.pcs[u].Count? && (s.dropped + 1) % 100 == 1 && s.pcs[t] == WaitDrop(App)
  {
  }

  ghost predicate Jammed(s: State)
  {
    || (exists t :: WaitsForSelf(s, t))
    || (exists t, u :: WaitForEachOther(s, t, u))
  }

  // ----- Once jammed, always jammed -----

  /** Thread t owns both locks and waits for one of them, or t and u own one each and wait for the other. */
  predicate JammedBy(s: State, t: Tid, u: Tid)
  {
    WaitsForSelf(s, t) || WaitForEachOther(s, t, u)
  }

  lemma {:induction false} JamStays(s: State, actions: seq<Action>, t: Tid, u: Tid)
    requires Inv(s) && JammedBy(s, t, u) && Exec(s, actions).Some?
    ensures
      var s' := Exec(s, actions).value;
      && JammedBy(s', t, u)
      && s'.dropLock == s.dropLock && s'.handlerLock == s.handlerLock && s'.dropped == s.dropped
    decreases |actions|
  {
    if actions != [] {
      var init := actions[..|actions| - 1];
      JamStays(s, init, t, u);
      ExecKeepsInv(s, init);
      JamStep(Exec(s, init).value, actions[|actions| - 1], t, u);
    }
  }

  lemma JamStep(s: State, a: Action, t: Tid, u: Tid)
    requires ThreadsOk(s) && JammedBy(s, t, u) && Do(s, a).Some?
    ensures
      var s' := Do(s, a).value;
      && JammedBy(s', t, u)
      && s'.dropLock == s.dropLock && s'.handlerLock == s.handlerLock && s'.dropped == s.dropped
  {
  }

  /**
   After a jam no drop is ever counted again, and a thread that needs either lock never gets past it:
   every later logging call hangs, and every audit call that finds the queue full.
   */
  lemma JamFreezes(s: State, s': State, t: Tid, u: Tid, v: Tid)
    requires Reachable(s) && JammedBy(s, t, u) && Leads(s, s') && v in s'.pcs
    ensures s'.dropped == s.dropped
    ensures JammedBy(s', t, u)
    ensures s'.pcs[v].AppLock? || WantsDrop(s'.pcs[v]) ==> Next(s', v) == None
    ensures v == t || (v == u && WaitForEachOther(s, t, u)) ==> Next(s', v) == None
  {
    ReachableInv(s);
    var actions :| Exec(s, actions) == Some(s');
    JamStays(s, actions, t, u);
    ExecKeepsInv(s, actions);
  }

  // ----- Nothing else blocks -----

  predicate Busy(s: State, t: Tid)
  {
    t in s.pcs && s.pcs[t] != Idle
  }

  /** Unless the process is jammed, a busy thread can step, or the owner of the lock it wants can. */
  lemma BlockedOnlyByJam(s: State, t: Tid)
    requires Reachable(s) && Busy(s, t) && !Jammed(s)
    ensures exists u :: Busy(s, u) && Next(s, u).Some?
  {
    ReachableInv(s);
    if Next(s, t).None? {
      var owner := if WantsDrop(s.pcs[t]) then s.dropLock.value else s.handlerLock.value;
      assert Busy(s, owner);
      if Next(s, owner).None? {
        var last := if WantsDrop(s.pcs[owner]) then s.dropLock.value else s.handlerLock.value;
        assert !WaitsForSelf(s, owner) && !WaitForEachOther(s, last, owner) && !WaitForEachOther(s, owner, last);
        assert Busy(s, last) && Next(s, last).Some?;
      }
    }
  }

  /** A deadlock of all busy threads is one of the two jams. */
  lemma DeadlockIsJam(s: State)
    requires Reachable(s) && exists t :: Busy(s, t)
    ensures (forall t :: Busy(s, t) ==> Next(s, t).None?) ==> Jammed(s)
  {
    var t :| Busy(s, t);
    if !Jammed(s) {
      BlockedOnlyByJam(s, t);
    }
  }

  // ----- At which levels they happen -----

  /** A forwarding configuration asks for this level at least, and the program logs at ERROR at most. */
  predicate Allowed(a: Action, least: Level)
  {
    && (a.Configure? && Forwards(Some(a.config)) ==> LevelNo(a.config.minLevel) >= LevelNo(least))
    && (a.LogRecord? ==> LevelNo(a.level) <= LevelNo(Error))
  }

  ghost predicate LeadsWith(s: State, s': State, least: Level)
  {
    exists actions :: Exec(s, actions) == Some(s') && forall a :: a in actions ==> Allowed(a, least)
  }

  ghost predicate ReachableWith(s: State, least: Level)
  {
    exists threads: set<Tid> :: LeadsWith(Init(threads), s, least)
  }

  lemma LeadsNext(s: State, m: State, a: Action, s': State, least: Level)
    requires LeadsWith(s, m, least) && Do(m, a) == Some(s') && Allowed(a, least)
    ensures LeadsWith(s, s', least)
  {
    var actions :| Exec(s, actions) == Some(m) && forall a :: a in actions ==> Allowed(a, least);
    assert (actions + [a])[..|actions|] == actions;
    assert Exec(s, actions + [a]) == Some(s');
  }

  lemma LeadsSelf(s: State, least: Level)
    ensures LeadsWith(s, s, least)
  {
    assert Exec(s, []) == Some(s);
  }

  lemma ReachableAnyway(s: State, least: Level)
    requires ReachableWith(s, least)
    ensures Reachable(s)
  {
    var threads: set<Tid> :| LeadsWith(Init(threads), s, least);
    assert Leads(Init(threads), s);
  }

  /** The thread is inside a logging call that was let through. */
  predicate Forwarding(pc: Pc)
  {
    && !pc.Idle? && !pc.AppLock? && !pc.AppCheck? && !pc.Return? && pc.caller == App
  }

  /** Only records and warnings of a sufficient level have been let through. */
  predicate PassedOk(pc: Pc, least: Level)
  {
    && (pc.AppLock? || pc.AppCheck? ==> LevelNo(pc.level) <= LevelNo(Error))
    && (Forwarding(pc) ==> LevelNo(least) <= LevelNo(Error))
    && (pc.WarnRecheck? || pc.WarnPut? || pc.WarnWait? ==> LevelNo(least) <= LevelNo(Warning))
  }

  ghost predicate LevelInv(s: State, least: Level)
  {
    && (Forwards(s.config) ==> LevelNo(s.config.value.minLevel) >= LevelNo(least))
    && forall t :: t in s.pcs ==> PassedOk(s.pcs[t], least)
  }

  lemma AdvanceStays(s: State, t: Tid)
    requires t in s.pcs && Next(s, t).Some?
    ensures
      var s' := Next(s, t).value;
      s'.config == s.config && t in s'.pcs && s'.pcs == s.pcs[t := s'.pcs[t]]
  {
  }

  lemma AdvanceForwards(s: State, t: Tid, least: Level)
    requires t in s.pcs && PassedOk(s.pcs[t], least) && Next(s, t).Some?
    requires Forwards(s.config) ==> LevelNo(s.config.value.minLevel) >= LevelNo(least)
    ensures
      Forwarding(Next(s, t).value.pcs[t]) ==> LevelNo(least) <= LevelNo(Error)
  {
  }

  lemma AdvanceRecords(s: State, t: Tid, least: Level)
    requires t in s.pcs && PassedOk(s.pcs[t], least) && Next(s, t).Some?
    ensures
      var pc := Next(s, t).value.pcs[t];
      pc.AppLock? || pc.AppCheck? ==> LevelNo(pc.level) <= LevelNo(Error)
  {
  }

  lemma AdvanceWarnLevel(s: State, t: Tid, least: Level)
    requires t in s.pcs && PassedOk(s.pcs[t], least) && Next(s, t).Some?
    requires Forwards(s.config) ==> LevelNo(s.config.value.minLevel) >= LevelNo(least)
    ensures
      var pc := Next(s, t).value.pcs[t];
      pc.WarnRecheck? || pc.WarnPut? || pc.WarnWait? ==> LevelNo(least) <= LevelNo(Warning)
  {
  }

  lemma AdvancePasses(s: State, t: Tid, least: Level)
    requires t in s.pcs && PassedOk(s.pcs[t], least) && Next(s, t).Some?
    requires Forwards(s.config) ==> LevelNo(s.config.value.minLevel) >= LevelNo(least)
    ensures t in Next(s, t).value.pcs && PassedOk(Next(s, t).value.pcs[t], least)
  {
    AdvanceForwards(s, t, least);
    AdvanceRecords(s, t, least);
    AdvanceWarnLevel(s, t, least);
    AdvanceStays(s, t);
    hide Next;
  }

  lemma DoKeepsLevel(s: State, a: Action, least: Level)
    requires LevelInv(s, least) && Allowed(a, least) && Do(s, a).Some?
    ensures LevelInv(Do(s, a).value, least)
  {
    if a.Advance? && a.t in s.pcs {
      hide Next, PassedOk;
      AdvanceStays(s, a.t);
      AdvancePasses(s, a.t, least);
    }
  }

  lemma {:induction false} ExecKeepsLevel(s: State, actions: seq<Action>, least: Level)
    requires LevelInv(s, least) && Exec(s, actions).Some? && forall a :: a in actions ==> Allowed(a, least)
    ensures LevelInv(Exec(s, actions).value, least)
    decreases |actions|
  {
    if actions != [] {
      hide LevelInv, Allowed, Do;
      var n := |actions| - 1;
      assert actions[n] in actions;
      ExecKeepsLevel(s, actions[..n], least);
      DoKeepsLevel(Exec(s, actions[..n]).value, actions[n], least);
    }
  }

  lemma ReachableLevel(s: State, least: Level)
    requires ReachableWith(s, least)
    ensures LevelInv(s, least)
  {
    var threads: set<Tid> :| LeadsWith(Init(threads), s, least);
    var actions :| Exec(Init(threads), actions) == Some(s) && forall a :: a in actions ==> Allowed(a, least);
    ExecKeepsLevel(Init(threads), actions, least);
  }


  function Enabled(level: Level): Config
  {
    Config(true, false, level)
  }

  /** The queue holds n audit events and nothing is going on. */
  predicate Quiet(s: State, n: nat, level: Level)
  {
    && |s.queue| == n && s.dropped == 0 && s.dropLock == None && s.handlerLock == None
    && s.config == Some(Enabled(level)) && s.pcs == map[0 := Idle, 1 := Idle, 2 := Idle]
  }

  /** One more audit event is queued. */
  lemma AuditAccepted(init: State, s: State, n: nat, level: Level) returns (s': State)
    requires 0 < n <= MAX_QUEUE && Quiet(s, n - 1, level) && LeadsWith(init, s, level)
    ensures Quiet(s', n, level) && LeadsWith(init, s', level)
  {
    hide LeadsWith;
    var called := Do(s, LogAudit(1, n)).value;
    LeadsNext(init, s, LogAudit(1, n), called, level);
    var checked := Step(init, called, 1, level);
    var put := Step(init, checked, 1, level);
    s' := Step(init, put, 1, level);
  }

  lemma {:induction false} Fill(n: nat, level: Level) returns (s: State)
    requires n <= MAX_QUEUE
    ensures Quiet(s, n, level) && LeadsWith(Init({0, 1, 2}), s, level)
  {
    var init := Init({0, 1, 2});
    if n == 0 {
      s := init.(config := Some(Enabled(level)));
      LeadsSelf(init, level);
      LeadsNext(init, init, Configure(Enabled(level)), s, level);
    } else {
      var before := Fill(n - 1, level);
      s := AuditAccepted(init, before, n, level);
    }
  }

  lemma Step(init: State, s: State, t: Tid, level: Level) returns (s': State)
    requires LeadsWith(init, s, level) && t in s.pcs && Next(s, t).Some?
    ensures s' == Next(s, t).value && LeadsWith(init, s', level)
  {
    s' := Next(s, t).value;
    LeadsNext(init, s, Advance(t), s', level);
  }

  /** Forwarding is on, the queue is full and no drop is being counted. */
  predicate Full(s: State)
  {
    Forwards(s.config) && |s.queue| == MAX_QUEUE && s.dropped == 0 && s.dropLock == None
  }

  lemma AuditRefused(init: State, s: State, t: Tid, level: Level) returns (s': State)
    requires LeadsWith(init, s, level) && Full(s) && t in s.pcs && s.pcs[t] == Idle
    ensures LeadsWith(init, s', level) && Full(s') && s'.config == s.config && s'.handlerLock == s.handlerLock
    ensures s'.pcs == s.pcs[t := WaitDrop(Audit)]
  {
    var called := Do(s, LogAudit(t, 0)).value;
    LeadsNext(init, s, LogAudit(t, 0), called, level);
    var checked := Step(init, called, t, level);
    s' := Step(init, checked, t, level);
  }

  lemma RecordRefused(init: State, s: State, t: Tid, level: Level) returns (s': State)
    requires LeadsWith(init, s, level) && Full(s) && t in s.pcs && s.pcs[t] == Idle && s.handlerLock == None
        && Passes(s.config, Error)
    ensures LeadsWith(init, s', level) && Full(s') && s'.config == s.config && s'.handlerLock == Some(t)
    ensures s'.pcs == s.pcs[t := WaitDrop(App)]
  {
    var called := Do(s, LogRecord(t, 0, Error)).value;
    LeadsNext(init, s, LogRecord(t, 0, Error), called, level);
    var locked := Step(init, called, t, level);
    var passed := Step(init, locked, t, level);
    var checked := Step(init, passed, t, level);
    s' := Step(init, checked, t, level);
  }

  /** The first drop is counted and reported. */
  lemma FirstDropWarns(init: State, s: State, t: Tid, level: Level) returns (s': State)
    requires LeadsWith(init, s, level) && Full(s) && t in s.pcs && s.pcs[t] == WaitDrop(Audit)
    ensures LeadsWith(init, s', level) && s'.pcs == s.pcs[t := WarnLock(Audit)]
    ensures s' == s.(dropped := 1, dropLock := Some(t), pcs := s'.pcs)
  {
    var locked := Step(init, s, t, level);
    s' := Step(init, locked, t, level);
  }

  lemma WarningRefused(init: State, s: State, t: Tid, level: Level) returns (s': State)
    requires LeadsWith(init, s, level) && t in s.pcs && s.pcs[t] == WarnLock(Audit) && s.handlerLock == None
    requires Passes(s.config, Warning) && |s.queue| == MAX_QUEUE && s.dropLock == Some(t)
    ensures LeadsWith(init, s', level) && t in s'.pcs && s'.pcs[t].WarnWait? && s'.dropLock == Some(t)
        && s'.config == s.config
  {
    var locked := Step(init, s, t, level);
    var passed := Step(init, locked, t, level);
    var checked := Step(init, passed, t, level);
    s' := Step(init, checked, t, level);
  }

  /** A single audit call on a full queue ends up waiting for the lock it holds, at any level up to WARNING. */
  lemma SelfWaitHappens(level: Level) returns (s: State)
    requires LevelNo(level) <= LevelNo(Warning)
    ensures ReachableWith(s, level) && WaitsForSelf(s, 1) && s.config == Some(Enabled(level))
  {
    var init := Init({0, 1, 2});
    var full := Fill(MAX_QUEUE, level);
    var refused := AuditRefused(init, full, 1, level);
    var warns := FirstDropWarns(init, refused, 1, level);
    s := WarningRefused(init, warns, 1, level);
  }

  /**
   An error record and an audit call on a full queue can wait for each other, at any level up to ERROR
   and although the worker has made room again.
   */
  lemma CrossWaitHappens(level: Level) returns (s: State)
    requires LevelNo(level) <= LevelNo(Error)
    ensures ReachableWith(s, level) && WaitForEachOther(s, 2, 1)
    ensures s.config == Some(Enabled(level)) && |s.queue| < MAX_QUEUE
  {
    var init := Init({0, 1, 2});
    var full := Fill(MAX_QUEUE, level);
    var logging := RecordRefused(init, full, 2, level);
    var refused := AuditRefused(init, logging, 1, level);
    var warns := FirstDropWarns(init, refused, 1, level);
    s := Do(warns, Take).value;
    LeadsNext(init, warns, Take, s, level);
  }

  /** A thread can come to wait for itself exactly if the configured level is WARNING or lower. */
  lemma SelfWaitLevels(least: Level)
    ensures (exists s: State, t: Tid :: ReachableWith(s, least) && WaitsForSelf(s, t)) <==>
        LevelNo(least) <= LevelNo(Warning)
  {
    if LevelNo(least) <= LevelNo(Warning) {
      var s := SelfWaitHappens(least);
    }
    forall s: State, t: Tid | ReachableWith(s, least) && WaitsForSelf(s, t)
      ensures LevelNo(least) <= LevelNo(Warning)
    {
      ReachableAnyway(s, least);
      SelfWaitExact(s, t);
      ReachableLevel(s, least);
    }
  }

  /** The process can jam exactly if the configured level is ERROR or lower. */
  lemma JamLevels(least: Level)
    ensures (exists s: State :: ReachableWith(s, least) && Jammed(s)) <==> LevelNo(least) <= LevelNo(Error)
  {
    if LevelNo(least) <= LevelNo(Error) {
      var s := CrossWaitHappens(least);
      assert Jammed(s);
    }
    forall s: State | ReachableWith(s, least) && Jammed(s)
      ensures LevelNo(least) <= LevelNo(Error)
    {
      ReachableLevel(s, least);
      if t: Tid :| WaitsForSelf(s, t) {
        ReachableAnyway(s, least);
        SelfWaitExact(s, t);
      } else {
        var t: Tid, u: Tid :| WaitForEachOther(s, t, u);
        assert Forwarding(s.pcs[t]);
      }
    }
  }
}
