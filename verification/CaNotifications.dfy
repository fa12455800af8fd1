/**
 Who is told of an expiring certificate, in every run. The notification job commits after each delivery:
 a job that dies after k certificates has recorded those, and may have delivered to the next one's owner.
 */
module CaNotifications {
  import opened Wrappers
  import opened Crypto
  import opened CaState
  import opened CaInvariant
  import opened CaMachine
  import opened CaHistory

  /** The job does not die before it comes to this certificate. */
  predicate GetsTo(e: Event, certId: nat)
  {
    e.crash.Some? ==> certId <= e.crash.value.commits + 1
  }

  /** This event is a notification job that tries to deliver to the owner of the certificate. */
  predicate Tries(db: Db, e: Event, certId: nat)
  {
    && e.op.NotifyOp? && HasId(db.certs, certId)
    && Attempted(db.certs[certId - 1], e.env, e.op.warningDays) && GetsTo(e, certId)
  }

  /** And it succeeds. */
  predicate Reaches(db: Db, e: Event, certId: nat)
  {
    Tries(db, e, certId) && certId in e.op.delivered
  }

  /** It dies after the delivery and before the commit. */
  predicate Forgets(e: Event, certId: nat)
  {
    e.crash.Some? && certId > e.crash.value.commits
  }

  predicate ReachedAt(cfg: Config, keyFile: Option<MasterKey>, events: seq<Event>, m: nat, certId: nat)
  {
    m < |events| && Reaches(Run(cfg, keyFile, events[..m]).db, events[m], certId)
  }

  predicate RecordedAt(cfg: Config, keyFile: Option<MasterKey>, events: seq<Event>, m: nat, certId: nat)
  {
    ReachedAt(cfg, keyFile, events, m, certId) && !Forgets(events[m], certId)
  }

  /** The stored date after one event. */
  function NextDate(db: Db, e: Event, certId: nat): Option<int>
  {
    if Reaches(db, e, certId) && !Forgets(e, certId) then Some(e.env.now)
    else if HasId(db.certs, certId) then db.certs[certId - 1].expiryNotifiedAt
    else None
  }

  lemma GrowsKeepsDate(db: Db, db': Db, e: Event, certId: nat)
    requires Grows(db, db', e.env.now) && !e.op.NotifyOp? && HasId(db'.certs, certId)
    ensures db'.certs[certId - 1].expiryNotifiedAt == NextDate(db, e, certId)
  {
    assert HasId(db.certs, certId) ==>
        db'.certs[certId - 1] == db.certs[certId - 1].(status := db'.certs[certId - 1].status);
  }

  lemma AfterDate(cfg: Config, st: State, e: Event, certId: nat)
    requires RunningOk(cfg, st) && HasId(After(cfg, st, e).db.certs, certId)
    ensures After(cfg, st, e).db.certs[certId - 1].expiryNotifiedAt == NextDate(st.db, e, certId)
  {
    hide RunningOk, StoredOk, Restart, Grows, NextDate;
    if e.crash.Some? {
      PartialOk(cfg, st, e.env, e.op, e.crash.value.commits);
      RestartOk(cfg, Partial(cfg, st, e.env, e.op, e.crash.value.commits), e.crash.value.drawn);
    }
    if e.op.NotifyOp? {
      NotifyDate(cfg, st, e, certId);
    } else {
      hide Step, Partial;
      StepGrows(cfg, st, e.env, e.op);
      if e.crash.Some? {
        PartialGrows(cfg, st, e.env, e.op, e.crash.value.commits);
      }
      GrowsKeepsDate(st.db, After(cfg, st, e).db, e, certId);
    }
  }

  lemma NotifyDate(cfg: Config, st: State, e: Event, certId: nat)
    requires e.op.NotifyOp?
    ensures
      var st' := if e.crash.Some? then Partial(cfg, st, e.env, e.op, e.crash.value.commits)
          else Step(cfg, st, e.env, e.op);
      |st'.db.certs| == |st.db.certs| &&
      (HasId(st'.db.certs, certId) ==> st'.db.certs[certId - 1].expiryNotifiedAt == NextDate(st.db, e, certId))
  {
  }

  // ----- Along a run -----

  ghost predicate RecordedBy(cfg: Config, keyFile: Option<MasterKey>, events: seq<Event>, certId: nat, at: int)
  {
    exists m: nat :: RecordedAt(cfg, keyFile, events, m, certId) && events[m].env.now == at
  }

  lemma ReachedPrefix(cfg: Config, keyFile: Option<MasterKey>, events: seq<Event>, n: nat, m: nat, certId: nat)
    requires m < n <= |events|
    ensures ReachedAt(cfg, keyFile, events, m, certId) <==> ReachedAt(cfg, keyFile, events[..n], m, certId)
  {
    hide Run, Reaches;
    assert events[..m] == events[..n][..m];
  }

  lemma RecordedBySnoc(cfg: Config, keyFile: Option<MasterKey>, events: seq<Event>, certId: nat, at: int)
    requires events != []
    ensures
      var n := |events| - 1;
      RecordedBy(cfg, keyFile, events, certId, at) <==>
        || RecordedBy(cfg, keyFile, events[..n], certId, at)
        || (RecordedAt(cfg, keyFile, events, n, certId) && events[n].env.now == at)
  {
    hide Run, Reaches;
    var n := |events| - 1;
    forall m: nat | m < n
      ensures ReachedAt(cfg, keyFile, events, m, certId) <==> ReachedAt(cfg, keyFile, events[..n], m, certId)
    {
      ReachedPrefix(cfg, keyFile, events, n, m, certId);
    }
    if RecordedBy(cfg, keyFile, events[..n], certId, at) {
      var m: nat :| RecordedAt(cfg, keyFile, events[..n], m, certId) && events[..n][m].env.now == at;
      assert RecordedAt(cfg, keyFile, events, m, certId);
    }
  }

  lemma NeverBefore(cfg: Config, keyFile: Option<MasterKey>, events: seq<Event>, certId: nat, at: int)
    ensures RecordedBy(cfg, keyFile, events, certId, at) ==> HasId(Run(cfg, keyFile, events).db.certs, certId)
  {
    hide Run, RowEvolves, OthersGrow;
    forall m: nat | RecordedAt(cfg, keyFile, events, m, certId)
      ensures HasId(Run(cfg, keyFile, events).db.certs, certId)
    {
      NothingUndone(cfg, keyFile, events, m);
    }
  }

  /**
   In every run the stored date is that of the run that reached the owner and recorded it; before
   it there is none.
   */
  lemma {:induction false} NotifiedExactly(
      cfg: Config, keyFile: Option<MasterKey>, events: seq<Event>, certId: nat, at: int)
    ensures
      var certs := Run(cfg, keyFile, events).db.certs;
      HasId(certs, certId) ==>
          (certs[certId - 1].expiryNotifiedAt == Some(at) <==> RecordedBy(cfg, keyFile, events, certId, at))
    decreases |events|
  {
    if events != [] && HasId(Run(cfg, keyFile, events).db.certs, certId) {
      var init, last := events[..|events| - 1], events[|events| - 1];
      var st := Run(cfg, keyFile, init);
      assert Run(cfg, keyFile, events) == After(cfg, st, last);
      hide RunningOk, After, Run, RecordedBy, Attempted;
      RunOk(cfg, keyFile, init);
      AfterDate(cfg, st, last, certId);
      RecordedBySnoc(cfg, keyFile, events, certId, at);
      NotifiedExactly(cfg, keyFile, init, certId, at);
      NeverBefore(cfg, keyFile, init, certId, at);
    }
  }

  /** The certificate is valid and inside the warning window, and its owner is a stored user. */
  predicate Due(row: CertRow, env: Env, warningDays: int)
  {
    && row.status == Valid && row.certificate.content.notAfter <= env.now + warningDays * 86400
    && row.requestedBy.Some? && row.requestedBy.value in env.users
  }

  /** A certificate's date is empty exactly as long as no job recorded a success. */
  lemma EmptyExactly(cfg: Config, keyFile: Option<MasterKey>, events: seq<Event>, certId: nat, n: nat)
    requires n < |events|
    ensures
      var certs := Run(cfg, keyFile, events[..n]).db.certs;
      HasId(certs, certId) ==>
        (certs[certId - 1].expiryNotifiedAt.None? <==>
           forall m: nat :: m < n ==> !RecordedAt(cfg, keyFile, events, m, certId))
  {
    hide Run, Reaches;
    var init := events[..n];
    var certs := Run(cfg, keyFile, init).db.certs;
    forall m: nat | m < n
      ensures RecordedAt(cfg, keyFile, events, m, certId) <==> RecordedAt(cfg, keyFile, init, m, certId)
    {
      ReachedPrefix(cfg, keyFile, events, n, m, certId);
    }
    if HasId(certs, certId) {
      if certs[certId - 1].expiryNotifiedAt.Some? {
        NotifiedExactly(cfg, keyFile, init, certId, certs[certId - 1].expiryNotifiedAt.value);
      } else {
        forall m: nat | m < n
          ensures !RecordedAt(cfg, keyFile, init, m, certId)
        {
          NotifiedExactly(cfg, keyFile, init, certId, init[m].env.now);
        }
      }
    }
  }

  /**
   In every run a notification job tries the owner of a certificate exactly when the certificate is due,
   the job gets as far as this certificate, and no earlier job recorded a success.
   */
  lemma TriedExactly(cfg: Config, keyFile: Option<MasterKey>, events: seq<Event>, certId: nat, n: nat)
    requires n < |events| && events[n].op.NotifyOp?
    ensures
      var db := Run(cfg, keyFile, events[..n]).db;
      Tries(db, events[n], certId) <==>
        && HasId(db.certs, certId) && Due(db.certs[certId - 1], events[n].env, events[n].op.warningDays)
        && GetsTo(events[n], certId)
        && forall m: nat :: m < n ==> !RecordedAt(cfg, keyFile, events, m, certId)
  {
    EmptyExactly(cfg, keyFile, events, certId, n);
    hide Run, RecordedAt;
  }

  /**
   In every run an owner is reached at event n exactly when the certificate is due, the job gets as far
   as this certificate, the delivery succeeds, and every job that reached the owner before died between
   its delivery and its commit.
   */
  lemma ReachedAgainExactly(cfg: Config, keyFile: Option<MasterKey>, events: seq<Event>, certId: nat, n: nat)
    requires n < |events| && events[n].op.NotifyOp?
    ensures
      var db := Run(cfg, keyFile, events[..n]).db;
      ReachedAt(cfg, keyFile, events, n, certId) <==>
        && HasId(db.certs, certId) && Due(db.certs[certId - 1], events[n].env, events[n].op.warningDays)
        && GetsTo(events[n], certId) && certId in events[n].op.delivered
        && forall m: nat :: m < n && ReachedAt(cfg, keyFile, events, m, certId) ==>
             events[m].crash.Some? && events[m].crash.value.commits + 1 == certId
  {
    TriedExactly(cfg, keyFile, events, certId, n);
    hide Run, Attempted, Due;
    forall m: nat | m < n && ReachedAt(cfg, keyFile, events, m, certId)
      ensures RecordedAt(cfg, keyFile, events, m, certId) <==>
                !(events[m].crash.Some? && events[m].crash.value.commits + 1 == certId)
    {
    }
  }

  /** After a recorded success the owner is never tried again, and so never reached. */
  lemma NotifiedOnce(cfg: Config, keyFile: Option<MasterKey>, events: seq<Event>, certId: nat, m: nat, n: nat)
    requires m < n < |events|
    ensures RecordedAt(cfg, keyFile, events, m, certId) ==>
              !Tries(Run(cfg, keyFile, events[..n]).db, events[n], certId)
                  && !ReachedAt(cfg, keyFile, events, n, certId)
  {
    if events[n].op.NotifyOp? {
      TriedExactly(cfg, keyFile, events, certId, n);
    }
    hide Run, RecordedAt;
  }
}
