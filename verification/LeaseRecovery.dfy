/** A job whose worker is gone is taken up again, and a job that is being worked on is left alone. */
module LeaseRecovery {
  import opened Common
  import opened Ingestion
  import opened IngestionLeases
  import opened IngestionStore

  /** The worker locks this job exactly when the row says that it may be taken and none such was recorded earlier. */
  lemma LocksIff(m: Machine, w: nat, id: Id)
    requires Reachable(m) && w in m.workers && m.workers[w].Asking?
    ensures var a := m.workers[w].ask;
            Next(m, Locks(w, id)) != m <==>
              id in m.db.jobs && id !in Locked(m.workers) && m.db.jobs[id].attempt < a.maxAttempts &&
              (m.db.jobs[id].status == QUEUED ||
               (m.db.jobs[id].status == RUNNING && m.db.jobs[id].leasedUntil.Some? && m.db.jobs[id].leasedUntil.value <= a.now)) &&
              forall other | other in m.db.jobs && Candidate(m.db, Locked(m.workers), a, other) ::
                m.db.jobs[id].recordedAt <= m.db.jobs[other].recordedAt
  {
    assert Next(m, Locks(w, id)) != m ==> Picked(m.db, Locked(m.workers), m.workers[w].ask, id);
    if Picked(m.db, Locked(m.workers), m.workers[w].ask, id) {
      assert Next(m, Locks(w, id)).workers[w] != m.workers[w];
    }
  }

  /** While its lease lasts, a running job is never picked, whoever asks and whenever the asking began. */
  lemma LeasedJobIsLeftAlone(m: Machine, w: nat, id: Id)
    requires Reachable(m) && id in m.db.jobs && m.db.jobs[id].status == RUNNING
    requires m.db.jobs[id].leasedUntil == None || m.db.jobs[id].leasedUntil.value > m.clock
    ensures Next(m, Locks(w, id)) == m
  {
    ReachableIsSound(m);
    if w in m.workers {
      assert WorkerOk(m, w);
    }
  }

  /** On the columns of its row: nothing that may be taken now was recorded before this job. */
  predicate FirstToTake(m: Machine, id: Id, maxAttempts: int)
    requires id in m.db.jobs
  {
    forall other | other in m.db.jobs && other !in Locked(m.workers) && m.db.jobs[other].attempt < maxAttempts ::
      var j := m.db.jobs[other];
      j.status == QUEUED || (j.status == RUNNING && j.leasedUntil.Some? && j.leasedUntil.value <= m.clock) ==>
        m.db.jobs[id].recordedAt <= j.recordedAt
  }

  lemma ExpiredIsPicked(m: Machine, id: Id, leaseSeconds: int, maxAttempts: int)
    requires Inv(m) && id in m.db.jobs && id !in Locked(m.workers) && m.db.jobs[id].attempt < maxAttempts
    requires m.db.jobs[id].status == RUNNING && m.db.jobs[id].leasedUntil.Some? && m.db.jobs[id].leasedUntil.value <= m.clock
    requires m.db.jobs[id].attempt < 3 && FirstToTake(m, id, maxAttempts)
    ensures var a := Ask(m.clock, leaseSeconds, maxAttempts);
            Picked(m.db, Locked(m.workers), a, id) && id in m.db.runs && JobChecks(Leased(m.db.jobs[id], a)) &&
            Leased(m.db.jobs[id], a) ==
              Job(RUNNING, m.db.jobs[id].attempt + 1, Some(m.clock + leaseSeconds), m.db.jobs[id].stage,
                  m.db.jobs[id].error, m.db.jobs[id].recordedAt)
  {
    assert JobOk(m.events, id, m.db.jobs[id]);
  }

  /**
   * The worker of a running job may be gone: once the clock has reached the end of the lease, the next worker
   * that asks leases the job, provided that attempts are left, no transaction locks it and nothing that may be
   * taken was recorded before it.
   */
  lemma ExpiredLeaseIsTakenUp(m: Machine, id: Id, w: nat, leaseSeconds: int, maxAttempts: int)
    requires Reachable(m) && w !in m.workers && id in m.db.jobs && id !in Locked(m.workers)
    requires m.db.jobs[id].status == RUNNING && m.db.jobs[id].leasedUntil.Some? && m.db.jobs[id].leasedUntil.value <= m.clock
    requires m.db.jobs[id].attempt < maxAttempts && m.db.jobs[id].attempt < 3 && FirstToTake(m, id, maxAttempts)
    ensures var j := m.db.jobs[id];
            var m' := Execution(m, AcquireAlone(w, Ask(m.clock, leaseSeconds, maxAttempts), id));
            m'.db == m.db.(jobs := m.db.jobs[id :=
              Job(RUNNING, j.attempt + 1, Some(m.clock + leaseSeconds), j.stage, j.error, j.recordedAt)]) &&
            m'.events == m.events + [Lease(id, w, m.clock, m.clock + leaseSeconds)]
  {
    ReachableIsSound(m);
    ExpiredIsPicked(m, id, leaseSeconds, maxAttempts);
    AloneLeasesTheJob(m, w, Ask(m.clock, leaseSeconds, maxAttempts), id);
  }
}
