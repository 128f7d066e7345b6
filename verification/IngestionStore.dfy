/** The repository as it changes the tables; the locked rows are those of other transactions. */
module IngestionStore {
  import opened Common
  import opened Ingestion
  import opened IngestionLeases

  /** Every key names a run, every run has its job, and every job meets the checks of its table. */
  predicate DbOk(db: Db) {
    RowsOk(db, []) && forall id | id in db.jobs :: JobChecks(db.jobs[id])
  }

  lemma EnqueueMeans(db: Db, key: Key, newRun: Id, recordedAt: int)
    ensures var (db', reply) := Enqueue(db, key, newRun, recordedAt);
            (DbOk(db) ==> DbOk(db') && reply != JobNotFound) &&
            (reply.Found? ==> forall other, later :: Enqueue(db', key, other, later) == (db', reply))
  {
    assert NewJob(recordedAt).stage[0] != ' ';
  }

  lemma UpdateMeans(db: Db, id: Id, status: Status, stage: string, error: Option<string>)
    ensures var (db', reply) := Update(db, id, status, stage, error);
            (DbOk(db) ==> DbOk(db')) && db'.jobs.Keys == db.jobs.Keys &&
            (reply.Found? && Terminal(status) ==> id in db'.jobs && forall a :: !Eligible(db'.jobs[id], a)) &&
            (DbOk(db) && reply.Found? ==>
               id in db.jobs && id in db'.jobs &&
               var j := db.jobs[id];
               db'.jobs[id] == Job(status, j.attempt, if status in {QUEUED, RUNNING} then j.leasedUntil else None,
                                   stage, error, j.recordedAt))
  {
  }

  /** Which rows can be picked, and the row after the lease. */
  lemma PickedMeans(db: Db, locked: set<Id>, a: Ask, id: Id)
    requires Picked(db, locked, a, id)
    ensures id in db.jobs && id !in locked &&
            var j := db.jobs[id];
            j.attempt < a.maxAttempts &&
            (j.status == QUEUED || (j.status == RUNNING && j.leasedUntil.Some? && j.leasedUntil.value <= a.now)) &&
            Leased(j, a) == Job(RUNNING, j.attempt + 1, Some(a.now + a.leaseSeconds), j.stage, j.error, j.recordedAt)
  {
  }

  lemma LeaseKeepsDbOk(db: Db, locked: set<Id>, id: Id, a: Ask)
    requires Picked(db, locked, a, id)
    ensures DbOk(db) ==>
              id in db.runs && (a.maxAttempts <= 3 ==> JobChecks(Leased(db.jobs[id], a))) &&
              (JobChecks(Leased(db.jobs[id], a)) ==> DbOk(db.(jobs := db.jobs[id := Leased(db.jobs[id], a)])))
  {
    assert db.jobs[id := Leased(db.jobs[id], a)].Keys == db.jobs.Keys;
  }

  class IngestionRepository {
    var keys: map<Key, Id>
    var runs: map<Id, RunStatus>
    var jobs: map<Id, Job>

    function Rows(): Db
      reads this
    {
      Db(keys, runs, jobs)
    }

    constructor ()
      ensures Rows() == Start(0).db && DbOk(Rows())
    {
      keys, runs, jobs := map[], map[], map[];
    }

    method EnqueueRun(key: Key, newRun: Id, recordedAt: int) returns (reply: Reply)
      modifies this
      ensures (Rows(), reply) == Enqueue(old(Rows()), key, newRun, recordedAt)
      ensures DbOk(old(Rows())) ==> DbOk(Rows()) && reply != JobNotFound
      ensures reply.Found? ==> forall other, later :: Enqueue(Rows(), key, other, later) == (Rows(), reply)
      ensures forall id | id in old(jobs) :: id in jobs && jobs[id] == old(jobs)[id]
      // a new configuration gets a running run with one queued job, a known one the run it has
      ensures key !in old(keys) && reply.Found? ==>
                reply.run == newRun && keys == old(keys)[key := newRun] && runs == old(runs)[newRun := RunRunning] &&
                newRun !in old(jobs) && jobs == old(jobs)[newRun := Job(QUEUED, 0, None, "QUEUED", None, recordedAt)]
      ensures key in old(keys) && reply.Found? ==> reply.run == old(keys)[key] && Rows() == old(Rows())
      ensures !reply.Found? ==> Rows() == old(Rows())
    {
      EnqueueMeans(Rows(), key, newRun, recordedAt);
      if key in keys {
        var run := keys[key];
        return if run in jobs then Found(run) else JobNotFound;
      }
      if !KeyChecks(key) || newRun in runs || newRun in jobs {
        return ConstraintViolation;
      }
      keys := keys[key := newRun];
      runs := runs[newRun := RunRunning];
      jobs := jobs[newRun := NewJob(recordedAt)];
      reply := Found(newRun);
    }

    /** The query: none exactly when each unlocked job with attempts left is neither queued nor on a lease that is over. */
    method PickJob(locked: set<Id>, a: Ask) returns (picked: Option<Id>)
      ensures picked.None? <==>
                forall id | id in jobs && id !in locked && jobs[id].attempt < a.maxAttempts ::
                  var j := jobs[id];
                  j.status != QUEUED && (j.status == RUNNING ==> j.leasedUntil == None || j.leasedUntil.value > a.now)
      ensures picked.Some? ==> Picked(Rows(), locked, a, picked.value)
    {
      NothingOrSomething(Rows(), locked, a);
      if forall id | id in jobs :: !Candidate(Rows(), locked, a, id) {
        return None;
      }
      var id :| id in jobs && Picked(Rows(), locked, a, id);
      picked := Some(id);
    }

    /** The leased job, none when nothing was eligible; a failure leaves everything as it was. */
    method AcquireJob(locked: set<Id>, a: Ask) returns (leased: Option<Id>, failed: bool)
      modifies this`jobs
      ensures leased.None? && !failed <==>
                forall id | id in old(jobs) && id !in locked && old(jobs)[id].attempt < a.maxAttempts ::
                  var j := old(jobs)[id];
                  j.status != QUEUED && (j.status == RUNNING ==> j.leasedUntil == None || j.leasedUntil.value > a.now)
      ensures leased.Some? ==>
                !failed && Picked(old(Rows()), locked, a, leased.value) && leased.value in runs &&
                var j := old(jobs)[leased.value];
                j.attempt < a.maxAttempts &&
                (j.status == QUEUED || (j.status == RUNNING && j.leasedUntil.Some? && j.leasedUntil.value <= a.now)) &&
                jobs == old(jobs)[leased.value :=
                  Job(RUNNING, j.attempt + 1, Some(a.now + a.leaseSeconds), j.stage, j.error, j.recordedAt)]
      ensures leased.None? ==> jobs == old(jobs)
      ensures failed ==> exists id :: Picked(old(Rows()), locked, a, id) && (id !in runs || !JobChecks(Leased(old(jobs)[id], a)))
      ensures DbOk(old(Rows())) ==> DbOk(Rows()) && !(failed && a.maxAttempts <= 3)
    {
      var picked := PickJob(locked, a);
      if picked.None? {
        return None, false;
      }
      PickedMeans(Rows(), locked, a, picked.value);
      LeaseKeepsDbOk(Rows(), locked, picked.value, a);
      var ok := LeaseRow(picked.value, a);
      leased, failed := if ok then picked else None, !ok;
    }

    /** The flush checks the row before the run is read; failing either, the transaction is rolled back. */
    method LeaseRow(id: Id, a: Ask) returns (ok: bool)
      requires id in jobs
      modifies this`jobs
      ensures ok == (id in runs && JobChecks(Leased(old(jobs)[id], a)))
      ensures jobs == if ok then old(jobs)[id := Leased(old(jobs)[id], a)] else old(jobs)
    {
      var saved := jobs;
      var j := jobs[id];
      j := j.(status := RUNNING);
      j := j.(attempt := j.attempt + 1);
      j := j.(leasedUntil := Some(a.now + a.leaseSeconds));
      if !JobChecks(j) {
        return false;
      }
      jobs := jobs[id := j];
      if id !in runs {
        jobs := saved;
        return false;
      }
      ok := true;
    }

    method UpdateJob(id: Id, status: Status, stage: string, error: Option<string>) returns (reply: Reply)
      modifies this`jobs, this`runs
      ensures (Rows(), reply) == Update(old(Rows()), id, status, stage, error)
      ensures DbOk(old(Rows())) ==> DbOk(Rows())
      ensures reply.Found? && Terminal(status) ==> forall a :: !Eligible(jobs[id], a)
      ensures jobs.Keys == old(jobs).Keys && forall other | other in jobs :: jobs[other].attempt == old(jobs)[other].attempt
      // only the two statuses of work that goes on keep the lease
      ensures DbOk(old(Rows())) && reply.Found? ==>
                id in old(jobs) && id in jobs &&
                jobs[id].leasedUntil == if status in {QUEUED, RUNNING} then old(jobs)[id].leasedUntil else None
    {
      UpdateMeans(Rows(), id, status, stage, error);
      if id !in jobs {
        return JobNotFound;
      }
      var j := jobs[id].(status := status, stage := stage, error := error);
      if Terminal(status) {
        j := j.(leasedUntil := None);
      }
      if !JobChecks(j) {
        return ConstraintViolation;
      }
      jobs := jobs[id := j];
      if status in {FAILED, CANCELLED} && id in runs {
        runs := runs[id := RunFailed];
      }
      reply := Found(id);
    }
  }

  function AcquireAlone(w: nat, a: Ask, id: Id): seq<Step> {
    [Begins(w, a.leaseSeconds, a.maxAttempts), Locks(w, id), Commits(w)]
  }

  lemma AskingLocksNothing(workers: map<nat, Worker>, w: nat, a: Ask)
    requires w !in workers
    ensures Locked(workers[w := Asking(a)]) == Locked(workers)
  {
    forall id | id in Locked(workers) ensures id in Locked(workers[w := Asking(a)]) {
      var v :| v in workers && workers[v].Holding? && workers[v].id == id;
      assert workers[w := Asking(a)][v] == workers[v];
    }
  }

  lemma LocksAlone(m: Machine, w: nat, a: Ask, id: Id)
    requires w !in m.workers && a.now == m.clock && Picked(m.db, Locked(m.workers), a, id)
    requires id in m.db.runs && JobChecks(Leased(m.db.jobs[id], a))
    ensures Next(Next(m, Begins(w, a.leaseSeconds, a.maxAttempts)), Locks(w, id)) == Become(m, w, Holding(a, id))
  {
    var m1 := Next(m, Begins(w, a.leaseSeconds, a.maxAttempts));
    AskingLocksNothing(m.workers, w, a);
    assert Become(m1, w, Holding(a, id)).workers == m.workers[w := Holding(a, id)];
  }

  /** A worker that nobody interrupts leaves the rows AcquireJob leaves. */
  lemma AloneLeasesTheJob(m: Machine, w: nat, a: Ask, id: Id)
    requires w !in m.workers && a.now == m.clock && Picked(m.db, Locked(m.workers), a, id)
    requires id in m.db.runs && JobChecks(Leased(m.db.jobs[id], a))
    ensures var m' := Execution(m, AcquireAlone(w, a, id));
            m'.db == m.db.(jobs := m.db.jobs[id := Leased(m.db.jobs[id], a)]) &&
            m'.events == m.events + [Lease(id, w, a.now, a.now + a.leaseSeconds)]
  {
    var s := AcquireAlone(w, a, id);
    var m2 := Next(Next(m, s[0]), s[1]);
    LocksAlone(m, w, a, id);
    assert s[1..][1..] == [s[2]];
    assert Execution(m, s) == Execution(Next(m, s[0]), s[1..]) == Execution(m2, [s[2]]);
    assert [s[2]][1..] == [];
    assert Execution(m2, [s[2]]) == Execution(Next(m2, s[2]), []);
  }
}
