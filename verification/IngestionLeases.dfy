/** Leases never overlap, attempts are bounded, and work runs out. */
module IngestionLeases {
  import opened Common
  import opened Ingestion

  /** An update to RUNNING reports progress; it leaves the lease as it is, as events of other jobs do. */
  predicate LeavesLease(e: Event, id: Id) {
    e.id != id || (e.Change? && e.status == RUNNING)
  }

  /** The end of the lease of a job since which nothing but progress has been reported for it. */
  function OpenLease(events: seq<Event>, id: Id): Option<int> {
    if events == [] then None
    else
      var last := events[|events| - 1];
      if LeavesLease(last, id) then OpenLease(events[..|events| - 1], id)
      else if last.Lease? then Some(last.until)
      else None
  }

  function Leases(events: seq<Event>, id: Id): nat {
    if events == [] then 0
    else Leases(events[..|events| - 1], id) + if events[|events| - 1].Lease? && events[|events| - 1].id == id then 1 else 0
  }

  predicate Untouched(events: seq<Event>, i: nat, j: nat, id: Id)
    requires j <= |events|
  {
    forall k | i < k < j :: LeavesLease(events[k], id)
  }

  /** Of two leases of a job with nothing but progress reported in between, the later starts when the earlier is over. */
  predicate Disjoint(events: seq<Event>) {
    forall i, j | 0 <= i < j < |events| && events[i].Lease? && events[j].Lease? && events[i].id == events[j].id &&
                  Untouched(events, i, j, events[i].id) ::
      events[i].until <= events[j].from
  }

  /** The same, event by event: a lease starts when the open lease of its job, if any, is over. */
  predicate Spaced(events: seq<Event>) {
    events == [] ||
    var n := |events| - 1;
    Spaced(events[..n]) && (events[n].Lease? ==> StartsAfter(OpenLease(events[..n], events[n].id), events[n].from))
  }

  predicate StartsAfter(open: Option<int>, from: int) {
    open.None? || open.value <= from
  }

  predicate JobOk(events: seq<Event>, id: Id, j: Job) {
    JobChecks(j) && j.attempt == Leases(events, id) &&
    (OpenLease(events, id).Some? ==> j.status == RUNNING && j.leasedUntil == OpenLease(events, id))
  }

  predicate JobsOk(events: seq<Event>, jobs: map<Id, Job>) {
    forall id | id in jobs :: JobOk(events, id, jobs[id])
  }

  predicate WorkerOk(m: Machine, w: nat)
    requires w in m.workers
  {
    match m.workers[w]
    case Asking(a) => a.now <= m.clock
    case Holding(a, id) => a.now <= m.clock && id in m.db.jobs && Eligible(m.db.jobs[id], a) && JobChecks(Leased(m.db.jobs[id], a))
    case _ => true
  }

  predicate OneHolder(workers: map<nat, Worker>) {
    forall v, w | v in workers && w in workers && v != w && workers[v].Holding? && workers[w].Holding? ::
      workers[v].id != workers[w].id
  }

  predicate RowsOk(db: Db, events: seq<Event>) {
    (forall e | e in events :: e.id in db.jobs) &&
    (forall k | k in db.keys :: db.keys[k] in db.runs) &&
    db.runs.Keys == db.jobs.Keys
  }

  predicate StartedBy(events: seq<Event>, clock: int) {
    forall e | e in events && e.Lease? :: e.from <= clock
  }

  ghost predicate Inv(m: Machine) {
    RowsOk(m.db, m.events) && OneHolder(m.workers) && Spaced(m.events) &&
    JobsOk(m.events, m.db.jobs) &&
    (forall w | w in m.workers :: WorkerOk(m, w)) &&
    StartedBy(m.events, m.clock)
  }

  lemma EventsAppend(events: seq<Event>, e: Event, id: Id)
    ensures Leases(events + [e], id) == Leases(events, id) + if e.Lease? && e.id == id then 1 else 0
    ensures OpenLease(events + [e], id) ==
              if LeavesLease(e, id) then OpenLease(events, id) else if e.Lease? then Some(e.until) else None
  {
  }

  lemma {:induction false} NoEvents(events: seq<Event>, id: Id)
    requires forall e | e in events :: e.id != id
    ensures Leases(events, id) == 0 && OpenLease(events, id) == None
  {
    if events != [] {
      NoEvents(events[..|events| - 1], id);
    }
  }

  /** A lease that only reports of progress have followed is the open one. */
  lemma {:induction false} OpenLeaseMeaning(events: seq<Event>, i: nat, id: Id)
    requires i < |events| && !LeavesLease(events[i], id) && Untouched(events, i, |events|, id)
    ensures OpenLease(events, id) == if events[i].Lease? then Some(events[i].until) else None
    decreases |events|
  {
    var n := |events| - 1;
    if i < n {
      assert LeavesLease(events[n], id);
      OpenLeaseMeaning(events[..n], i, id);
    }
  }

  lemma SpacedAppend(events: seq<Event>, e: Event)
    requires Spaced(events) && (e.Lease? ==> StartsAfter(OpenLease(events, e.id), e.from))
    ensures Spaced(events + [e])
  {
  }

  lemma {:induction false} SpacedIsDisjoint(events: seq<Event>)
    requires Spaced(events)
    ensures Disjoint(events)
  {
    if events != [] {
      var n := |events| - 1;
      var front := events[..n];
      SpacedIsDisjoint(front);
      forall i, j | 0 <= i < j < |events| && events[i].Lease? && events[j].Lease? && events[i].id == events[j].id &&
                      Untouched(events, i, j, events[i].id)
        ensures events[i].until <= events[j].from
      {
        assert forall k | i < k < j :: front[k] == events[k];
        if j == n {
          OpenLeaseMeaning(front, i, events[n].id);
        } else {
          assert front[i] == events[i] && front[j] == events[j] && Untouched(front, i, j, front[i].id);
        }
      }
    }
  }

  // ---------- every step keeps the invariant ----------

  lemma NewJobOk(events: seq<Event>, jobs: map<Id, Job>, newRun: Id, recordedAt: int)
    requires JobsOk(events, jobs) && newRun !in jobs && forall e | e in events :: e.id in jobs
    ensures JobsOk(events, jobs[newRun := NewJob(recordedAt)])
  {
    NoEvents(events, newRun);
    assert NewJob(recordedAt).stage[0] != ' ';
  }

  lemma EnqueueKeepsWorkers(m: Machine, key: Key, newRun: Id, recordedAt: int)
    requires forall w | w in m.workers :: WorkerOk(m, w)
    ensures var m' := Next(m, Enqueues(key, newRun, recordedAt)); forall w | w in m'.workers :: WorkerOk(m', w)
  {
    var m' := Next(m, Enqueues(key, newRun, recordedAt));
    forall w | w in m.workers ensures WorkerOk(m', w) {
      assert WorkerOk(m, w);
    }
  }

  lemma EnqueueKeepsInv(m: Machine, key: Key, newRun: Id, recordedAt: int)
    requires Inv(m)
    ensures Inv(Next(m, Enqueues(key, newRun, recordedAt)))
  {
    EnqueueKeepsWorkers(m, key, newRun, recordedAt);
    if Enqueue(m.db, key, newRun, recordedAt).0 != m.db {
      NewJobOk(m.events, m.db.jobs, newRun, recordedAt);
    }
  }

  lemma LockKeepsInv(m: Machine, w: nat, id: Id)
    requires Inv(m)
    ensures Inv(Next(m, Locks(w, id)))
  {
  }

  lemma LeaseKeepsJobs(events: seq<Event>, jobs: map<Id, Job>, w: nat, a: Ask, id: Id)
    requires JobsOk(events, jobs) && id in jobs && JobChecks(Leased(jobs[id], a))
    ensures JobsOk(events + [Lease(id, w, a.now, a.now + a.leaseSeconds)], jobs[id := Leased(jobs[id], a)])
  {
  }

  lemma ChangeKeepsJobs(events: seq<Event>, jobs: map<Id, Job>, id: Id, j: Job)
    requires JobsOk(events, jobs) && id in jobs && JobChecks(j) && j.attempt == jobs[id].attempt
    requires j.status == RUNNING ==> j.leasedUntil == jobs[id].leasedUntil
    ensures JobsOk(events + [Change(id, j.status)], jobs[id := j])
  {
  }

  lemma CommitKeepsWorkers(m: Machine, w: nat)
    requires Inv(m) && w in m.workers && m.workers[w].Holding?
    ensures var m' := Next(m, Commits(w)); OneHolder(m'.workers) && forall v | v in m'.workers :: WorkerOk(m', v)
  {
  }

  lemma CommitEvent(m: Machine, w: nat)
    requires w in m.workers && m.workers[w].Holding? && m.workers[w].id in m.db.jobs
    ensures var Holding(a, id) := m.workers[w];
            var m' := Next(m, Commits(w));
            m'.events == m.events + [Lease(id, w, a.now, a.now + a.leaseSeconds)] && m'.clock == m.clock &&
            m'.db == m.db.(jobs := m.db.jobs[id := Leased(m.db.jobs[id], a)])
  {
  }

  lemma CommitKeepsSpaced(m: Machine, w: nat)
    requires Inv(m) && w in m.workers && m.workers[w].Holding?
    ensures Spaced(Next(m, Commits(w)).events)
  {
  }

  lemma CommitKeepsRows(m: Machine, w: nat)
    requires Inv(m) && w in m.workers && m.workers[w].Holding?
    ensures var m' := Next(m, Commits(w)); RowsOk(m'.db, m'.events) && StartedBy(m'.events, m'.clock)
  {
  }

  lemma CommitKeepsJobs(m: Machine, w: nat)
    requires JobsOk(m.events, m.db.jobs) && w in m.workers && m.workers[w].Holding? && WorkerOk(m, w)
    ensures var m' := Next(m, Commits(w)); JobsOk(m'.events, m'.db.jobs)
  {
    CommitEvent(m, w);
    LeaseKeepsJobs(m.events, m.db.jobs, w, m.workers[w].ask, m.workers[w].id);
  }

  lemma CommitKeepsInv(m: Machine, w: nat)
    requires Inv(m)
    ensures Inv(Next(m, Commits(w)))
  {
    if w in m.workers && m.workers[w].Holding? {
      CommitKeepsSpaced(m, w);
      CommitKeepsRows(m, w);
      CommitKeepsJobs(m, w);
      CommitKeepsWorkers(m, w);
    }
  }

  lemma UpdateKeepsWorkers(m: Machine, id: Id, status: Status, stage: string, error: Option<string>)
    requires Inv(m) && id !in Locked(m.workers)
    ensures var m' := Next(m, Updates(id, status, stage, error)); forall w | w in m'.workers :: WorkerOk(m', w)
  {
  }

  lemma UpdateEvent(m: Machine, id: Id, status: Status, stage: string, error: Option<string>)
    requires id !in Locked(m.workers) && Update(m.db, id, status, stage, error).1.Found?
    ensures var m' := Next(m, Updates(id, status, stage, error));
            id in m.db.jobs &&
            var j := Updated(m.db.jobs[id], status, stage, error);
            m'.events == m.events + [Change(id, status)] && m'.clock == m.clock && m'.workers == m.workers &&
            m'.db.keys == m.db.keys && m'.db.runs.Keys == m.db.runs.Keys && m'.db.jobs == m.db.jobs[id := j] && JobChecks(j)
  {
    if id in m.db.runs {
      assert m.db.runs[id := RunFailed].Keys == m.db.runs.Keys;
    }
  }

  lemma UpdateKeepsJobs(m: Machine, id: Id, status: Status, stage: string, error: Option<string>)
    requires JobsOk(m.events, m.db.jobs) && id !in Locked(m.workers) && Update(m.db, id, status, stage, error).1.Found?
    ensures var m' := Next(m, Updates(id, status, stage, error)); JobsOk(m'.events, m'.db.jobs)
  {
    UpdateEvent(m, id, status, stage, error);
    ChangeKeepsJobs(m.events, m.db.jobs, id, Updated(m.db.jobs[id], status, stage, error));
  }

  lemma UpdateKeepsRows(m: Machine, id: Id, status: Status, stage: string, error: Option<string>)
    requires RowsOk(m.db, m.events) && Spaced(m.events) && StartedBy(m.events, m.clock)
    requires id !in Locked(m.workers) && Update(m.db, id, status, stage, error).1.Found?
    ensures var m' := Next(m, Updates(id, status, stage, error));
            RowsOk(m'.db, m'.events) && Spaced(m'.events) && StartedBy(m'.events, m'.clock)
  {
    UpdateEvent(m, id, status, stage, error);
    SpacedAppend(m.events, Change(id, status));
    assert m.db.jobs[id := Updated(m.db.jobs[id], status, stage, error)].Keys == m.db.jobs.Keys;
  }

  lemma UpdateKeepsInv(m: Machine, id: Id, status: Status, stage: string, error: Option<string>)
    requires Inv(m)
    ensures Inv(Next(m, Updates(id, status, stage, error)))
  {
    if id !in Locked(m.workers) && Update(m.db, id, status, stage, error).1.Found? {
      UpdateKeepsRows(m, id, status, stage, error);
      UpdateKeepsJobs(m, id, status, stage, error);
      UpdateKeepsWorkers(m, id, status, stage, error);
    }
  }

  lemma WorkerStepKeepsInv(m: Machine, w: nat, worker: Worker)
    requires Inv(m) && (worker == Empty || worker == Raised || (worker.Asking? && worker.ask.now == m.clock))
    ensures Inv(Become(m, w, worker))
  {
  }

  lemma TickKeepsInv(m: Machine, seconds: nat)
    requires Inv(m)
    ensures Inv(Next(m, Tick(seconds)))
  {
  }

  lemma NextKeepsInv(m: Machine, s: Step)
    requires Inv(m)
    ensures Inv(Next(m, s))
  {
    match s
    case Tick(seconds) => TickKeepsInv(m, seconds);
    case Enqueues(key, newRun, recordedAt) => EnqueueKeepsInv(m, key, newRun, recordedAt);
    case Begins(w, lease, most) => WorkerStepKeepsInv(m, w, Asking(Ask(m.clock, lease, most)));
    case Locks(w, id) => LockKeepsInv(m, w, id);
    case FindsNone(w) => WorkerStepKeepsInv(m, w, Empty);
    case Commits(w) => CommitKeepsInv(m, w);
    case RollsBack(w) => WorkerStepKeepsInv(m, w, Raised);
    case Updates(id, status, stage, error) => UpdateKeepsInv(m, id, status, stage, error);
  }

  lemma {:induction false} ExecutionKeepsInv(m: Machine, steps: seq<Step>)
    requires Inv(m)
    ensures Inv(Execution(m, steps))
    decreases |steps|
  {
    if steps != [] {
      NextKeepsInv(m, steps[0]);
      ExecutionKeepsInv(Next(m, steps[0]), steps[1..]);
    }
  }

  ghost predicate Reachable(m: Machine) {
    exists clock, steps :: Execution(Start(clock), steps) == m
  }

  lemma ReachableIsSound(m: Machine)
    requires Reachable(m)
    ensures Inv(m)
  {
    var clock, steps :| Execution(Start(clock), steps) == m;
    ExecutionKeepsInv(Start(clock), steps);
  }

  // ---------- lease safety ----------

  /**
   * In every interleaving of workers: a job has been leased as often as its attempt column says, at most three
   * times in all, and of two leases between which every update reports RUNNING the second starts when the first is
   * over.
   */
  lemma LeaseSafety(m: Machine)
    requires Reachable(m)
    ensures Disjoint(m.events)
    ensures forall id | id in m.db.jobs :: Leases(m.events, id) == m.db.jobs[id].attempt <= MOST_ATTEMPTS
    ensures forall e | e in m.events && e.Lease? :: e.from <= m.clock
  {
    ReachableIsSound(m);
    SpacedIsDisjoint(m.events);
    forall id | id in m.db.jobs ensures Leases(m.events, id) == m.db.jobs[id].attempt <= MOST_ATTEMPTS {
      assert JobOk(m.events, id, m.db.jobs[id]);
    }
  }

  /** Two workers never hold one job, and while one holds it the job cannot be updated. */
  lemma HoldersAreExclusive(m: Machine, v: nat, w: nat, status: Status, stage: string, error: Option<string>)
    requires Reachable(m) && v in m.workers && w in m.workers && m.workers[v].Holding? && m.workers[w].Holding?
    ensures m.workers[v].id == m.workers[w].id ==> v == w
    ensures Next(m, Updates(m.workers[v].id, status, stage, error)) == m
  {
    ReachableIsSound(m);
    assert m.workers[v].id in Locked(m.workers);
  }

  predicate AtMost(steps: seq<Step>, most: int) {
    forall s | s in steps && s.Begins? :: s.maxAttempts <= most
  }

  predicate AsksCapped(workers: map<nat, Worker>, most: int) {
    forall w | w in workers && (workers[w].Asking? || workers[w].Holding?) :: workers[w].ask.maxAttempts <= most
  }

  predicate JobsCapped(jobs: map<Id, Job>, most: int) {
    forall id | id in jobs :: jobs[id].attempt <= 0 || jobs[id].attempt <= most
  }

  predicate Capped(m: Machine, most: int) {
    AsksCapped(m.workers, most) && JobsCapped(m.db.jobs, most)
  }

  lemma NextKeepsAsksCapped(m: Machine, s: Step, most: int)
    requires AsksCapped(m.workers, most) && (s.Begins? ==> s.maxAttempts <= most)
    ensures AsksCapped(Next(m, s).workers, most)
  {
  }

  lemma NextKeepsJobsCapped(m: Machine, s: Step, most: int)
    requires Inv(m) && AsksCapped(m.workers, most) && JobsCapped(m.db.jobs, most)
    ensures JobsCapped(Next(m, s).db.jobs, most)
  {
    if s.Commits? {
      if s.worker in m.workers && m.workers[s.worker].Holding? {
        assert WorkerOk(m, s.worker);
        CommitEvent(m, s.worker);
      }
    } else if s.Updates? && s.id !in Locked(m.workers) && Update(m.db, s.id, s.status, s.stage, s.error).1.Found? {
      UpdateEvent(m, s.id, s.status, s.stage, s.error);
    } else if !s.Enqueues? && !s.Updates? {
      OtherStep(m, s);
    }
  }

  lemma NextKeepsCapped(m: Machine, s: Step, most: int)
    requires Inv(m) && Capped(m, most) && AtMost([s], most)
    ensures Capped(Next(m, s), most)
  {
    assert s in [s];
    NextKeepsAsksCapped(m, s, most);
    NextKeepsJobsCapped(m, s, most);
  }

  lemma {:induction false} ExecutionKeepsCapped(m: Machine, steps: seq<Step>, most: int)
    requires Inv(m) && Capped(m, most) && AtMost(steps, most)
    ensures Capped(Execution(m, steps), most)
    decreases |steps|
  {
    if steps != [] {
      assert steps == [steps[0]] + steps[1..];
      NextKeepsInv(m, steps[0]);
      NextKeepsCapped(m, steps[0], most);
      ExecutionKeepsCapped(Next(m, steps[0]), steps[1..], most);
    }
  }

  /** When every acquisition asks for at most this many attempts, no job is leased more often. */
  lemma AcquisitionsAreBounded(clock: int, steps: seq<Step>, most: nat, id: Id)
    requires AtMost(steps, most)
    ensures var m := Execution(Start(clock), steps);
            id in m.db.jobs ==> Leases(m.events, id) <= most && Leases(m.events, id) <= MOST_ATTEMPTS
  {
    var m := Execution(Start(clock), steps);
    ExecutionKeepsInv(Start(clock), steps);
    ExecutionKeepsCapped(Start(clock), steps, most);
    if id in m.db.jobs {
      assert JobOk(m.events, id, m.db.jobs[id]);
    }
  }

  // ---------- work runs out ----------

  /** The attempts that are left to all jobs together. */
  ghost function Remaining(jobs: map<Id, Job>): int {
    if jobs == map[] then 0
    else
      var id :| id in jobs;
      MOST_ATTEMPTS - jobs[id].attempt + Remaining(jobs - {id})
  }

  lemma {:induction false} RemainingSplit(jobs: map<Id, Job>, id: Id)
    requires id in jobs
    ensures Remaining(jobs) == MOST_ATTEMPTS - jobs[id].attempt + Remaining(jobs - {id})
    decreases |jobs|
  {
    var first :| first in jobs && Remaining(jobs) == MOST_ATTEMPTS - jobs[first].attempt + Remaining(jobs - {first});
    if first != id {
      RemainingSplit(jobs - {first}, id);
      RemainingSplit(jobs - {id}, first);
      assert jobs - {first} - {id} == jobs - {id} - {first};
    }
  }

  lemma RemainingUpdate(jobs: map<Id, Job>, id: Id, j: Job)
    ensures Remaining(jobs[id := j]) ==
              Remaining(jobs) + if id in jobs then jobs[id].attempt - j.attempt else MOST_ATTEMPTS - j.attempt
  {
    RemainingSplit(jobs[id := j], id);
    assert jobs[id := j] - {id} == jobs - {id};
    if id in jobs {
      RemainingSplit(jobs, id);
    } else {
      assert jobs - {id} == jobs;
    }
  }

  function AllLeases(events: seq<Event>): nat {
    if events == [] then 0
    else AllLeases(events[..|events| - 1]) + if events[|events| - 1].Lease? then 1 else 0
  }

  lemma AllLeasesAppend(events: seq<Event>, e: Event)
    ensures AllLeases(events + [e]) == AllLeases(events) + if e.Lease? then 1 else 0
  {
  }

  lemma MeasureOfCommit(m: Machine, w: nat)
    requires Inv(m) && w in m.workers && m.workers[w].Holding?
    ensures var m' := Next(m, Commits(w));
            Remaining(m'.db.jobs) == Remaining(m.db.jobs) - 1 && AllLeases(m'.events) == AllLeases(m.events) + 1 &&
            |m'.db.jobs| == |m.db.jobs|
  {
    assert WorkerOk(m, w);
    var Holding(a, id) := m.workers[w];
    CommitEvent(m, w);
    RemainingUpdate(m.db.jobs, id, Leased(m.db.jobs[id], a));
    AllLeasesAppend(m.events, Lease(id, w, a.now, a.now + a.leaseSeconds));
    assert m.db.jobs[id := Leased(m.db.jobs[id], a)].Keys == m.db.jobs.Keys;
  }

  lemma MeasureOfUpdate(m: Machine, id: Id, status: Status, stage: string, error: Option<string>)
    ensures var m' := Next(m, Updates(id, status, stage, error));
            Remaining(m'.db.jobs) == Remaining(m.db.jobs) && AllLeases(m'.events) == AllLeases(m.events) &&
            |m'.db.jobs| == |m.db.jobs|
  {
    if id !in Locked(m.workers) && Update(m.db, id, status, stage, error).1.Found? {
      var j := Updated(m.db.jobs[id], status, stage, error);
      UpdateEvent(m, id, status, stage, error);
      RemainingUpdate(m.db.jobs, id, j);
      AllLeasesAppend(m.events, Change(id, status));
      assert m.db.jobs[id := j].Keys == m.db.jobs.Keys;
    }
  }

  lemma MeasureOfNewJob(jobs: map<Id, Job>, id: Id, j: Job)
    requires id !in jobs && j.attempt == 0
    ensures Remaining(jobs[id := j]) - MOST_ATTEMPTS * |jobs[id := j]| == Remaining(jobs) - MOST_ATTEMPTS * |jobs|
  {
    RemainingUpdate(jobs, id, j);
    assert jobs[id := j].Keys == jobs.Keys + {id};
  }

  lemma MeasureOfEnqueue(m: Machine, key: Key, newRun: Id, recordedAt: int)
    ensures var m' := Next(m, Enqueues(key, newRun, recordedAt));
            Remaining(m'.db.jobs) - MOST_ATTEMPTS * |m'.db.jobs| == Remaining(m.db.jobs) - MOST_ATTEMPTS * |m.db.jobs| &&
            m'.events == m.events
  {
    if newRun !in m.db.jobs {
      MeasureOfNewJob(m.db.jobs, newRun, NewJob(recordedAt));
    }
  }

  /** Other steps leave jobs and events as they are. */
  lemma OtherStep(m: Machine, s: Step)
    requires !s.Enqueues? && !s.Commits? && !s.Updates?
    ensures Next(m, s).db == m.db && Next(m, s).events == m.events
  {
  }

  /** Each acquisition takes one of the attempts that are left; a new job brings three; nothing else counts. */
  lemma MeasureOfStep(m: Machine, s: Step)
    requires Inv(m)
    ensures var m' := Next(m, s);
            Remaining(m'.db.jobs) + AllLeases(m'.events) - MOST_ATTEMPTS * |m'.db.jobs| ==
              Remaining(m.db.jobs) + AllLeases(m.events) - MOST_ATTEMPTS * |m.db.jobs|
  {
    match s
    case Enqueues(key, newRun, recordedAt) => MeasureOfEnqueue(m, key, newRun, recordedAt);
    case Commits(w) =>
      if w in m.workers && m.workers[w].Holding? {
        MeasureOfCommit(m, w);
      }
    case Updates(id, status, stage, error) => MeasureOfUpdate(m, id, status, stage, error);
    case _ => OtherStep(m, s);
  }

  lemma {:induction false} MeasureOfRun(m: Machine, steps: seq<Step>)
    requires Inv(m) && Remaining(m.db.jobs) + AllLeases(m.events) == MOST_ATTEMPTS * |m.db.jobs|
    ensures var m' := Execution(m, steps); Remaining(m'.db.jobs) + AllLeases(m'.events) == MOST_ATTEMPTS * |m'.db.jobs|
    decreases |steps|
  {
    if steps != [] {
      NextKeepsInv(m, steps[0]);
      MeasureOfStep(m, steps[0]);
      MeasureOfRun(Next(m, steps[0]), steps[1..]);
    }
  }

  lemma {:induction false} RemainingIsNatural(jobs: map<Id, Job>)
    requires forall id | id in jobs :: jobs[id].attempt <= MOST_ATTEMPTS
    ensures Remaining(jobs) >= 0
    decreases |jobs|
  {
    if jobs != map[] {
      var first :| first in jobs && Remaining(jobs) == MOST_ATTEMPTS - jobs[first].attempt + Remaining(jobs - {first});
      RemainingIsNatural(jobs - {first});
    }
  }

  /** Over any run the acquisitions and the attempts that are left add up to three for each job. */
  lemma WorkIsConserved(m: Machine)
    requires Reachable(m)
    ensures AllLeases(m.events) + Remaining(m.db.jobs) == MOST_ATTEMPTS * |m.db.jobs|
    ensures Remaining(m.db.jobs) >= 0
  {
    var clock, steps :| Execution(Start(clock), steps) == m;
    MeasureOfRun(Start(clock), steps);
    LeaseSafety(m);
    RemainingIsNatural(m.db.jobs);
  }

  // ---------- finished jobs, failed runs, repeated requests ----------

  predicate Updating(s: Step, id: Id) {
    s.Updates? && s.id == id
  }

  predicate Finished(m: Machine, id: Id) {
    id in m.db.jobs && Terminal(m.db.jobs[id].status)
  }

  lemma CommitKeepsFinished(m: Machine, w: nat, id: Id)
    requires Inv(m) && Finished(m, id) && w in m.workers && m.workers[w].Holding?
    ensures var m' := Next(m, Commits(w));
            id in m'.db.jobs && m'.db.jobs[id] == m.db.jobs[id] && Leases(m'.events, id) == Leases(m.events, id)
  {
    assert WorkerOk(m, w);
    var Holding(a, held) := m.workers[w];
    CommitEvent(m, w);
    EventsAppend(m.events, Lease(held, w, a.now, a.now + a.leaseSeconds), id);
  }

  lemma UpdateKeepsFinished(m: Machine, other: Id, status: Status, stage: string, error: Option<string>, id: Id)
    requires Finished(m, id) && other != id
    ensures var m' := Next(m, Updates(other, status, stage, error));
            id in m'.db.jobs && m'.db.jobs[id] == m.db.jobs[id] && Leases(m'.events, id) == Leases(m.events, id)
  {
    if other !in Locked(m.workers) && Update(m.db, other, status, stage, error).1.Found? {
      UpdateEvent(m, other, status, stage, error);
      EventsAppend(m.events, Change(other, status), id);
    }
  }

  lemma NextKeepsFinished(m: Machine, s: Step, id: Id)
    requires Inv(m) && Finished(m, id) && !Updating(s, id)
    ensures var m' := Next(m, s);
            Finished(m', id) && m'.db.jobs[id] == m.db.jobs[id] && Leases(m'.events, id) == Leases(m.events, id)
  {
    if s.Commits? {
      if s.worker in m.workers && m.workers[s.worker].Holding? {
        CommitKeepsFinished(m, s.worker, id);
      }
    } else if s.Updates? {
      UpdateKeepsFinished(m, s.id, s.status, s.stage, s.error, id);
    }
  }

  /** A job that is finished is never leased again, and stays as it is, until someone updates it. */
  lemma {:induction false} FinishedStaysFinished(m: Machine, steps: seq<Step>, id: Id)
    requires Inv(m) && Finished(m, id) && forall s | s in steps :: !Updating(s, id)
    ensures var m' := Execution(m, steps);
            Finished(m', id) && m'.db.jobs[id] == m.db.jobs[id] && Leases(m'.events, id) == Leases(m.events, id)
    decreases |steps|
  {
    if steps != [] {
      assert steps[0] in steps && forall s | s in steps[1..] :: s in steps;
      NextKeepsInv(m, steps[0]);
      NextKeepsFinished(m, steps[0], id);
      FinishedStaysFinished(Next(m, steps[0]), steps[1..], id);
    }
  }

  lemma NextKeepsRunsAndKeys(m: Machine, s: Step, run: Id, key: Key)
    ensures var m' := Next(m, s);
            (run in m.db.runs && m.db.runs[run] == RunFailed ==> run in m'.db.runs && m'.db.runs[run] == RunFailed) &&
            (key in m.db.keys ==> key in m'.db.keys && m'.db.keys[key] == m.db.keys[key])
  {
  }

  lemma {:induction false} RunStaysFailed(m: Machine, steps: seq<Step>, run: Id)
    requires run in m.db.runs && m.db.runs[run] == RunFailed
    ensures var m' := Execution(m, steps); run in m'.db.runs && m'.db.runs[run] == RunFailed
    decreases |steps|
  {
    if steps != [] {
      NextKeepsRunsAndKeys(m, steps[0], run, Key(0, 0, "", "", ""));
      RunStaysFailed(Next(m, steps[0]), steps[1..], run);
    }
  }

  /**
   * An accepted update to FAILED or CANCELLED fails the run at once and for good, also when the job has attempts
   * left and is later queued and leased again; no other update changes a run.
   */
  lemma RunFailsWithItsJob(m: Machine, id: Id, status: Status, stage: string, error: Option<string>, steps: seq<Step>)
    requires Reachable(m) && id !in Locked(m.workers) && Update(m.db, id, status, stage, error).1.Found?
    ensures var m1 := Next(m, Updates(id, status, stage, error));
            if status in {FAILED, CANCELLED} then
              var m2 := Execution(m1, steps); id in m2.db.runs && m2.db.runs[id] == RunFailed
            else m1.db.runs == m.db.runs
  {
    ReachableIsSound(m);
    var s := Updates(id, status, stage, error);
    NextKeepsInv(m, s);
    if status in {FAILED, CANCELLED} {
      RunStaysFailed(Next(m, s), steps, id);
    }
  }

  lemma {:induction false} ExecutionAppend(m: Machine, steps: seq<Step>, s: Step)
    ensures Execution(m, steps + [s]) == Next(Execution(m, steps), s)
    decreases |steps|
  {
    if steps == [] {
      assert [] + [s] == [s] && [s][1..] == [];
    } else {
      assert (steps + [s])[1..] == steps[1..] + [s];
      ExecutionAppend(Next(m, steps[0]), steps[1..], s);
    }
  }

  lemma ReachableNext(m: Machine, s: Step)
    requires Reachable(m)
    ensures Reachable(Next(m, s))
  {
    var clock, steps :| Execution(Start(clock), steps) == m;
    ExecutionAppend(Start(clock), steps, s);
    assert Execution(Start(clock), steps + [s]) == Next(m, s);
  }

  /** A worker leases the only job. */
  lemma LeaseOnly(m: Machine, w: nat) returns (m': Machine)
    requires Reachable(m) && w !in m.workers && 0 in m.db.runs && m.db.jobs.Keys == {0}
    requires forall v | v in m.workers :: !m.workers[v].Holding?
    requires Eligible(m.db.jobs[0], Ask(m.clock, 900, 3)) && JobChecks(Leased(m.db.jobs[0], Ask(m.clock, 900, 3)))
    ensures Reachable(m') && m'.clock == m.clock && m'.db.runs == m.db.runs
    ensures m'.db.jobs == m.db.jobs[0 := Leased(m.db.jobs[0], Ask(m.clock, 900, 3))]
    ensures m'.events == m.events + [Lease(0, w, m.clock, m.clock + 900)]
    ensures m'.workers == m.workers[w := Granted(0, m.db.jobs[0].attempt + 1)]
  {
    var a := Ask(m.clock, 900, 3);
    ReachableNext(m, Begins(w, 900, 3));
    var m1 := Next(m, Begins(w, 900, 3));
    LocksOnly(m1, w, a);
    ReachableNext(m1, Locks(w, 0));
    var m2 := Next(m1, Locks(w, 0));
    ReachableNext(m2, Commits(w));
    CommitEvent(m2, w);
    m' := Next(m2, Commits(w));
    assert m'.workers == m.workers[w := Granted(0, m.db.jobs[0].attempt + 1)];
  }

  lemma LocksOnly(m: Machine, w: nat, a: Ask)
    requires w in m.workers && m.workers[w] == Asking(a) && 0 in m.db.runs && m.db.jobs.Keys == {0}
    requires forall v | v in m.workers && v != w :: !m.workers[v].Holding?
    requires Eligible(m.db.jobs[0], a) && JobChecks(Leased(m.db.jobs[0], a))
    ensures Next(m, Locks(w, 0)) == Become(m, w, Holding(a, 0))
  {
    assert 0 !in Locked(m.workers);
    assert Candidate(m.db, Locked(m.workers), a, 0);
    assert Picked(m.db, Locked(m.workers), a, 0);
  }

  /** One job, leased once. */
  lemma LeasedOnce(key: Key) returns (m: Machine)
    requires KeyChecks(key)
    ensures Reachable(m) && m.db.runs == map[0 := RunRunning] && m.clock == 0
    ensures m.db.jobs == map[0 := Leased(NewJob(0), Ask(0, 900, 3))]
    ensures m.workers == map[0 := Granted(0, 1)] && m.events == [Lease(0, 0, 0, 900)]
  {
    m := Start(0);
    assert Execution(Start(0), []) == m;
    ReachableNext(m, Enqueues(key, 0, 0));
    m := Next(m, Enqueues(key, 0, 0));
    assert NewJob(0).stage[0] != ' ';
    m := LeaseOnly(m, 0);
  }

  /** The condition is needed: an update back to QUEUED lets a second worker lease the job while the first lease lasts. */
  lemma RequeuedLeasesOverlap(key: Key) returns (m: Machine)
    requires KeyChecks(key)
    ensures Reachable(m)
    ensures m.events == [Lease(0, 0, 0, 900), Change(0, QUEUED), Lease(0, 1, 0, 900)]
  {
    m := LeasedOnce(key);
    var job := m.db.jobs[0];
    var requeue := Updates(0, QUEUED, "QUEUED", None);
    assert requeue.stage[0] != ' ' && Locked(m.workers) == {};
    ReachableNext(m, requeue);
    UpdateEvent(m, 0, QUEUED, "QUEUED", None);
    m := Next(m, requeue);
    assert m.db.jobs[0] == Updated(job, QUEUED, "QUEUED", None) && m.workers == map[0 := Granted(0, 1)];
    m := LeaseOnly(m, 1);
  }

  /** The comment in the source speaks of exhausted attempts; here two are left when the run fails. */
  lemma RunFailsWithAttemptsLeft(key: Key, stage: string) returns (m: Machine)
    requires KeyChecks(key) && !OnlyBlanks(stage) && |stage| <= 50
    ensures Reachable(m) && 0 in m.db.jobs && m.db.jobs[0].status == RUNNING && m.db.jobs[0].attempt == 1
    ensures 0 in m.db.runs && m.db.runs[0] == RunRunning
    ensures var m' := Next(m, Updates(0, FAILED, stage, None)); 0 in m'.db.runs && m'.db.runs[0] == RunFailed
  {
    m := LeasedOnce(key);
  }

  /** Given a stage and an error that fit, exactly the statuses outside the check are refused, COMPLETED among them. */
  lemma StatusRefusedIff(m: Machine, id: Id, status: Status, stage: string, error: Option<string>)
    requires Reachable(m) && id in m.db.jobs && !OnlyBlanks(stage) && |stage| <= 50
    requires error.Some? ==> |error.value| <= 100
    ensures Update(m.db, id, status, stage, error) == (m.db, ConstraintViolation) <==> !KnownStatus(status)
    ensures Update(m.db, id, COMPLETED, stage, error) == (m.db, ConstraintViolation)
  {
    ReachableIsSound(m);
    assert JobOk(m.events, id, m.db.jobs[id]);
  }

  lemma {:induction false} KeyStays(m: Machine, steps: seq<Step>, key: Key)
    requires key in m.db.keys
    ensures var m' := Execution(m, steps); key in m'.db.keys && m'.db.keys[key] == m.db.keys[key]
    decreases |steps|
  {
    if steps != [] {
      NextKeepsRunsAndKeys(m, steps[0], 0, key);
      KeyStays(Next(m, steps[0]), steps[1..], key);
    }
  }

  /** Enqueueing the same configuration again, at any later point, returns the same run and changes nothing. */
  lemma EnqueueIsIdempotent(
    m: Machine, key: Key, newRun: Id, at: int, steps: seq<Step>, otherRun: Id, later: int)
    requires Reachable(m) && Enqueue(m.db, key, newRun, at).1.Found?
    ensures var m2 := Execution(Next(m, Enqueues(key, newRun, at)), steps);
            Enqueue(m2.db, key, otherRun, later) == (m2.db, Enqueue(m.db, key, newRun, at).1)
  {
    ReachableIsSound(m);
    var m1 := Next(m, Enqueues(key, newRun, at));
    NextKeepsInv(m, Enqueues(key, newRun, at));
    KeyStays(m1, steps, key);
    ExecutionKeepsInv(m1, steps);
  }

  // ---------- what the query finds ----------

  lemma {:induction false} EarliestExists(db: Db, among: set<Id>)
    requires among != {} && among <= db.jobs.Keys
    ensures exists id | id in among :: forall other | other in among :: db.jobs[id].recordedAt <= db.jobs[other].recordedAt
    decreases |among|
  {
    var first :| first in among;
    var rest := among - {first};
    if rest == {} {
      assert among == {first};
    } else {
      EarliestExists(db, rest);
      var best :| best in rest && forall other | other in rest :: db.jobs[best].recordedAt <= db.jobs[other].recordedAt;
      var id := if db.jobs[first].recordedAt <= db.jobs[best].recordedAt then first else best;
      forall other | other in among ensures db.jobs[id].recordedAt <= db.jobs[other].recordedAt {
        assert other == first || other in rest;
      }
    }
  }

  /**
   * The query comes back empty exactly when each unlocked job with attempts left is neither queued nor running
   * on a lease that is over.
   */
  lemma NothingOrSomething(db: Db, locked: set<Id>, a: Ask)
    ensures NothingToPick(db, locked, a) <==> !exists id :: Picked(db, locked, a, id)
    ensures NothingToPick(db, locked, a) <==>
              forall id | id in db.jobs && id !in locked && db.jobs[id].attempt < a.maxAttempts ::
                var j := db.jobs[id];
                j.status != QUEUED && (j.status == RUNNING ==> j.leasedUntil == None || j.leasedUntil.value > a.now)
  {
    var among := set id | id in db.jobs && Candidate(db, locked, a, id);
    if !NothingToPick(db, locked, a) {
      var some :| some in db.jobs && Candidate(db, locked, a, some);
      assert some in among;
      EarliestExists(db, among);
      var id :| id in among && forall other | other in among :: db.jobs[id].recordedAt <= db.jobs[other].recordedAt;
      assert Picked(db, locked, a, id);
    }
  }
}
