/** Ingestion jobs of one tenant: enqueueing, leasing to workers that skip locked rows, and updating. */
module Ingestion {
  import opened Common

  /** The status column of a job admits the first six; the others are what a caller may still pass. */
  datatype Status = QUEUED | RUNNING | READY | REVIEW_REQUIRED | FAILED | CANCELLED | COMPLETED | Other(text: string)

  datatype RunStatus = RunRunning | RunFailed | RunCompleted

  /** The unique columns of a run. */
  datatype Key = Key(binding: Id, schemaVersion: int, parser: string, chunker: string, embedding: string)

  /** A run has one job, so a job goes by the id of its run. */
  datatype Job = Job(status: Status, attempt: int, leasedUntil: Option<int>, stage: string, error: Option<string>, recordedAt: int)

  datatype Db = Db(keys: map<Key, Id>, runs: map<Id, RunStatus>, jobs: map<Id, Job>)

  const MOST_ATTEMPTS := 3

  predicate KnownStatus(s: Status) {
    s in {QUEUED, RUNNING, READY, REVIEW_REQUIRED, FAILED, CANCELLED}
  }

  /** The statuses after which update_job clears the lease. */
  predicate Terminal(s: Status) {
    s in {FAILED, COMPLETED, READY, REVIEW_REQUIRED, CANCELLED}
  }

  predicate JobChecks(j: Job) {
    KnownStatus(j.status) && 0 <= j.attempt <= MOST_ATTEMPTS && !OnlyBlanks(j.stage) && |j.stage| <= 50 &&
    (j.error.Some? ==> |j.error.value| <= 100)
  }

  predicate KeyChecks(k: Key) {
    k.schemaVersion > 0 && !OnlyBlanks(k.parser) && !OnlyBlanks(k.chunker) && !OnlyBlanks(k.embedding) &&
    |k.parser| <= 50 && |k.chunker| <= 50 && |k.embedding| <= 200
  }

  // ---------- enqueue_run ----------

  datatype Reply = Found(run: Id) | JobNotFound | ConstraintViolation

  function NewJob(recordedAt: int): Job {
    Job(QUEUED, 0, None, "QUEUED", None, recordedAt)
  }

  function Enqueue(db: Db, key: Key, newRun: Id, recordedAt: int): (Db, Reply) {
    if key in db.keys then (db, if db.keys[key] in db.jobs then Found(db.keys[key]) else JobNotFound)
    else if !KeyChecks(key) || newRun in db.runs || newRun in db.jobs then (db, ConstraintViolation)
    else
      (Db(db.keys[key := newRun], db.runs[newRun := RunRunning], db.jobs[newRun := NewJob(recordedAt)]), Found(newRun))
  }

  // ---------- acquire_job ----------

  /** What one acquisition asks for, with the time it read at its start. */
  datatype Ask = Ask(now: int, leaseSeconds: int, maxAttempts: int)

  /** A running job without a lease is never eligible: NULL is not less than any time. */
  predicate Eligible(j: Job, a: Ask) {
    j.attempt < a.maxAttempts &&
    (j.status == QUEUED || (j.status == RUNNING && j.leasedUntil.Some? && j.leasedUntil.value <= a.now))
  }

  predicate Candidate(db: Db, locked: set<Id>, a: Ask, id: Id) {
    id in db.jobs && id !in locked && Eligible(db.jobs[id], a)
  }

  /** The query returns an unlocked eligible job, none of which was recorded earlier. */
  predicate Picked(db: Db, locked: set<Id>, a: Ask, id: Id) {
    Candidate(db, locked, a, id) &&
    forall other | other in db.jobs && Candidate(db, locked, a, other) :: db.jobs[id].recordedAt <= db.jobs[other].recordedAt
  }

  predicate NothingToPick(db: Db, locked: set<Id>, a: Ask) {
    forall id | id in db.jobs :: !Candidate(db, locked, a, id)
  }

  function Leased(j: Job, a: Ask): Job {
    j.(status := RUNNING, attempt := j.attempt + 1, leasedUntil := Some(a.now + a.leaseSeconds))
  }

  // ---------- update_job ----------

  function Updated(j: Job, status: Status, stage: string, error: Option<string>): Job {
    j.(status := status, stage := stage, error := error, leasedUntil := if Terminal(status) then None else j.leasedUntil)
  }

  function Update(db: Db, id: Id, status: Status, stage: string, error: Option<string>): (Db, Reply) {
    if id !in db.jobs then (db, JobNotFound)
    else
      var j := Updated(db.jobs[id], status, stage, error);
      if !JobChecks(j) then (db, ConstraintViolation)
      else
        // the run fails with its job at once, whatever attempts are left
        var runs := if status in {FAILED, CANCELLED} && id in db.runs then db.runs[id := RunFailed] else db.runs;
        (Db(db.keys, runs, db.jobs[id := j]), Found(id))
  }

  // ---------- many workers ----------

  datatype Worker =
    | Asking(ask: Ask)
    | Holding(ask: Ask, id: Id)
    | Granted(id: Id, attempt: int)
    | Empty
    | Raised

  /** What happened to jobs, in commit order. */
  datatype Event =
    | Lease(id: Id, worker: nat, from: int, until: int)
    | Change(id: Id, status: Status)

  datatype Machine = Machine(clock: int, db: Db, workers: map<nat, Worker>, events: seq<Event>)

  datatype Step =
    | Tick(seconds: nat)
    | Enqueues(key: Key, newRun: Id, recordedAt: int)
    | Begins(worker: nat, leaseSeconds: int, maxAttempts: int)
    | Locks(worker: nat, id: Id)
    | FindsNone(worker: nat)
    | Commits(worker: nat)
    | RollsBack(worker: nat)
    | Updates(id: Id, status: Status, stage: string, error: Option<string>)

  /** The rows locked by transactions that have flushed and not yet ended. */
  function Locked(workers: map<nat, Worker>): set<Id> {
    set w | w in workers && workers[w].Holding? :: workers[w].id
  }

  function Become(m: Machine, w: nat, worker: Worker): Machine {
    m.(workers := m.workers[w := worker])
  }

  /** The flush checks the row and the run is read; failing either, the caller rolls back. */
  function LockStep(m: Machine, w: nat, a: Ask, id: Id): Machine
    requires id in m.db.jobs
  {
    if !JobChecks(Leased(m.db.jobs[id], a)) || id !in m.db.runs then Become(m, w, Raised)
    else Become(m, w, Holding(a, id))
  }

  function CommitStep(m: Machine, w: nat, a: Ask, id: Id): Machine
    requires id in m.db.jobs
  {
    var j := Leased(m.db.jobs[id], a);
    Machine(m.clock, m.db.(jobs := m.db.jobs[id := j]), m.workers[w := Granted(id, j.attempt)],
            m.events + [Lease(id, w, a.now, a.now + a.leaseSeconds)])
  }

  /** A step that is not possible in a state leaves it as it is. An update waits for a locked row. */
  function Next(m: Machine, s: Step): Machine {
    match s
    case Tick(seconds) => m.(clock := m.clock + seconds)
    case Enqueues(key, newRun, recordedAt) => m.(db := Enqueue(m.db, key, newRun, recordedAt).0)
    case Begins(w, lease, most) => if w in m.workers then m else Become(m, w, Asking(Ask(m.clock, lease, most)))
    case Locks(w, id) =>
      if w in m.workers && m.workers[w].Asking? && Picked(m.db, Locked(m.workers), m.workers[w].ask, id)
      then LockStep(m, w, m.workers[w].ask, id) else m
    case FindsNone(w) =>
      if w in m.workers && m.workers[w].Asking? && NothingToPick(m.db, Locked(m.workers), m.workers[w].ask)
      then Become(m, w, Empty) else m
    case Commits(w) =>
      if w in m.workers && m.workers[w].Holding? && m.workers[w].id in m.db.jobs
      then CommitStep(m, w, m.workers[w].ask, m.workers[w].id) else m
    case RollsBack(w) => if w in m.workers && m.workers[w].Holding? then Become(m, w, Raised) else m
    case Updates(id, status, stage, error) =>
      if id in Locked(m.workers) then m
      else
        var (db', reply) := Update(m.db, id, status, stage, error);
        if reply.Found? then m.(db := db', events := m.events + [Change(id, status)]) else m
  }

  function Execution(m: Machine, steps: seq<Step>): Machine
    decreases |steps|
  {
    if steps == [] then m else Execution(Next(m, steps[0]), steps[1..])
  }

  function Start(clock: int): Machine {
    Machine(clock, Db(map[], map[], map[]), map[], [])
  }
}
