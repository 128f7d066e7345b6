/**
 * Publishing index generations: many callers, each inside one database transaction that a crash rolls back,
 * and one vector index whose writes a crash does not take back.
 */
module Publication {
  import opened Common
  import opened Manifest

  datatype Status = PENDING | VERIFIED | PUBLISHED | FAILED

  /** A run with its chunk hashes in ordinal order. */
  datatype Run = Run(binding: Id, completed: bool, chunks: seq<ChunkHash>)

  /** The unique columns of a generation row. */
  datatype Slot = Slot(run: Id, space: string)

  datatype Generation = Generation(id: Id, status: Status)

  /** The committed tables; a published pointer belongs to a binding. */
  datatype Db = Db(runs: map<Id, Run>, generations: map<Slot, Generation>, published: map<Id, Id>)

  datatype Failure =
    | RunNotFound | RunNotCompleted | NoChunksFound
    | EmbeddingGenerationFailed | UpsertFailed | ManifestVerificationFailed | IntegrityViolation

  /** What a caller works on: the row is PENDING, but in the caller's own transaction only. */
  datatype Work = Work(slot: Slot, generation: Id)

  datatype Caller =
    | Embedding(work: Work)
    | Upserting(work: Work)
    | Broken(work: Work)
    | Verifying(work: Work)
    | Publishing(work: Work, manifest: seq<ManifestPoint>)
    | Swapping(work: Work, manifest: seq<ManifestPoint>, pointerSeen: bool)
    | Returned(generation: Id)
    | Raised(failure: Failure)

  /**
   * `owners` remembers for every generation id ever drawn what it was drawn for, also when its row was rolled
   * back; `certified` remembers the manifest that each publishing transaction had accepted.
   */
  datatype World = World(
    db: Db, index: Index, callers: map<Id, Caller>, owners: map<Id, Slot>, certified: map<Id, seq<ManifestPoint>>)

  datatype Step =
    | Start(caller: Id, slot: Slot, newId: Id)
    | Embeds(caller: Id, ok: bool)
    | Upserts(caller: Id)
    | UpsertBreaks(caller: Id, applied: seq<(PointId, Payload)>)
    | FailsUpsert(caller: Id)
    | Verifies(caller: Id, order: seq<PointId>)
    | VerifyBreaks(caller: Id)
    | LocksPointer(caller: Id)
    | Commits(caller: Id)
    | Crashes(caller: Id)

  predicate Active(c: Caller) {
    !c.Returned? && !c.Raised?
  }

  function Chunks(db: Db, run: Id): seq<ChunkHash> {
    if run in db.runs then db.runs[run].chunks else []
  }

  function ExpectedOf(db: Db, slot: Slot): seq<ManifestPoint> {
    Expected(slot.space, Chunks(db, slot.run))
  }

  function PointsOf(db: Db, w: Work): seq<(PointId, Payload)> {
    Points(w.slot.space, Chunks(db, w.slot.run), w.generation)
  }

  function BindingOf(db: Db, slot: Slot): Option<Id> {
    if slot.run in db.runs then Some(db.runs[slot.run].binding) else None
  }

  // ---------- the parts of generate_index ----------

  /** Insert a PENDING row, or after a unique violation reuse the row there is unless it is done already. */
  function Begin(db: Db, slot: Slot, newId: Id): Caller {
    if slot.run !in db.runs then Raised(RunNotFound)
    else if !db.runs[slot.run].completed then Raised(RunNotCompleted)
    else if db.runs[slot.run].chunks == [] then Raised(NoChunksFound)
    else if slot !in db.generations then Embedding(Work(slot, newId))
    else if db.generations[slot].status in {VERIFIED, PUBLISHED} then Returned(db.generations[slot].id)
    else Embedding(Work(slot, db.generations[slot].id))
  }

  /** Commit the row as FAILED. */
  function CommitFailure(db: Db, w: Work): Db {
    db.(generations := db.generations[w.slot := Generation(w.generation, FAILED)])
  }

  /** The pointer row and the generation row must keep their unique constraints when the transaction commits. */
  predicate PointerAllowed(db: Db, w: Work, pointerSeen: bool) {
    w.slot.run in db.runs &&
    var binding := db.runs[w.slot.run].binding;
    (pointerSeen || binding !in db.published) &&
    forall b | b in db.published && b != binding :: db.published[b] != w.generation
  }

  /** Swap the pointer of the binding and commit the row as PUBLISHED. */
  function CommitPublication(db: Db, w: Work): Db
    requires w.slot.run in db.runs
  {
    db.(generations := db.generations[w.slot := Generation(w.generation, PUBLISHED)],
        published := db.published[db.runs[w.slot.run].binding := w.generation])
  }

  // ---------- steps ----------

  function Become(w: World, c: Id, caller: Caller): World {
    w.(callers := w.callers[c := caller])
  }

  function Fail(w: World, c: Id, failure: Failure): World
    requires c in w.callers && Active(w.callers[c])
  {
    Become(w.(db := CommitFailure(w.db, w.callers[c].work)), c, Raised(failure))
  }

  function StartStep(w: World, c: Id, slot: Slot, newId: Id): World {
    var caller := Begin(w.db, slot, newId);
    if caller.Embedding? then Become(w.(owners := w.owners[caller.work.generation := slot]), c, caller)
    else Become(w, c, caller)
  }

  function VerifyStep(w: World, c: Id, order: seq<PointId>): World
    requires c in w.callers && w.callers[c].Verifying?
  {
    var work := w.callers[c].work;
    var actual := ManifestOf(w.index, order);
    if ValidManifest(ExpectedOf(w.db, work.slot), actual) then Become(w, c, Publishing(work, actual))
    else Fail(w, c, ManifestVerificationFailed)
  }

  function CommitStep(w: World, c: Id): World
    requires c in w.callers && w.callers[c].Swapping?
  {
    var Swapping(work, manifest, seen) := w.callers[c];
    if !PointerAllowed(w.db, work, seen) then Become(w, c, Raised(IntegrityViolation))
    else
      World(CommitPublication(w.db, work), w.index, w.callers[c := Returned(work.generation)], w.owners,
            w.certified[work.generation := manifest])
  }

  /** A step that is not possible in a state leaves it as it is. Fresh ids are fresh; callers act once. */
  function Next(w: World, s: Step): World {
    match s
    case Start(c, slot, newId) =>
      if c in w.callers || newId in w.owners then w else StartStep(w, c, slot, newId)
    case Embeds(c, ok) =>
      if c !in w.callers || !w.callers[c].Embedding? then w
      else if ok then Become(w, c, Upserting(w.callers[c].work))
      else Fail(w, c, EmbeddingGenerationFailed)
    case Upserts(c) =>
      if c !in w.callers || !w.callers[c].Upserting? then w
      else Become(w.(index := Upsert(w.index, PointsOf(w.db, w.callers[c].work))), c, Verifying(w.callers[c].work))
    case UpsertBreaks(c, applied) =>
      if c !in w.callers || !w.callers[c].Upserting? then w
      else
        // a broken request may have been applied in part; nothing is committed yet
        if exists p | p in applied :: p !in PointsOf(w.db, w.callers[c].work) then w
        else Become(w.(index := Upsert(w.index, applied)), c, Broken(w.callers[c].work))
    case FailsUpsert(c) =>
      if c !in w.callers || !w.callers[c].Broken? then w else Fail(w, c, UpsertFailed)
    case Verifies(c, order) =>
      if c !in w.callers || !w.callers[c].Verifying? || !Listing(w.index, w.callers[c].work.generation, order) then w
      else VerifyStep(w, c, order)
    case VerifyBreaks(c) =>
      if c !in w.callers || !w.callers[c].Verifying? then w else Fail(w, c, ManifestVerificationFailed)
    case LocksPointer(c) =>
      if c !in w.callers || !w.callers[c].Publishing? then w
      else
        var Publishing(work, manifest) := w.callers[c];
        Become(w, c, Swapping(work, manifest, work.slot.run in w.db.runs && w.db.runs[work.slot.run].binding in w.db.published))
    case Commits(c) =>
      if c !in w.callers || !w.callers[c].Swapping? then w else CommitStep(w, c)
    case Crashes(c) => w.(callers := w.callers - {c})
  }
}

/** What every run of the protocol keeps when at most one caller works on a generation row at a time. */
module PublicationSafety {
  import opened Common
  import opened Manifest
  import opened Publication

  // ---------- the invariant ----------

  /** Committed rows are final, belong to a run, and carry the id drawn for them. */
  predicate RowsSound(db: Db, owners: map<Id, Slot>) {
    forall slot | slot in db.generations ::
      db.generations[slot].status in {FAILED, PUBLISHED} && slot.run in db.runs &&
      db.generations[slot].id in owners && owners[db.generations[slot].id] == slot
  }

  predicate IsPublished(db: Db, owners: map<Id, Slot>, g: Id) {
    g in owners && owners[g] in db.generations && db.generations[owners[g]] == Generation(g, PUBLISHED)
  }

  /** The pointer of a binding names a published generation of one of its runs, with an accepted manifest. */
  predicate PointerSound(db: Db, owners: map<Id, Slot>, certified: map<Id, seq<ManifestPoint>>, binding: Id)
    requires binding in db.published
  {
    var g := db.published[binding];
    IsPublished(db, owners, g) && BindingOf(db, owners[g]) == Some(binding) &&
    g in certified && ValidManifest(ExpectedOf(db, owners[g]), certified[g])
  }

  predicate PointersSound(db: Db, owners: map<Id, Slot>, certified: map<Id, seq<ManifestPoint>>) {
    forall b | b in db.published :: PointerSound(db, owners, certified, b)
  }

  predicate WorkSound(db: Db, owners: map<Id, Slot>, w: Work) {
    w.generation in owners && owners[w.generation] == w.slot && w.slot.run in db.runs && Chunks(db, w.slot.run) != [] &&
    (w.slot in db.generations ==> db.generations[w.slot] == Generation(w.generation, FAILED))
  }

  predicate CallerSound(db: Db, owners: map<Id, Slot>, c: Caller) {
    match c
    case Returned(g) => IsPublished(db, owners, g)
    case Raised(_) => true
    case Publishing(w, manifest) => WorkSound(db, owners, w) && ValidManifest(ExpectedOf(db, w.slot), manifest)
    case Swapping(w, manifest, _) => WorkSound(db, owners, w) && ValidManifest(ExpectedOf(db, w.slot), manifest)
    case _ => WorkSound(db, owners, c.work)
  }

  /** A point is tagged only with a generation whose run holds its chunk. */
  predicate PointSound(db: Db, owners: map<Id, Slot>, p: PointId, payload: Payload) {
    payload.chunkHash == p.hash && payload.generation in owners &&
    p.space == owners[payload.generation].space && p.hash in Chunks(db, owners[payload.generation].run)
  }

  predicate IndexSound(db: Db, owners: map<Id, Slot>, index: Index) {
    forall p | p in index :: PointSound(db, owners, p, index[p])
  }

  predicate Exclusive(callers: map<Id, Caller>) {
    forall c, c' | c in callers && c' in callers && c != c' && Active(callers[c]) && Active(callers[c']) ::
      callers[c].work.slot != callers[c'].work.slot
  }

  predicate CallersSound(db: Db, owners: map<Id, Slot>, callers: map<Id, Caller>) {
    forall c | c in callers :: CallerSound(db, owners, callers[c])
  }

  predicate Inv(w: World) {
    RowsSound(w.db, w.owners) && PointersSound(w.db, w.owners, w.certified) && IndexSound(w.db, w.owners, w.index) &&
    Exclusive(w.callers) && CallersSound(w.db, w.owners, w.callers)
  }

  /** One caller per run and space at a time. */
  predicate SerialStep(w: World, s: Step) {
    s.Start? ==> forall c | c in w.callers && Active(w.callers[c]) :: w.callers[c].work.slot != s.slot
  }

  // ---------- parts of a step ----------

  lemma BecomeKeeps(w: World, c: Id, caller: Caller)
    requires Inv(w) && CallerSound(w.db, w.owners, caller)
    requires Active(caller) ==> c in w.callers && Active(w.callers[c]) && caller.work == w.callers[c].work
    ensures Inv(Become(w, c, caller))
  {
  }

  lemma FailKeepsPointers(w: World, work: Work)
    requires PointersSound(w.db, w.owners, w.certified) && WorkSound(w.db, w.owners, work)
    ensures PointersSound(CommitFailure(w.db, work), w.owners, w.certified)
  {
  }

  lemma FailKeepsCaller(db: Db, owners: map<Id, Slot>, work: Work, c: Caller)
    requires WorkSound(db, owners, work) && CallerSound(db, owners, c) && (Active(c) ==> c.work.slot != work.slot)
    ensures CallerSound(CommitFailure(db, work), owners, c)
  {
  }

  /** Nobody else works on the row of this caller. */
  predicate Alone(callers: map<Id, Caller>, c: Id, slot: Slot) {
    forall k | k in callers && k != c && Active(callers[k]) :: callers[k].work.slot != slot
  }

  lemma FailKeepsCallers(w: World, c: Id, failure: Failure, work: Work)
    requires WorkSound(w.db, w.owners, work) && CallersSound(w.db, w.owners, w.callers) && Alone(w.callers, c, work.slot)
    ensures CallersSound(CommitFailure(w.db, work), w.owners, w.callers[c := Raised(failure)])
  {
    forall k | k in w.callers && k != c ensures CallerSound(CommitFailure(w.db, work), w.owners, w.callers[k]) {
      FailKeepsCaller(w.db, w.owners, work, w.callers[k]);
    }
  }

  lemma FailKeeps(w: World, c: Id, failure: Failure)
    requires Inv(w) && c in w.callers && Active(w.callers[c])
    ensures Inv(Fail(w, c, failure))
  {
    var work := w.callers[c].work;
    assert CallerSound(w.db, w.owners, w.callers[c]);
    FailKeepsPointers(w, work);
    FailKeepsCallers(w, c, failure, work);
  }

  lemma PublishKeepsCaller(db: Db, owners: map<Id, Slot>, work: Work, c: Caller)
    requires WorkSound(db, owners, work) && CallerSound(db, owners, c) && (Active(c) ==> c.work.slot != work.slot)
    ensures CallerSound(CommitPublication(db, work), owners, c)
  {
  }

  lemma PublishKeepsPointers(w: World, work: Work, manifest: seq<ManifestPoint>)
    requires PointersSound(w.db, w.owners, w.certified) && WorkSound(w.db, w.owners, work)
    requires ValidManifest(ExpectedOf(w.db, work.slot), manifest)
    ensures PointersSound(CommitPublication(w.db, work), w.owners, w.certified[work.generation := manifest])
  {
  }

  lemma PublishKeepsCallers(w: World, c: Id, work: Work)
    requires WorkSound(w.db, w.owners, work) && CallersSound(w.db, w.owners, w.callers) && Alone(w.callers, c, work.slot)
    ensures CallersSound(CommitPublication(w.db, work), w.owners, w.callers[c := Returned(work.generation)])
  {
    forall k | k in w.callers && k != c ensures CallerSound(CommitPublication(w.db, work), w.owners, w.callers[k]) {
      PublishKeepsCaller(w.db, w.owners, work, w.callers[k]);
    }
  }

  lemma PublishKeepsRows(w: World, c: Id, work: Work)
    requires WorkSound(w.db, w.owners, work) && RowsSound(w.db, w.owners) && IndexSound(w.db, w.owners, w.index)
    requires Exclusive(w.callers)
    ensures RowsSound(CommitPublication(w.db, work), w.owners)
    ensures IndexSound(CommitPublication(w.db, work), w.owners, w.index)
    ensures Exclusive(w.callers[c := Returned(work.generation)])
  {
  }

  lemma CommitKeeps(w: World, c: Id)
    requires Inv(w) && c in w.callers && w.callers[c].Swapping?
    ensures Inv(CommitStep(w, c))
  {
    var Swapping(work, manifest, seen) := w.callers[c];
    assert CallerSound(w.db, w.owners, w.callers[c]);
    if PointerAllowed(w.db, work, seen) {
      PublishKeepsPointers(w, work, manifest);
      PublishKeepsCallers(w, c, work);
      PublishKeepsRows(w, c, work);
    } else {
      BecomeKeeps(w, c, Raised(IntegrityViolation));
    }
  }

  /** Whatever part of a batch is applied, every point stays tagged with a generation that owns its chunk. */
  lemma {:induction false} UpsertKeeps(db: Db, owners: map<Id, Slot>, index: Index, batch: seq<(PointId, Payload)>)
    requires IndexSound(db, owners, index) && forall p | p in batch :: PointSound(db, owners, p.0, p.1)
    ensures IndexSound(db, owners, Upsert(index, batch))
  {
    if batch != [] {
      UpsertKeeps(db, owners, index, batch[..|batch| - 1]);
    }
  }

  lemma PointsSound(db: Db, owners: map<Id, Slot>, work: Work)
    requires WorkSound(db, owners, work)
    ensures forall p | p in PointsOf(db, work) :: PointSound(db, owners, p.0, p.1)
  {
  }

  lemma IndexChangeKeeps(w: World, c: Id, batch: seq<(PointId, Payload)>)
    requires Inv(w) && c in w.callers && w.callers[c].Upserting?
    requires forall p | p in batch :: p in PointsOf(w.db, w.callers[c].work)
    ensures Inv(w.(index := Upsert(w.index, batch)))
  {
    assert CallerSound(w.db, w.owners, w.callers[c]);
    PointsSound(w.db, w.owners, w.callers[c].work);
    UpsertKeeps(w.db, w.owners, w.index, batch);
  }

  predicate Extends(owners: map<Id, Slot>, owners': map<Id, Slot>) {
    forall id | id in owners :: id in owners' && owners'[id] == owners[id]
  }

  lemma DrawKeepsPointers(w: World, owners': map<Id, Slot>)
    requires PointersSound(w.db, w.owners, w.certified) && Extends(w.owners, owners')
    ensures PointersSound(w.db, owners', w.certified)
  {
    forall b | b in w.db.published ensures PointerSound(w.db, owners', w.certified, b) {
      assert PointerSound(w.db, w.owners, w.certified, b);
    }
  }

  lemma DrawKeepsCallers(w: World, owners': map<Id, Slot>)
    requires CallersSound(w.db, w.owners, w.callers) && Extends(w.owners, owners')
    ensures CallersSound(w.db, owners', w.callers)
  {
    forall c | c in w.callers ensures CallerSound(w.db, owners', w.callers[c]) {
      assert CallerSound(w.db, w.owners, w.callers[c]);
    }
  }

  lemma DrawKeepsIndex(w: World, owners': map<Id, Slot>)
    requires IndexSound(w.db, w.owners, w.index) && Extends(w.owners, owners')
    ensures IndexSound(w.db, owners', w.index)
  {
    forall p | p in w.index ensures PointSound(w.db, owners', p, w.index[p]) {
      assert PointSound(w.db, w.owners, p, w.index[p]);
    }
  }

  /** Drawing a fresh id disturbs nothing that carries another. */
  lemma DrawKeeps(w: World, id: Id, slot: Slot)
    requires Inv(w) && (id in w.owners ==> w.owners[id] == slot)
    ensures Inv(w.(owners := w.owners[id := slot]))
  {
    var owners' := w.owners[id := slot];
    DrawKeepsPointers(w, owners');
    DrawKeepsCallers(w, owners');
    DrawKeepsIndex(w, owners');
  }

  lemma JoinKeeps(w: World, c: Id, caller: Caller)
    requires Inv(w) && c !in w.callers && CallerSound(w.db, w.owners, caller)
    requires Active(caller) ==> Alone(w.callers, c, caller.work.slot)
    ensures Inv(Become(w, c, caller))
  {
  }

  lemma StartKeeps(w: World, c: Id, slot: Slot, newId: Id)
    requires Inv(w) && c !in w.callers && newId !in w.owners && SerialStep(w, Start(c, slot, newId))
    ensures Inv(StartStep(w, c, slot, newId))
  {
    var caller := Begin(w.db, slot, newId);
    if caller.Embedding? {
      DrawKeeps(w, caller.work.generation, slot);
      JoinKeeps(w.(owners := w.owners[caller.work.generation := slot]), c, caller);
    } else {
      JoinKeeps(w, c, caller);
    }
  }

  // ---------- every step ----------

  lemma NextKeeps(w: World, s: Step)
    requires Inv(w) && SerialStep(w, s)
    ensures Inv(Next(w, s))
  {
    match s
    case Start(c, slot, newId) =>
      if c !in w.callers && newId !in w.owners {
        StartKeeps(w, c, slot, newId);
      }
    case Embeds(c, ok) => EmbedsKeeps(w, c, ok);
    case Upserts(c) => UpsertsKeeps(w, c);
    case UpsertBreaks(c, applied) => UpsertBreaksKeeps(w, c, applied);
    case FailsUpsert(c) =>
      if c in w.callers && w.callers[c].Broken? {
        FailKeeps(w, c, UpsertFailed);
      }
    case Verifies(c, order) => VerifiesKeeps(w, c, order);
    case VerifyBreaks(c) =>
      if c in w.callers && w.callers[c].Verifying? {
        FailKeeps(w, c, ManifestVerificationFailed);
      }
    case LocksPointer(c) => LocksKeeps(w, c);
    case Commits(c) =>
      if c in w.callers && w.callers[c].Swapping? {
        CommitKeeps(w, c);
      }
    case Crashes(c) => CrashKeeps(w, c);
  }

  lemma EmbedsKeeps(w: World, c: Id, ok: bool)
    requires Inv(w)
    ensures Inv(Next(w, Embeds(c, ok)))
  {
    if c in w.callers && w.callers[c].Embedding? {
      assert CallerSound(w.db, w.owners, w.callers[c]);
      if ok {
        BecomeKeeps(w, c, Upserting(w.callers[c].work));
      } else {
        FailKeeps(w, c, EmbeddingGenerationFailed);
      }
    }
  }

  lemma UpsertsKeeps(w: World, c: Id)
    requires Inv(w)
    ensures Inv(Next(w, Upserts(c)))
  {
    if c in w.callers && w.callers[c].Upserting? {
      assert CallerSound(w.db, w.owners, w.callers[c]);
      var batch := PointsOf(w.db, w.callers[c].work);
      IndexChangeKeeps(w, c, batch);
      BecomeKeeps(w.(index := Upsert(w.index, batch)), c, Verifying(w.callers[c].work));
    }
  }

  lemma UpsertBreaksKeeps(w: World, c: Id, applied: seq<(PointId, Payload)>)
    requires Inv(w)
    ensures Inv(Next(w, UpsertBreaks(c, applied)))
  {
    if c in w.callers && w.callers[c].Upserting? && forall p | p in applied :: p in PointsOf(w.db, w.callers[c].work) {
      assert CallerSound(w.db, w.owners, w.callers[c]);
      IndexChangeKeeps(w, c, applied);
      BecomeKeeps(w.(index := Upsert(w.index, applied)), c, Broken(w.callers[c].work));
    }
  }

  lemma VerifiesKeeps(w: World, c: Id, order: seq<PointId>)
    requires Inv(w)
    ensures Inv(Next(w, Verifies(c, order)))
  {
    if c in w.callers && w.callers[c].Verifying? && Listing(w.index, w.callers[c].work.generation, order) {
      assert CallerSound(w.db, w.owners, w.callers[c]);
      var actual := ManifestOf(w.index, order);
      if ValidManifest(ExpectedOf(w.db, w.callers[c].work.slot), actual) {
        BecomeKeeps(w, c, Publishing(w.callers[c].work, actual));
      } else {
        FailKeeps(w, c, ManifestVerificationFailed);
      }
    }
  }

  lemma LocksKeeps(w: World, c: Id)
    requires Inv(w)
    ensures Inv(Next(w, LocksPointer(c)))
  {
  }

  /** A crash drops the caller and its open transaction; tables, index and the other callers stay. */
  lemma CrashKeeps(w: World, c: Id)
    requires Inv(w)
    ensures Inv(Next(w, Crashes(c)))
  {
  }

  // ---------- runs ----------

  function Execution(w: World, steps: seq<Step>): World
    decreases |steps|
  {
    if steps == [] then w else Execution(Next(w, steps[0]), steps[1..])
  }

  predicate Serial(w: World, steps: seq<Step>)
    decreases |steps|
  {
    steps != [] ==> SerialStep(w, steps[0]) && Serial(Next(w, steps[0]), steps[1..])
  }

  function Initial(runs: map<Id, Run>): World {
    World(Db(runs, map[], map[]), map[], map[], map[], map[])
  }

  lemma {:induction false} ExecutionKeeps(w: World, steps: seq<Step>)
    requires Inv(w) && Serial(w, steps)
    ensures Inv(Execution(w, steps))
    decreases |steps|
  {
    if steps != [] {
      NextKeeps(w, steps[0]);
      ExecutionKeeps(Next(w, steps[0]), steps[1..]);
    }
  }

  ghost predicate Reachable(w: World) {
    exists runs, steps :: Serial(Initial(runs), steps) && Execution(Initial(runs), steps) == w
  }

  lemma ReachableIsSound(w: World)
    requires Reachable(w)
    ensures Inv(w)
  {
    var runs, steps :| Serial(Initial(runs), steps) && Execution(Initial(runs), steps) == w;
    ExecutionKeeps(Initial(runs), steps);
  }

  // ---------- main results ----------

  /**
   * Crash-consistent publication: with crashes anywhere, a committed generation is FAILED or PUBLISHED, a normal
   * return names a PUBLISHED one, and every pointer targets a PUBLISHED generation of a run of its own binding,
   * whose publishing transaction had fetched exactly the chunks of that run.
   */
  lemma CrashConsistentPublication(w: World)
    requires Reachable(w)
    ensures forall slot | slot in w.db.generations :: w.db.generations[slot].status in {FAILED, PUBLISHED}
    ensures forall c | c in w.callers && w.callers[c].Returned? :: IsPublished(w.db, w.owners, w.callers[c].generation)
    ensures forall b | b in w.db.published ::
              var g := w.db.published[b];
              IsPublished(w.db, w.owners, g) && BindingOf(w.db, w.owners[g]) == Some(b) && g in w.certified &&
              multiset(w.certified[g]) == multiset(ExpectedOf(w.db, w.owners[g]))
  {
    ReachableIsSound(w);
    forall c | c in w.callers && w.callers[c].Returned?
      ensures IsPublished(w.db, w.owners, w.callers[c].generation)
    {
      assert CallerSound(w.db, w.owners, w.callers[c]);
    }
    forall b | b in w.db.published
      ensures var g := w.db.published[b];
              IsPublished(w.db, w.owners, g) && BindingOf(w.db, w.owners[g]) == Some(b) && g in w.certified &&
              multiset(w.certified[g]) == multiset(ExpectedOf(w.db, w.owners[g]))
    {
      assert PointerSound(w.db, w.owners, w.certified, b);
      var g := w.db.published[b];
      ValidManifestMeaning(ExpectedOf(w.db, w.owners[g]), w.certified[g]);
    }
  }

  predicate SlotPublished(db: Db, slot: Slot) {
    slot in db.generations && db.generations[slot].status == PUBLISHED
  }

  /** A caller that may still commit its row as FAILED. */
  predicate MayFail(c: Caller) {
    c.Embedding? || c.Upserting? || c.Broken? || c.Verifying?
  }

  predicate Quiet(w: World, slot: Slot) {
    forall c | c in w.callers && MayFail(w.callers[c]) :: w.callers[c].work.slot != slot
  }

  /** No caller works on the row at all. */
  predicate Idle(w: World, slot: Slot) {
    forall c | c in w.callers && Active(w.callers[c]) :: w.callers[c].work.slot != slot
  }

  /** A step writes no row but that of its own caller, and FAILED only while the caller may fail. */
  predicate WritesOwnRow(w: World, c: Id, generations: map<Slot, Generation>) {
    generations == w.db.generations ||
    (c in w.callers && Active(w.callers[c]) &&
     var Work(slot, id) := w.callers[c].work;
     generations == w.db.generations[slot := Generation(id, if MayFail(w.callers[c]) then FAILED else PUBLISHED)])
  }

  /** A step changes no caller but its own, which stays on its row, or begins on one that is not published. */
  predicate MovesOwnCaller(w: World, c: Id, callers: map<Id, Caller>) {
    (forall k | k in callers && k != c :: k in w.callers && callers[k] == w.callers[k]) &&
    (c in callers && Active(callers[c]) ==>
       (c in w.callers && Active(w.callers[c]) && callers[c].work.slot == w.callers[c].work.slot &&
        (MayFail(callers[c]) ==> MayFail(w.callers[c]))) ||
       !SlotPublished(w.db, callers[c].work.slot))
  }

  predicate OwnStep(w: World, c: Id, w': World) {
    WritesOwnRow(w, c, w'.db.generations) && MovesOwnCaller(w, c, w'.callers)
  }

  lemma BecomeIsOwn(w: World, c: Id, caller: Caller)
    requires c in w.callers && Active(w.callers[c])
    requires Active(caller) ==> caller.work == w.callers[c].work && (MayFail(caller) ==> MayFail(w.callers[c]))
    ensures OwnStep(w, c, Become(w, c, caller))
  {
  }

  lemma FailIsOwn(w: World, c: Id, failure: Failure)
    requires c in w.callers && MayFail(w.callers[c])
    ensures OwnStep(w, c, Fail(w, c, failure))
  {
  }

  lemma StartIsOwn(w: World, c: Id, slot: Slot, newId: Id)
    requires c !in w.callers
    ensures OwnStep(w, c, StartStep(w, c, slot, newId))
  {
  }

  lemma CommitIsOwn(w: World, c: Id)
    requires c in w.callers && w.callers[c].Swapping?
    ensures OwnStep(w, c, CommitStep(w, c))
  {
  }

  lemma NothingIsOwn(w: World, c: Id)
    ensures OwnStep(w, c, w) && OwnStep(w, c, w.(callers := w.callers - {c}))
  {
  }

  lemma ProvidersAreOwn(w: World, s: Step)
    requires s.caller in w.callers && (s.Embeds? || s.Upserts? || s.UpsertBreaks? || s.FailsUpsert?)
    ensures OwnStep(w, s.caller, Next(w, s))
  {
    var caller := w.callers[s.caller];
    NothingIsOwn(w, s.caller);
    if s.Embeds? && caller.Embedding? {
      if s.ok {
        BecomeIsOwn(w, s.caller, Upserting(caller.work));
      } else {
        FailIsOwn(w, s.caller, EmbeddingGenerationFailed);
      }
    } else if s.Upserts? && caller.Upserting? {
      BecomeIsOwn(w, s.caller, Verifying(caller.work));
    } else if s.UpsertBreaks? && caller.Upserting? {
      BecomeIsOwn(w, s.caller, Broken(caller.work));
    } else if s.FailsUpsert? && caller.Broken? {
      FailIsOwn(w, s.caller, UpsertFailed);
    }
  }

  lemma VerifyIsOwn(w: World, c: Id, order: seq<PointId>)
    requires c in w.callers && w.callers[c].Verifying?
    ensures OwnStep(w, c, VerifyStep(w, c, order))
  {
    FailIsOwn(w, c, ManifestVerificationFailed);
    BecomeIsOwn(w, c, Publishing(w.callers[c].work, ManifestOf(w.index, order)));
  }

  lemma LocksIsOwn(w: World, c: Id)
    ensures OwnStep(w, c, Next(w, LocksPointer(c)))
  {
    NothingIsOwn(w, c);
    if c in w.callers && w.callers[c].Publishing? {
      var w' := Next(w, LocksPointer(c));
      BecomeIsOwn(w, c, w'.callers[c]);
    }
  }

  lemma StepIsOwn(w: World, s: Step)
    ensures OwnStep(w, s.caller, Next(w, s))
  {
    NothingIsOwn(w, s.caller);
    match s
    case Start(c, slot, newId) =>
      if c !in w.callers {
        StartIsOwn(w, c, slot, newId);
      }
    case Verifies(c, order) =>
      if c in w.callers && w.callers[c].Verifying? {
        VerifyIsOwn(w, c, order);
      }
    case VerifyBreaks(c) =>
      if c in w.callers && w.callers[c].Verifying? {
        FailIsOwn(w, c, ManifestVerificationFailed);
      }
    case LocksPointer(c) => LocksIsOwn(w, c);
    case Commits(c) =>
      if c in w.callers && w.callers[c].Swapping? {
        CommitIsOwn(w, c);
      }
    case Crashes(_) =>
    case _ =>
      if s.caller in w.callers {
        ProvidersAreOwn(w, s);
      }
  }

  lemma NextKeepsRow(w: World, s: Step, slot: Slot)
    requires SlotPublished(w.db, slot) && Quiet(w, slot)
    ensures SlotPublished(Next(w, s).db, slot)
    ensures Idle(w, slot) ==> Next(w, s).db.generations[slot] == w.db.generations[slot]
  {
    StepIsOwn(w, s);
  }

  lemma NextKeepsQuiet(w: World, s: Step, slot: Slot)
    requires SlotPublished(w.db, slot) && Quiet(w, slot)
    ensures Quiet(Next(w, s), slot)
  {
    StepIsOwn(w, s);
  }

  lemma {:induction false} QuietStaysPublished(w: World, steps: seq<Step>, slot: Slot)
    requires SlotPublished(w.db, slot) && Quiet(w, slot)
    ensures SlotPublished(Execution(w, steps).db, slot)
    decreases |steps|
  {
    if steps != [] {
      NextKeepsRow(w, steps[0], slot);
      NextKeepsQuiet(w, steps[0], slot);
      QuietStaysPublished(Next(w, steps[0]), steps[1..], slot);
    }
  }

  lemma OneStep(w: World, s: Step)
    ensures Execution(w, [s]) == Next(w, s)
  {
  }

  lemma TwoSteps(w: World, s: Step, t: Step)
    ensures Execution(w, [s, t]) == Next(Next(w, s), t)
  {
    OneStep(Next(w, s), t);
    assert [s, t][1..] == [t];
    assert Execution(w, [s, t]) == Execution(Next(w, s), [t]);
  }

  /** Whatever the caller is at, its provider can fail, and then it overwrites the row. */
  lemma MayFailOverwrites(w: World, c: Id) returns (steps: seq<Step>)
    requires c in w.callers && MayFail(w.callers[c])
    ensures Execution(w, steps).db == CommitFailure(w.db, w.callers[c].work)
  {
    match w.callers[c]
    case Embedding(_) =>
      steps := [Embeds(c, false)];
      OneStep(w, Embeds(c, false));
    case Upserting(_) =>
      steps := [UpsertBreaks(c, []), FailsUpsert(c)];
      TwoSteps(w, UpsertBreaks(c, []), FailsUpsert(c));
    case Broken(_) =>
      steps := [FailsUpsert(c)];
      OneStep(w, FailsUpsert(c));
    case Verifying(_) =>
      steps := [VerifyBreaks(c)];
      OneStep(w, VerifyBreaks(c));
  }

  /**
   * In any state, also one that overlapping callers have made, a published row stays published in every further
   * run if and only if no caller is left on it that may still fail.
   */
  lemma StaysPublishedIffQuiet(w: World, slot: Slot)
    requires SlotPublished(w.db, slot)
    ensures (forall steps :: SlotPublished(Execution(w, steps).db, slot)) <==> Quiet(w, slot)
  {
    if Quiet(w, slot) {
      forall steps ensures SlotPublished(Execution(w, steps).db, slot) {
        QuietStaysPublished(w, steps, slot);
      }
    } else {
      var c :| c in w.callers && MayFail(w.callers[c]) && w.callers[c].work.slot == slot;
      var steps := MayFailOverwrites(w, c);
      assert !SlotPublished(Execution(w, steps).db, slot);
    }
  }

  lemma PublishedIsIdle(w: World, slot: Slot)
    requires Inv(w) && SlotPublished(w.db, slot)
    ensures Idle(w, slot) && Quiet(w, slot)
  {
  }

  lemma NextKeepsIdle(w: World, s: Step, slot: Slot)
    requires SlotPublished(w.db, slot) && Idle(w, slot)
    ensures Idle(Next(w, s), slot)
  {
    StepIsOwn(w, s);
  }

  lemma {:induction false} IdleRowStays(w: World, steps: seq<Step>, slot: Slot)
    requires SlotPublished(w.db, slot) && Idle(w, slot)
    ensures SlotPublished(Execution(w, steps).db, slot)
    ensures Execution(w, steps).db.generations[slot] == w.db.generations[slot]
    decreases |steps|
  {
    if steps != [] {
      NextKeepsRow(w, steps[0], slot);
      NextKeepsIdle(w, steps[0], slot);
      IdleRowStays(Next(w, steps[0]), steps[1..], slot);
    }
  }

  /**
   * PUBLISHED is never left: once callers have come one at a time up to publication, no further run changes the
   * row, whether the callers to come keep to that or not.
   */
  lemma PublishedForGood(w: World, steps: seq<Step>, slot: Slot)
    requires Reachable(w) && SlotPublished(w.db, slot)
    ensures Quiet(w, slot) && SlotPublished(Execution(w, steps).db, slot)
    ensures Execution(w, steps).db.generations[slot] == w.db.generations[slot]
  {
    ReachableIsSound(w);
    PublishedIsIdle(w, slot);
    StaysPublishedIffQuiet(w, slot);
    IdleRowStays(w, steps, slot);
  }
}

/** When verification succeeds, what an upsert touches, and what two callers on one row can do. */
module IndexAgreement {
  import opened Common
  import opened Manifest
  import opened Publication
  import opened PublicationSafety

  predicate Distinct(hashes: seq<ChunkHash>) {
    forall i, j | 0 <= i < j < |hashes| :: hashes[i] != hashes[j]
  }

  lemma PointsPrefix(space: string, hashes: seq<ChunkHash>, generation: Id)
    requires hashes != []
    ensures var n := |hashes| - 1;
            Points(space, hashes, generation)[..n] == Points(space, hashes[..n], generation) &&
            Points(space, hashes, generation)[n] == (PointId(space, hashes[n]), Payload(hashes[n], generation))
  {
  }

  /** An upsert re-tags exactly the points of the space whose chunk hash is in the run. */
  lemma {:induction false} UpsertTouchesOnlyTheRun(index: Index, space: string, hashes: seq<ChunkHash>, generation: Id)
    ensures var index' := Upsert(index, Points(space, hashes, generation));
            forall p: PointId ::
              (p in index' <==> p in index || (p.space == space && p.hash in hashes)) &&
              (p.space == space && p.hash in hashes ==> index'[p] == Payload(p.hash, generation)) &&
              (p in index && !(p.space == space && p.hash in hashes) ==> index'[p] == index[p])
  {
    if hashes != [] {
      var n := |hashes| - 1;
      PointsPrefix(space, hashes, generation);
      UpsertTouchesOnlyTheRun(index, space, hashes[..n], generation);
      assert hashes == hashes[..n] + [hashes[n]];
    }
  }

  lemma {:induction false} ManifestOfMeaning(index: Index, order: seq<PointId>)
    requires forall p | p in order :: p in index && index[p].chunkHash != ""
    ensures |ManifestOf(index, order)| == |order|
    ensures forall i | 0 <= i < |order| :: ManifestOf(index, order)[i] == ManifestPoint(order[i], index[order[i]].chunkHash)
  {
    if order != [] {
      var n := |order| - 1;
      assert order[n] in order;
      assert forall p | p in order[..n] :: p in order;
      ManifestOfMeaning(index, order[..n]);
    }
  }

  lemma ExpectedDistinct(space: string, hashes: seq<ChunkHash>)
    ensures DistinctIds(Expected(space, hashes)) <==> Distinct(hashes)
  {
    var e := Expected(space, hashes);
    assert forall i | 0 <= i < |hashes| :: e[i].point.hash == hashes[i];
    if DistinctIds(e) {
      forall i, j | 0 <= i < j < |hashes| ensures hashes[i] != hashes[j] {
        assert e[i].point != e[j].point;
      }
    }
  }

  /** The points tagged with a generation right after its upsert are the points of its run. */
  predicate TaggedExactly(index: Index, w: Work, hashes: seq<ChunkHash>) {
    (forall h | h in hashes :: PointId(w.slot.space, h) in index && index[PointId(w.slot.space, h)] == Payload(h, w.generation)) &&
    (forall p | p in index && index[p].generation == w.generation :: p.space == w.slot.space && p.hash in hashes)
  }

  lemma UpsertTagsExactly(w: World, c: Id)
    requires Inv(w) && c in w.callers && w.callers[c].Upserting?
    ensures var work := w.callers[c].work;
            TaggedExactly(Next(w, Upserts(c)).index, work, Chunks(w.db, work.slot.run))
  {
    var work := w.callers[c].work;
    var hashes := Chunks(w.db, work.slot.run);
    assert CallerSound(w.db, w.owners, w.callers[c]);
    UpsertTouchesOnlyTheRun(w.index, work.slot.space, hashes, work.generation);
    var index' := Next(w, Upserts(c)).index;
    forall p | p in index' && index'[p].generation == work.generation
      ensures p.space == work.slot.space && p.hash in hashes
    {
      if p in w.index {
        assert PointSound(w.db, w.owners, p, w.index[p]);
      }
    }
  }

  lemma ListedElements(index: Index, w: Work, hashes: seq<ChunkHash>, order: seq<PointId>)
    requires TaggedExactly(index, w, hashes) && Listing(index, w.generation, order)
    ensures Elements(ManifestOf(index, order)) == Elements(Expected(w.slot.space, hashes))
    ensures DistinctIds(ManifestOf(index, order))
  {
    var actual, expected := ManifestOf(index, order), Expected(w.slot.space, hashes);
    forall p | p in order
      ensures p in index && index[p] == Payload(p.hash, w.generation) && p.hash in hashes && p.space == w.slot.space
    {
      assert Tagged(index, p, w.generation);
      assert PointId(w.slot.space, p.hash) == p;
    }
    ManifestOfMeaning(index, order);
    forall m | m in actual ensures m in expected {
      var i :| 0 <= i < |actual| && actual[i] == m;
      assert order[i] in order;
      var k :| 0 <= k < |hashes| && hashes[k] == order[i].hash;
      assert expected[k] == m;
    }
    forall m | m in expected ensures m in actual {
      var k :| 0 <= k < |expected| && expected[k] == m;
      assert hashes[k] in hashes;
      var i :| 0 <= i < |order| && order[i] == m.point;
      assert actual[i] == m;
    }
  }

  /** No other writer has taken a point of the run since the upsert. */
  predicate StillTagged(index: Index, w: Work, hashes: seq<ChunkHash>) {
    forall h | h in hashes :: Tagged(index, PointId(w.slot.space, h), w.generation)
  }

  lemma TaggedWithinRun(w: World, work: Work)
    requires IndexSound(w.db, w.owners, w.index) && WorkSound(w.db, w.owners, work)
    ensures var hashes := Chunks(w.db, work.slot.run);
            StillTagged(w.index, work, hashes) <==> TaggedExactly(w.index, work, hashes)
    ensures forall p | p in w.index && w.index[p].generation == work.generation :: w.index[p].chunkHash == p.hash
  {
  }

  lemma TaggedManifestIsValidIff(index: Index, w: Work, hashes: seq<ChunkHash>, order: seq<PointId>)
    requires TaggedExactly(index, w, hashes) && Listing(index, w.generation, order) && hashes != []
    ensures ValidManifest(Expected(w.slot.space, hashes), ManifestOf(index, order)) <==> Distinct(hashes)
  {
    var expected, actual := Expected(w.slot.space, hashes), ManifestOf(index, order);
    ListedElements(index, w, hashes, order);
    ExpectedDistinct(w.slot.space, hashes);
    ValidManifestMeaning(expected, actual);
    DistinctMultiset(actual);
    if Distinct(hashes) {
      DistinctMultiset(expected);
    }
  }

  lemma {:induction false} ManifestNamesListed(index: Index, order: seq<PointId>)
    ensures forall m | m in ManifestOf(index, order) :: m.point in order
  {
    if order != [] {
      var n := |order| - 1;
      ManifestNamesListed(index, order[..n]);
      assert order == order[..n] + [order[n]];
    }
  }

  /** An accepted manifest names every point of the run, so each of them still carries the tag. */
  lemma AcceptedIsTagged(index: Index, w: Work, hashes: seq<ChunkHash>, order: seq<PointId>)
    requires Listing(index, w.generation, order) && ValidManifest(Expected(w.slot.space, hashes), ManifestOf(index, order))
    ensures StillTagged(index, w, hashes)
  {
    var expected, actual := Expected(w.slot.space, hashes), ManifestOf(index, order);
    ManifestNamesListed(index, order);
    forall h | h in hashes ensures Tagged(index, PointId(w.slot.space, h), w.generation) {
      var k :| 0 <= k < |hashes| && hashes[k] == h;
      assert expected[k] in Elements(expected);
      assert expected[k] in actual;
    }
  }

  /** What verification finds, whoever has written to the index in the meantime. */
  lemma VerifyOutcome(w: World, c: Id, order: seq<PointId>)
    requires Inv(w) && c in w.callers && w.callers[c].Verifying? && Listing(w.index, w.callers[c].work.generation, order)
    ensures var work := w.callers[c].work;
            var hashes := Chunks(w.db, work.slot.run);
            var w' := Next(w, Verifies(c, order));
            if Distinct(hashes) && StillTagged(w.index, work, hashes) then w'.callers[c].Publishing?
            else w'.callers[c] == Raised(ManifestVerificationFailed)
  {
    var work := w.callers[c].work;
    var hashes := Chunks(w.db, work.slot.run);
    assert CallerSound(w.db, w.owners, w.callers[c]);
    TaggedWithinRun(w, work);
    if StillTagged(w.index, work, hashes) {
      TaggedManifestIsValidIff(w.index, work, hashes, order);
    } else if ValidManifest(ExpectedOf(w.db, work.slot), ManifestOf(w.index, order)) {
      AcceptedIsTagged(w.index, work, hashes, order);
    }
  }

  /**
   * In every state, also after other callers have embedded, upserted, crashed or committed since the upsert,
   * verification succeeds exactly when the chunk hashes of the run are pairwise distinct and all of its points
   * still carry the tag of this generation.
   */
  lemma VerificationSucceedsIff(w: World, c: Id, order: seq<PointId>)
    requires Reachable(w) && c in w.callers && w.callers[c].Verifying? && Listing(w.index, w.callers[c].work.generation, order)
    ensures var work := w.callers[c].work;
            var hashes := Chunks(w.db, work.slot.run);
            var w' := Next(w, Verifies(c, order));
            if Distinct(hashes) && StillTagged(w.index, work, hashes) then w'.callers[c].Publishing?
            else w'.callers[c] == Raised(ManifestVerificationFailed)
  {
    ReachableIsSound(w);
    VerifyOutcome(w, c, order);
  }

  /**
   * So with no other writer between upsert and scroll, it succeeds exactly when the chunk hashes are pairwise
   * distinct, whatever earlier attempts left in the index.
   */
  lemma VerificationSucceedsIffDistinct(w: World, c: Id, order: seq<PointId>)
    requires Reachable(w) && c in w.callers && w.callers[c].Upserting?
    requires Listing(Next(w, Upserts(c)).index, w.callers[c].work.generation, order)
    ensures var w' := Next(Next(w, Upserts(c)), Verifies(c, order));
            if Distinct(Chunks(w.db, w.callers[c].work.slot.run)) then w'.callers[c].Publishing?
            else w'.callers[c] == Raised(ManifestVerificationFailed)
  {
    ReachableIsSound(w);
    var w1 := Next(w, Upserts(c));
    assert w1.callers[c] == Verifying(w.callers[c].work) && w1.db == w.db;
    UpsertsKeeps(w, c);
    UpsertTagsExactly(w, c);
    TaggedImpliesStill(w1.index, w.callers[c].work, Chunks(w.db, w.callers[c].work.slot.run));
    VerifyOutcome(w1, c, order);
  }

  lemma TaggedImpliesStill(index: Index, w: Work, hashes: seq<ChunkHash>)
    requires TaggedExactly(index, w, hashes)
    ensures StillTagged(index, w, hashes)
  {
  }

  /** A commit is refused only to the loser of a race for the first pointer of a binding. */
  lemma OnlyFirstPointerRaces(w: World, c: Id)
    requires Reachable(w) && c in w.callers && w.callers[c].Swapping?
    ensures var Swapping(work, _, seen) := w.callers[c];
            work.slot.run in w.db.runs &&
            (Next(w, Commits(c)).callers[c] == Raised(IntegrityViolation) <==>
               !seen && w.db.runs[work.slot.run].binding in w.db.published)
  {
    ReachableIsSound(w);
    var work := w.callers[c].work;
    assert CallerSound(w.db, w.owners, w.callers[c]);
    forall b | b in w.db.published && b != w.db.runs[work.slot.run].binding ensures w.db.published[b] != work.generation {
      assert PointerSound(w.db, w.owners, w.certified, b);
    }
  }

  // ---------- two callers on one row ----------

  /**
   * Two retries that both find the FAILED row can leave a published pointer on a FAILED generation: the second
   * is still on the row when the first publishes it, so the published row is not quiet.
   */
  lemma TwoRetriersUnpublish(hash: ChunkHash, space: string) returns (w: World, steps: seq<Step>)
    ensures Reachable(w) && !Serial(w, steps)
    ensures var w' := Execution(w, steps);
            0 in w'.db.published && Slot(0, space) in w'.db.generations &&
            w'.db.generations[Slot(0, space)] == Generation(w'.db.published[0], FAILED)
  {
    var slot := Slot(0, space);
    w := FailedOnce(hash, slot);
    var order := [PointId(space, hash)];
    steps := [Start(1, slot, 1), Start(2, slot, 2), Embeds(1, true), Upserts(1), Verifies(1, order),
              LocksPointer(1), Commits(1), Embeds(2, false)];
    var w2 := BothRetry(w, hash, slot);
    var w7 := PublishFirst(w2, hash, slot);
    FailSecond(w7, slot);
    EightSteps(w, steps);
    SecondStartIsNotSerial(w, steps, slot);
  }

  /** Both find the FAILED row and go on with its id. */
  lemma BothRetry(w: World, hash: ChunkHash, slot: Slot) returns (w2: World)
    requires slot.run == 0 && w == AfterFailure(hash, slot)
    ensures var w1 := Next(w, Start(1, slot, 1));
            w1.callers == w.callers[1 := Embedding(Work(slot, 0))] && w2 == Next(w1, Start(2, slot, 2))
    ensures w2.callers == w.callers[1 := Embedding(Work(slot, 0))][2 := Embedding(Work(slot, 0))]
    ensures w2.db == w.db && w2.index == w.index
  {
    var w1 := Next(w, Start(1, slot, 1));
    assert Begin(w.db, slot, 1) == Embedding(Work(slot, 0)) && 2 !in w1.owners && 2 !in w1.callers;
    w2 := Next(w1, Start(2, slot, 2));
  }

  lemma FailSecond(w: World, slot: Slot)
    requires 2 in w.callers && w.callers[2] == Embedding(Work(slot, 0))
    ensures var w' := Next(w, Embeds(2, false));
            w'.db.published == w.db.published && w'.db.generations == w.db.generations[slot := Generation(0, FAILED)]
  {
  }

  lemma SecondStartIsNotSerial(w: World, steps: seq<Step>, slot: Slot)
    requires |steps| >= 2 && steps[1] == Start(2, slot, 2)
    requires var w1 := Next(w, steps[0]); 1 in w1.callers && Active(w1.callers[1]) && w1.callers[1].work.slot == slot
    ensures !Serial(w, steps)
  {
  }

  /** A run of one chunk whose first attempt failed at embedding. */
  function AfterFailure(hash: ChunkHash, slot: Slot): World {
    World(Db(map[0 := Run(0, true, [hash])], map[slot := Generation(0, FAILED)], map[]), map[],
          map[0 := Raised(EmbeddingGenerationFailed)], map[0 := slot], map[])
  }

  lemma FailedOnce(hash: ChunkHash, slot: Slot) returns (w: World)
    requires slot.run == 0
    ensures Reachable(w) && w == AfterFailure(hash, slot)
  {
    var runs := map[0 := Run(0, true, [hash])];
    var s0, s1 := Start(0, slot, 0), Embeds(0, false);
    var w0 := Initial(runs);
    var w1 := Next(w0, s0);
    assert w1 == World(w0.db, map[], map[0 := Embedding(Work(slot, 0))], map[0 := slot], map[]);
    w := Next(w1, s1);
    var steps := [s0, s1];
    assert steps[1..] == [s1] && [s1][1..] == [];
    assert Execution(w0, steps) == Execution(w1, [s1]) == Execution(w, []) == w;
    assert Serial(w, []);
    assert Serial(w1, [s1]);
    assert Serial(w0, steps);
  }

  /** The first retrier goes through to publication. */
  lemma PublishFirst(w: World, hash: ChunkHash, slot: Slot) returns (w': World)
    requires 1 in w.callers && w.callers[1] == Embedding(Work(slot, 0)) && w.index == map[] && w.db.published == map[]
    requires slot.run == 0 && w.db.runs == map[0 := Run(0, true, [hash])]
    ensures var order := [PointId(slot.space, hash)];
            w' == Next(Next(Next(Next(Next(w, Embeds(1, true)), Upserts(1)), Verifies(1, order)), LocksPointer(1)), Commits(1))
    ensures w'.callers == w.callers[1 := Returned(0)] && w'.db.published == map[0 := 0]
    ensures w'.db.generations == w.db.generations[slot := Generation(0, PUBLISHED)]
  {
    var w3 := VerifyFirst(w, hash, slot);
    w' := SwapFirst(w3, hash, slot);
    assert w3.callers[1 := Returned(0)] == w.callers[1 := Returned(0)];
  }

  lemma UpsertFirst(w: World, hash: ChunkHash, slot: Slot) returns (w2: World)
    requires 1 in w.callers && w.callers[1] == Embedding(Work(slot, 0)) && w.index == map[]
    requires slot.run == 0 && w.db.runs == map[0 := Run(0, true, [hash])]
    ensures w2 == Next(Next(w, Embeds(1, true)), Upserts(1))
    ensures w2.callers == w.callers[1 := Verifying(Work(slot, 0))] && w2.db == w.db
    ensures w2.index == map[PointId(slot.space, hash) := Payload(hash, 0)]
  {
    var w1 := Next(w, Embeds(1, true));
    w2 := Next(w1, Upserts(1));
    var points := PointsOf(w.db, Work(slot, 0));
    assert points == [(PointId(slot.space, hash), Payload(hash, 0))] && points[..0] == [];
    assert Upsert(w.index, []) == map[];
  }

  lemma VerifyFirst(w: World, hash: ChunkHash, slot: Slot) returns (w3: World)
    requires 1 in w.callers && w.callers[1] == Embedding(Work(slot, 0)) && w.index == map[]
    requires slot.run == 0 && w.db.runs == map[0 := Run(0, true, [hash])]
    ensures w3 == Next(Next(Next(w, Embeds(1, true)), Upserts(1)), Verifies(1, [PointId(slot.space, hash)]))
    ensures w3.callers == w.callers[1 := Publishing(Work(slot, 0), [ManifestPoint(PointId(slot.space, hash), hash)])]
    ensures w3.db == w.db
  {
    var w2 := UpsertFirst(w, hash, slot);
    var point := PointId(slot.space, hash);
    var manifest := [ManifestPoint(point, hash)];
    var order := [point];
    assert order[..0] == [];
    assert ManifestOf(w2.index, []) == [];
    assert ManifestOf(w2.index, order) == manifest;
    assert ExpectedOf(w.db, slot) == manifest;
    ValidManifestMeaning(manifest, manifest);
    assert Listing(w2.index, 0, order);
    w3 := Next(w2, Verifies(1, order));
  }

  lemma SwapFirst(w: World, hash: ChunkHash, slot: Slot) returns (w': World)
    requires 1 in w.callers && w.db.published == map[]
    requires w.callers[1] == Publishing(Work(slot, 0), [ManifestPoint(PointId(slot.space, hash), hash)])
    requires slot.run == 0 && w.db.runs == map[0 := Run(0, true, [hash])]
    ensures w' == Next(Next(w, LocksPointer(1)), Commits(1))
    ensures w'.callers == w.callers[1 := Returned(0)] && w'.db.published == map[0 := 0]
    ensures w'.db.generations == w.db.generations[slot := Generation(0, PUBLISHED)]
  {
    var w4 := Next(w, LocksPointer(1));
    assert w4.callers[1].Swapping? && !w4.callers[1].pointerSeen;
    w' := Next(w4, Commits(1));
  }

  lemma EightSteps(w: World, s: seq<Step>)
    requires |s| == 8
    ensures Execution(w, s) == Next(Next(Next(Next(Next(Next(Next(Next(w, s[0]), s[1]), s[2]), s[3]), s[4]), s[5]), s[6]), s[7])
  {
    FourSteps(w, s);
    FourSteps(Next(Next(Next(Next(w, s[0]), s[1]), s[2]), s[3]), s[4..]);
    assert s[4..][4..] == [];
  }

  lemma FourSteps(w: World, s: seq<Step>)
    requires |s| >= 4
    ensures Execution(w, s) == Execution(Next(Next(Next(Next(w, s[0]), s[1]), s[2]), s[3]), s[4..])
  {
    var w1 := Next(w, s[0]);
    var w2 := Next(w1, s[1]);
    var w3 := Next(w2, s[2]);
    assert s[1..][1..] == s[2..] && s[2..][1..] == s[3..] && s[3..][1..] == s[4..];
    assert Execution(w, s) == Execution(w1, s[1..]);
    assert Execution(w1, s[1..]) == Execution(w2, s[2..]);
    assert Execution(w2, s[2..]) == Execution(w3, s[3..]);
  }
}
