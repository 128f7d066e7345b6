/** generate_index as one caller runs it: a session over committed tables, and the index beside it. */
module GenerationService {
  import opened Common
  import opened Manifest
  import opened Publication
  import opened PublicationSafety

  /** How the providers behaved during one call. */
  datatype Environment = Environment(embeds: bool, broken: Option<seq<(PointId, Payload)>>, order: Option<seq<PointId>>)

  /** What one uninterrupted call does to the committed tables and the index, and what it returns. */
  function GenerateAlone(db: Db, index: Index, slot: Slot, newId: Id, env: Environment): (Db, Index, Caller) {
    var caller := Begin(db, slot, newId);
    if !caller.Embedding? then (db, index, caller)
    else if !env.embeds then (CommitFailure(db, caller.work), index, Raised(EmbeddingGenerationFailed))
    else Fill(db, index, caller.work, env)
  }

  /** The part that begins with the upsert. */
  function Fill(db: Db, index: Index, w: Work, env: Environment): (Db, Index, Caller) {
    if env.broken.Some? then (CommitFailure(db, w), Upsert(index, env.broken.value), Raised(UpsertFailed))
    else Publish(db, Upsert(index, PointsOf(db, w)), w, env)
  }

  function Publish(db: Db, index: Index, w: Work, env: Environment): (Db, Index, Caller) {
    if env.order.None? || !ValidManifest(ExpectedOf(db, w.slot), ManifestOf(index, env.order.value)) then
      (CommitFailure(db, w), index, Raised(ManifestVerificationFailed))
    else if w.slot.run in db.runs && PointerAllowed(db, w, db.runs[w.slot.run].binding in db.published) then
      (CommitPublication(db, w), index, Returned(w.generation))
    else (db, index, Raised(IntegrityViolation))
  }

  /** The row that the run, once it is known to be ready, has already finished with. */
  predicate Done(db: Db, slot: Slot) {
    slot in db.generations && db.generations[slot].status in {VERIFIED, PUBLISHED}
  }

  /** Which of the three requirements on the run fails decides the error, and nothing is written. */
  lemma RefusedRuns(db: Db, index: Index, slot: Slot, newId: Id, env: Environment)
    ensures var (db', index', result) := GenerateAlone(db, index, slot, newId, env);
            (result == Raised(RunNotFound) <==> slot.run !in db.runs) &&
            (result == Raised(RunNotCompleted) <==> slot.run in db.runs && !db.runs[slot.run].completed) &&
            (result == Raised(NoChunksFound) <==>
               slot.run in db.runs && db.runs[slot.run].completed && |db.runs[slot.run].chunks| == 0) &&
            (result in {Raised(RunNotFound), Raised(RunNotCompleted), Raised(NoChunksFound)} ==>
               db' == db && index' == index)
  {
  }

  /** A run that is ready and not done: what each behaviour of the providers leads to, and which rows it leaves. */
  lemma AttemptedRuns(db: Db, index: Index, slot: Slot, newId: Id, env: Environment)
    requires slot.run in db.runs && db.runs[slot.run].completed && |db.runs[slot.run].chunks| > 0 && !Done(db, slot)
    ensures var (db', index', result) := GenerateAlone(db, index, slot, newId, env);
            var g := if slot in db.generations then db.generations[slot].id else newId;
            (result == Raised(EmbeddingGenerationFailed) <==> !env.embeds) &&
            (result == Raised(UpsertFailed) <==> env.embeds && env.broken.Some?) &&
            index' == (if !env.embeds then index
                       else if env.broken.Some? then Upsert(index, env.broken.value)
                       else Upsert(index, Points(slot.space, db.runs[slot.run].chunks, g))) &&
            (result == Raised(ManifestVerificationFailed) <==>
               env.embeds && env.broken.None? &&
               (env.order.None? ||
                !ValidManifest(Expected(slot.space, db.runs[slot.run].chunks), ManifestOf(index', env.order.value)))) &&
            (result.Raised? && result.failure != IntegrityViolation ==>
               db' == Db(db.runs, db.generations[slot := Generation(g, FAILED)], db.published)) &&
            (result == Raised(IntegrityViolation) ==> db' == db) &&
            (result.Returned? ==>
               result.generation == g && env.embeds && env.broken.None? && env.order.Some? &&
               db' == Db(db.runs, db.generations[slot := Generation(g, PUBLISHED)],
                         db.published[db.runs[slot.run].binding := g])) &&
            (result.Returned? || result.Raised?)
  {
  }

  class Service {
    const qdrant: QdrantAdapter
    const runs: map<Id, Run>
    // committed
    var generations: map<Slot, Generation>
    var published: map<Id, Id>
    // what the open session sees
    var sessionGenerations: map<Slot, Generation>
    var sessionPublished: map<Id, Id>

    constructor (runs: map<Id, Run>, qdrant: QdrantAdapter)
      ensures Committed() == Db(runs, map[], map[]) && this.qdrant == qdrant
    {
      this.runs, this.qdrant := runs, qdrant;
      generations, published, sessionGenerations, sessionPublished := map[], map[], map[], map[];
    }

    function Committed(): Db
      reads this
    {
      Db(runs, generations, published)
    }

    method Rollback()
      modifies this`sessionGenerations, this`sessionPublished
      ensures sessionGenerations == generations && sessionPublished == published
    {
      sessionGenerations, sessionPublished := generations, published;
    }

    method Commit()
      modifies this`generations, this`published
      ensures generations == sessionGenerations && published == sessionPublished
    {
      generations, published := sessionGenerations, sessionPublished;
    }

    method CommitStatus(slot: Slot, status: Status)
      requires slot in sessionGenerations
      modifies this`sessionGenerations, this`generations, this`published
      ensures sessionGenerations == old(sessionGenerations)[slot := old(sessionGenerations)[slot].(status := status)]
      ensures generations == sessionGenerations && published == sessionPublished
    {
      sessionGenerations := sessionGenerations[slot := sessionGenerations[slot].(status := status)];
      Commit();
    }

    /** The points to upsert and the manifest to expect, chunk by chunk. */
    method BuildPoints(slot: Slot, generation: Id) returns (points: seq<(PointId, Payload)>, expected: seq<ManifestPoint>)
      ensures points == PointsOf(Committed(), Work(slot, generation)) && expected == ExpectedOf(Committed(), slot)
    {
      var chunks := Chunks(Committed(), slot.run);
      points, expected := [], [];
      for i := 0 to |chunks|
        invariant points == Points(slot.space, chunks[..i], generation)
        invariant expected == Expected(slot.space, chunks[..i])
      {
        var point := PointId(slot.space, chunks[i]);
        points := points + [(point, Payload(chunks[i], generation))];
        expected := expected + [ManifestPoint(point, chunks[i])];
      }
      assert chunks[..|chunks|] == chunks;
    }

    /**
     * The environment decides whether the providers answer: `env` says how, and its listing, when there is one,
     * must be a listing of the index as the upsert left it.
     */
    method GenerateIndex(slot: Slot, newId: Id, env: Environment) returns (result: Caller)
      requires var w := Begin(Committed(), slot, newId);
               w.Embedding? && env.embeds && env.broken.None? && env.order.Some? ==>
                 Listing(Upsert(qdrant.points, PointsOf(Committed(), w.work)), w.work.generation, env.order.value)
      modifies this, qdrant
      ensures (Committed(), qdrant.points, result) == GenerateAlone(old(Committed()), old(qdrant.points), slot, newId, env)
      // the three requirements on the run come first, and a run that fails one of them writes nothing
      ensures result == Raised(RunNotFound) <==> slot.run !in runs
      ensures result == Raised(RunNotCompleted) <==> slot.run in runs && !runs[slot.run].completed
      ensures result == Raised(NoChunksFound) <==>
                slot.run in runs && runs[slot.run].completed && |runs[slot.run].chunks| == 0
      ensures result in {Raised(RunNotFound), Raised(RunNotCompleted), Raised(NoChunksFound)} ==>
                generations == old(generations) && published == old(published) && qdrant.points == old(qdrant.points)
      // a generation that is returned is in the table as published, or was there before the call
      ensures result.Returned? ==>
                slot.run in runs && runs[slot.run].completed && |runs[slot.run].chunks| > 0 &&
                slot in generations && generations[slot].id == result.generation &&
                if Done(old(Committed()), slot)
                then Committed() == old(Committed()) && qdrant.points == old(qdrant.points)
                else generations == old(generations)[slot := Generation(result.generation, PUBLISHED)] &&
                     published == old(published)[runs[slot.run].binding := result.generation]
      // a failure on the way leaves the row as FAILED and every pointer as it was
      ensures result in {Raised(EmbeddingGenerationFailed), Raised(UpsertFailed), Raised(ManifestVerificationFailed)} ==>
                slot in generations && generations[slot].status == FAILED && published == old(published) &&
                generations == old(generations)[slot := generations[slot]] &&
                (slot in old(generations) ==> generations[slot].id == old(generations)[slot].id)
      ensures result == Raised(IntegrityViolation) ==> Committed() == old(Committed())
    {
      RefusedRuns(Committed(), qdrant.points, slot, newId, env);
      if slot.run in runs && runs[slot.run].completed && |runs[slot.run].chunks| > 0 && !Done(Committed(), slot) {
        AttemptedRuns(Committed(), qdrant.points, slot, newId, env);
      }
      Rollback();
      if slot.run !in runs {
        return Raised(RunNotFound);
      }
      if !runs[slot.run].completed {
        return Raised(RunNotCompleted);
      }
      if runs[slot.run].chunks == [] {
        return Raised(NoChunksFound);
      }
      var generation := newId;
      if slot in sessionGenerations {
        Rollback();
        var existing := sessionGenerations[slot];
        if existing.status in {VERIFIED, PUBLISHED} {
          return Returned(existing.id);
        }
        generation := existing.id;
      }
      sessionGenerations := sessionGenerations[slot := Generation(generation, PENDING)];
      result := EmbedAndPublish(slot, generation, env);
    }

    method MarkFailed(slot: Slot, generation: Id)
      requires sessionGenerations == generations[slot := Generation(generation, PENDING)] && sessionPublished == published
      modifies this`sessionGenerations, this`generations, this`published
      ensures Committed() == CommitFailure(old(Committed()), Work(slot, generation))
    {
      CommitStatus(slot, FAILED);
      assert generations == old(generations)[slot := Generation(generation, FAILED)];
    }

    method EmbedAndPublish(slot: Slot, generation: Id, env: Environment) returns (result: Caller)
      requires slot.run in runs && slot in sessionGenerations
      requires sessionGenerations == generations[slot := Generation(generation, PENDING)] && sessionPublished == published
      requires env.embeds && env.broken.None? && env.order.Some? ==>
                 Listing(Upsert(qdrant.points, PointsOf(Committed(), Work(slot, generation))), generation, env.order.value)
      modifies this, qdrant
      ensures (Committed(), qdrant.points, result) ==
              var db, w := old(Committed()), Work(slot, generation);
              if !env.embeds then (CommitFailure(db, w), old(qdrant.points), Raised(EmbeddingGenerationFailed))
              else if env.broken.Some? then
                (CommitFailure(db, w), Upsert(old(qdrant.points), env.broken.value), Raised(UpsertFailed))
              else Publish(db, Upsert(old(qdrant.points), PointsOf(db, w)), w, env)
    {
      if !env.embeds {
        MarkFailed(slot, generation);
        return Raised(EmbeddingGenerationFailed);
      }
      var points, expected := BuildPoints(slot, generation);
      if env.broken.Some? {
        qdrant.UpsertPoints(env.broken.value);
        MarkFailed(slot, generation);
        return Raised(UpsertFailed);
      }
      qdrant.UpsertPoints(points);
      if env.order.None? {
        MarkFailed(slot, generation);
        return Raised(ManifestVerificationFailed);
      }
      var actual := qdrant.FetchManifest(generation, env.order.value);
      if !ValidManifest(expected, actual) {
        MarkFailed(slot, generation);
        return Raised(ManifestVerificationFailed);
      }
      result := SwapPointer(slot, generation);
    }

    method SwapPointer(slot: Slot, generation: Id) returns (result: Caller)
      requires slot.run in runs && slot in sessionGenerations
      requires sessionGenerations == generations[slot := Generation(generation, PENDING)] && sessionPublished == published
      modifies this
      ensures var db, w := old(Committed()), Work(slot, generation);
              if PointerAllowed(db, w, db.runs[slot.run].binding in db.published)
              then Committed() == CommitPublication(db, w) && result == Returned(generation)
              else Committed() == db && result == Raised(IntegrityViolation)
    {
      var binding := runs[slot.run].binding;
      sessionGenerations := sessionGenerations[slot := sessionGenerations[slot].(status := VERIFIED)];
      if exists b | b in sessionPublished && b != binding :: sessionPublished[b] == generation {
        Rollback();
        return Raised(IntegrityViolation);
      }
      sessionPublished := sessionPublished[binding := generation];
      CommitStatus(slot, PUBLISHED);
      result := Returned(generation);
    }
  }

  // ---------- a lone call is one of the runs of the protocol ----------

  lemma {:induction false} ExecutionAppend(w: World, steps: seq<Step>, s: Step)
    ensures Execution(w, steps + [s]) == Next(Execution(w, steps), s)
    decreases |steps|
  {
    if steps == [] {
      assert [] + [s] == [s] && [s][1..] == [];
    } else {
      assert (steps + [s])[1..] == steps[1..] + [s];
      ExecutionAppend(Next(w, steps[0]), steps[1..], s);
    }
  }

  predicate Possible(w: World, slot: Slot, newId: Id, env: Environment) {
    var caller := Begin(w.db, slot, newId);
    caller.Embedding? ==>
      (env.broken.Some? ==> forall p | p in env.broken.value :: p in PointsOf(w.db, caller.work)) &&
      (env.broken.None? && env.order.Some? ==>
         Listing(Upsert(w.index, PointsOf(w.db, caller.work)), caller.work.generation, env.order.value))
  }

  /** So what holds of every interleaving with crashes holds of every uninterrupted call. */
  lemma AloneIsAnExecution(w: World, c: Id, slot: Slot, newId: Id, env: Environment) returns (steps: seq<Step>)
    requires c !in w.callers && newId !in w.owners && Possible(w, slot, newId, env)
    ensures var w' := Execution(w, steps);
            c in w'.callers && (w'.db, w'.index, w'.callers[c]) == GenerateAlone(w.db, w.index, slot, newId, env)
  {
    steps := [];
    var now := w;
    steps, now := Then(w, steps, now, Start(c, slot, newId));
    assert now.callers[c] == Begin(w.db, slot, newId);
    if now.callers[c].Embedding? {
      var work := now.callers[c].work;
      assert now.db == w.db && now.index == w.index;
      steps, now := Then(w, steps, now, Embeds(c, env.embeds));
      if env.embeds {
        assert now.callers[c] == Upserting(work) && now.db == w.db && now.index == w.index;
        steps, now := FillAlone(w, steps, now, c, env);
      }
    }
  }

  lemma Then(w: World, steps: seq<Step>, now: World, s: Step) returns (steps': seq<Step>, now': World)
    requires Execution(w, steps) == now
    ensures steps' == steps + [s] && now' == Next(now, s) && Execution(w, steps') == now'
  {
    ExecutionAppend(w, steps, s);
    steps', now' := steps + [s], Next(now, s);
  }

  lemma FillAlone(w: World, steps: seq<Step>, now: World, c: Id, env: Environment) returns (steps': seq<Step>, now': World)
    requires Execution(w, steps) == now && c in now.callers && now.callers[c].Upserting?
    requires var work := now.callers[c].work;
             work.slot.run in now.db.runs &&
             (env.broken.Some? ==> forall p | p in env.broken.value :: p in PointsOf(now.db, work)) &&
             (env.broken.None? && env.order.Some? ==>
                Listing(Upsert(now.index, PointsOf(now.db, work)), work.generation, env.order.value))
    ensures Execution(w, steps') == now' && c in now'.callers
    ensures (now'.db, now'.index, now'.callers[c]) == Fill(now.db, now.index, now.callers[c].work, env)
  {
    var work := now.callers[c].work;
    if env.broken.Some? {
      steps', now' := Then(w, steps, now, UpsertBreaks(c, env.broken.value));
      assert now'.callers[c] == Broken(work);
      steps', now' := Then(w, steps', now', FailsUpsert(c));
    } else {
      steps', now' := Then(w, steps, now, Upserts(c));
      assert now'.callers[c] == Verifying(work);
      steps', now' := PublishAlone(w, steps', now', c, env);
    }
  }

  /** The last part of Publish, after the manifest is accepted. */
  function Swap(db: Db, w: Work): (Db, Caller) {
    if w.slot.run in db.runs && PointerAllowed(db, w, db.runs[w.slot.run].binding in db.published)
    then (CommitPublication(db, w), Returned(w.generation))
    else (db, Raised(IntegrityViolation))
  }

  lemma SwapAlone(w: World, steps: seq<Step>, now: World, c: Id) returns (steps': seq<Step>, now': World)
    requires Execution(w, steps) == now && c in now.callers && now.callers[c].Publishing?
    requires now.callers[c].work.slot.run in now.db.runs
    ensures Execution(w, steps') == now' && c in now'.callers && now'.index == now.index
    ensures (now'.db, now'.callers[c]) == Swap(now.db, now.callers[c].work)
  {
    steps', now' := Then(w, steps, now, LocksPointer(c));
    CommitsLast(now', c);
    steps', now' := Then(w, steps', now', Commits(c));
  }

  lemma CommitsLast(w: World, c: Id)
    requires c in w.callers && w.callers[c].Swapping? && w.callers[c].work.slot.run in w.db.runs
    requires w.callers[c].pointerSeen == (w.db.runs[w.callers[c].work.slot.run].binding in w.db.published)
    ensures var w' := Next(w, Commits(c));
            c in w'.callers && w'.index == w.index && (w'.db, w'.callers[c]) == Swap(w.db, w.callers[c].work)
  {
  }

  lemma PublishAlone(w: World, steps: seq<Step>, now: World, c: Id, env: Environment) returns (steps': seq<Step>, now': World)
    requires Execution(w, steps) == now && c in now.callers && now.callers[c].Verifying?
    requires env.order.Some? ==> Listing(now.index, now.callers[c].work.generation, env.order.value)
    requires now.callers[c].work.slot.run in now.db.runs
    ensures Execution(w, steps') == now' && c in now'.callers
    ensures (now'.db, now'.index, now'.callers[c]) == Publish(now.db, now.index, now.callers[c].work, env)
  {
    if env.order.None? {
      steps', now' := Then(w, steps, now, VerifyBreaks(c));
    } else {
      steps', now' := Then(w, steps, now, Verifies(c, env.order.value));
      if now'.callers[c].Publishing? {
        steps', now' := SwapAlone(w, steps', now', c);
      }
    }
  }
}
