/** Only runs that are completed and have chunks are ever indexed, however many callers interleave. */
module RunReadiness {
  import opened Common
  import opened Manifest
  import opened Publication
  import opened PublicationSafety

  predicate Ready(runs: map<Id, Run>, run: Id) {
    run in runs && runs[run].completed && runs[run].chunks != []
  }

  predicate RowsReady(db: Db, owners: map<Id, Slot>) {
    forall slot | slot in db.generations ::
      Ready(db.runs, slot.run) && db.generations[slot].id in owners && owners[db.generations[slot].id] == slot
  }

  predicate WorkReady(db: Db, owners: map<Id, Slot>, c: Caller) {
    Active(c) ==>
      Ready(db.runs, c.work.slot.run) && c.work.generation in owners && owners[c.work.generation] == c.work.slot
  }

  predicate CallersReady(w: World) {
    forall c | c in w.callers :: WorkReady(w.db, w.owners, w.callers[c])
  }

  predicate PointersReady(db: Db, owners: map<Id, Slot>) {
    forall b | b in db.published ::
      db.published[b] in owners && Ready(db.runs, owners[db.published[b]].run) &&
      db.runs[owners[db.published[b]].run].binding == b
  }

  predicate AllReady(w: World) {
    RowsReady(w.db, w.owners) && CallersReady(w) && PointersReady(w.db, w.owners)
  }

  lemma BecomeKeepsReady(w: World, c: Id, caller: Caller)
    requires AllReady(w) && (Active(caller) ==> WorkReady(w.db, w.owners, caller))
    ensures AllReady(Become(w, c, caller))
  {
  }

  lemma FailKeepsReady(w: World, c: Id, failure: Failure)
    requires AllReady(w) && c in w.callers && Active(w.callers[c])
    ensures AllReady(Fail(w, c, failure))
  {
    assert WorkReady(w.db, w.owners, w.callers[c]);
  }

  lemma CommitKeepsReady(w: World, c: Id)
    requires AllReady(w) && c in w.callers && w.callers[c].Swapping?
    ensures AllReady(CommitStep(w, c))
  {
    assert WorkReady(w.db, w.owners, w.callers[c]);
  }

  /** A generation id is drawn once, so remembering it takes nothing away. */
  lemma OwnersGrow(w: World, generation: Id, slot: Slot)
    requires AllReady(w) && (generation !in w.owners || w.owners[generation] == slot)
    ensures AllReady(w.(owners := w.owners[generation := slot]))
  {
    var owners := w.owners[generation := slot];
    forall c | c in w.callers ensures WorkReady(w.db, owners, w.callers[c]) {
      assert WorkReady(w.db, w.owners, w.callers[c]);
    }
  }

  lemma StartKeepsReady(w: World, c: Id, slot: Slot, newId: Id)
    requires AllReady(w) && newId !in w.owners
    ensures AllReady(StartStep(w, c, slot, newId))
  {
    var caller := Begin(w.db, slot, newId);
    if caller.Embedding? {
      var w1 := w.(owners := w.owners[caller.work.generation := slot]);
      OwnersGrow(w, caller.work.generation, slot);
      BecomeKeepsReady(w1, c, caller);
    } else {
      BecomeKeepsReady(w, c, caller);
    }
  }

  lemma NextKeepsReady(w: World, s: Step)
    requires AllReady(w)
    ensures AllReady(Next(w, s)) && Next(w, s).db.runs == w.db.runs
  {
    if s.Start? {
      if s.newId !in w.owners {
        StartKeepsReady(w, s.caller, s.slot, s.newId);
      }
    } else if s.caller in w.callers {
      var c := w.callers[s.caller];
      assert WorkReady(w.db, w.owners, c);
      if Active(c) {
        CallerKeepsReady(w, s);
      }
    }
  }

  /** A caller goes on with the same work; what it does to the index does not matter here. */
  lemma AdvanceKeepsReady(w: World, index: Index, c: Id, caller: Caller)
    requires AllReady(w) && c in w.callers && Active(w.callers[c])
    requires Active(caller) && caller.work == w.callers[c].work
    ensures AllReady(Become(w.(index := index), c, caller))
  {
    assert WorkReady(w.db, w.owners, w.callers[c]);
    assert AllReady(w.(index := index));
    BecomeKeepsReady(w.(index := index), c, caller);
  }

  lemma UpsertKeepsReady(w: World, s: Step)
    requires AllReady(w) && (s.Upserts? || s.UpsertBreaks?) && s.caller in w.callers && Active(w.callers[s.caller])
    ensures AllReady(Next(w, s)) && Next(w, s).db == w.db
  {
    var c := s.caller;
    if s.Upserts? && w.callers[c].Upserting? {
      AdvanceKeepsReady(w, Upsert(w.index, PointsOf(w.db, w.callers[c].work)), c, Verifying(w.callers[c].work));
    } else if s.UpsertBreaks? && w.callers[c].Upserting? {
      AdvanceKeepsReady(w, Upsert(w.index, s.applied), c, Broken(w.callers[c].work));
    }
  }

  lemma VerifiesKeepsReady(w: World, c: Id, order: seq<PointId>)
    requires AllReady(w) && c in w.callers && w.callers[c].Verifying?
    ensures AllReady(VerifyStep(w, c, order)) && VerifyStep(w, c, order).db.runs == w.db.runs
  {
    AdvanceKeepsReady(w, w.index, c, Publishing(w.callers[c].work, ManifestOf(w.index, order)));
    FailKeepsReady(w, c, ManifestVerificationFailed);
  }

  lemma LocksKeepsReady(w: World, c: Id)
    requires AllReady(w) && c in w.callers && Active(w.callers[c])
    ensures AllReady(Next(w, LocksPointer(c))) && Next(w, LocksPointer(c)).db == w.db
  {
    if w.callers[c].Publishing? {
      var w' := Next(w, LocksPointer(c));
      AdvanceKeepsReady(w, w.index, c, w'.callers[c]);
    }
  }

  lemma CallerKeepsReady(w: World, s: Step)
    requires AllReady(w) && !s.Start? && s.caller in w.callers && Active(w.callers[s.caller])
    ensures AllReady(Next(w, s)) && Next(w, s).db.runs == w.db.runs
  {
    var c := s.caller;
    match s
    case Embeds(_, _) =>
      AdvanceKeepsReady(w, w.index, c, Upserting(w.callers[c].work));
      FailKeepsReady(w, c, EmbeddingGenerationFailed);
    case Upserts(_) => UpsertKeepsReady(w, s);
    case UpsertBreaks(_, _) => UpsertKeepsReady(w, s);
    case FailsUpsert(_) => FailKeepsReady(w, c, UpsertFailed);
    case Verifies(_, order) =>
      if w.callers[c].Verifying? {
        VerifiesKeepsReady(w, c, order);
      }
    case VerifyBreaks(_) => FailKeepsReady(w, c, ManifestVerificationFailed);
    case LocksPointer(_) => LocksKeepsReady(w, c);
    case Commits(_) =>
      if w.callers[c].Swapping? {
        CommitKeepsReady(w, c);
      }
    case Crashes(_) =>
  }

  lemma {:induction false} ExecutionKeepsReady(w: World, steps: seq<Step>)
    requires AllReady(w)
    ensures AllReady(Execution(w, steps)) && Execution(w, steps).db.runs == w.db.runs
    decreases |steps|
  {
    if steps != [] {
      NextKeepsReady(w, steps[0]);
      ExecutionKeepsReady(Next(w, steps[0]), steps[1..]);
    }
  }

  /**
   * In every run, serial or not: a committed generation, a caller at work and a pointer all belong to a run that
   * exists, is completed and has chunks, and a pointer to a run of its own binding.
   */
  lemma OnlyCompletedRuns(runs: map<Id, Run>, steps: seq<Step>)
    ensures var w := Execution(Initial(runs), steps);
            (forall slot | slot in w.db.generations ::
               slot.run in runs && runs[slot.run].completed && |runs[slot.run].chunks| > 0) &&
            (forall c | c in w.callers && Active(w.callers[c]) ::
               var run := w.callers[c].work.slot.run; run in runs && runs[run].completed && |runs[run].chunks| > 0) &&
            (forall b | b in w.db.published ::
               w.db.published[b] in w.owners &&
               var run := w.owners[w.db.published[b]].run;
               run in runs && runs[run].completed && |runs[run].chunks| > 0 && runs[run].binding == b)
  {
    ExecutionKeepsReady(Initial(runs), steps);
    var w := Execution(Initial(runs), steps);
    forall c | c in w.callers && Active(w.callers[c]) ensures Ready(runs, w.callers[c].work.slot.run) {
      assert WorkReady(w.db, w.owners, w.callers[c]);
    }
  }
}
