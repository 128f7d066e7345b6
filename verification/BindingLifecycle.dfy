/** What the guards keep in every run, and what the service may rely on. */
module BindingLifecycle {
  import opened Common
  import opened Bindings

  // ---------- the chain invariant ----------

  /** Events 1 to k, whose states are the first k of PROPOSED, APPROVED, REVOKED. */
  predicate HistoryOk(b: Binding, h: seq<Event>) {
    1 <= |h| <= 3 && h[0] == FirstEvent(b) &&
    forall i | 0 <= i < |h| ::
      h[i].binding == b.id && h[i].hash == b.hash && h[i].sequence == i + 1 && SequenceState(i + 1, h[i].status)
  }

  function RevisionsOf(bindings: seq<Binding>, source: Id, policy: Id): seq<Binding> {
    if bindings == [] then []
    else
      var last := bindings[|bindings| - 1];
      var front := RevisionsOf(bindings[..|bindings| - 1], source, policy);
      if last.source == source && last.policy == policy then front + [last] else front
  }

  predicate Numbered(rs: seq<Binding>) {
    forall i | 0 <= i < |rs| :: rs[i].revision == i + 1
  }

  predicate Linked(rs: seq<Binding>, i: nat)
    requires i < |rs|
  {
    rs[i].previous == if i == 0 then None else Some(rs[i - 1].id)
  }

  /** Revisions 1 to n, each linked to the one before it, all but the last revoked. */
  predicate ChainOk(events: seq<Event>, rs: seq<Binding>) {
    Numbered(rs) &&
    (forall i | 0 <= i < |rs| :: Linked(rs, i)) &&
    (forall i | 0 <= i < |rs| - 1 :: LatestStatus(events, rs[i].id) == Some(REVOKED))
  }

  ghost predicate Chains(bindings: seq<Binding>, events: seq<Event>) {
    forall source, policy :: ChainOk(events, RevisionsOf(bindings, source, policy))
  }

  predicate Histories(bindings: seq<Binding>, events: seq<Event>) {
    forall b | b in bindings :: HistoryOk(b, History(events, b.id))
  }

  predicate DistinctBindings(bindings: seq<Binding>) {
    forall i, j | 0 <= i < j < |bindings| :: bindings[i].id != bindings[j].id && bindings[i].request != bindings[j].request
  }

  predicate DistinctRequests(events: seq<Event>) {
    forall i, j | 0 <= i < j < |events| :: events[i].request != events[j].request
  }

  predicate DistinctSources(sources: seq<Source>) {
    forall i, j | 0 <= i < j < |sources| :: sources[i].id != sources[j].id && sources[i].document != sources[j].document
  }

  predicate EventsOwned(bindings: seq<Binding>, events: seq<Event>) {
    forall e | e in events :: BindingRow(bindings, e.binding).Some?
  }

  predicate Sourced(sources: seq<Source>, bindings: seq<Binding>) {
    forall b | b in bindings ::
      SourceRow(sources, b.source).Some? && SourceRow(sources, b.source).value.hash == b.hash
  }

  ghost predicate Inv(t: Tables) {
    DistinctSources(t.sources) && DistinctBindings(t.bindings) && DistinctRequests(t.events) &&
    EventsOwned(t.bindings, t.events) && Sourced(t.sources, t.bindings) &&
    Histories(t.bindings, t.events) && Chains(t.bindings, t.events)
  }

  // ---------- queries against their meaning ----------

  lemma {:induction false} InSequenceElements(ordered: seq<Event>, e: Event)
    ensures forall x :: x in InSequence(ordered, e) <==> x in ordered || x == e
  {
    if ordered != [] {
      var n := |ordered| - 1;
      assert ordered == ordered[..n] + [ordered[n]];
      InSequenceElements(ordered[..n], e);
    }
  }

  lemma {:induction false} HistoryElements(events: seq<Event>, binding: Id)
    ensures forall x :: x in History(events, binding) <==> x in events && x.binding == binding
  {
    if events != [] {
      var n := |events| - 1;
      assert events == events[..n] + [events[n]];
      HistoryElements(events[..n], binding);
      InSequenceElements(History(events[..n], binding), events[n]);
    }
  }

  lemma {:induction false} MaxSequenceMeaning(events: seq<Event>, binding: Id)
    ensures forall x | x in events && x.binding == binding :: x.sequence <= MaxSequence(events, binding)
    ensures MaxSequence(events, binding) == 0 ||
            exists x :: x in events && x.binding == binding && x.sequence == MaxSequence(events, binding)
  {
    if events != [] {
      var n := |events| - 1;
      assert events == events[..n] + [events[n]];
      MaxSequenceMeaning(events[..n], binding);
    }
  }

  /** The highest sequence number is the number of events. */
  lemma MaxSequenceIsCount(events: seq<Event>, binding: Id)
    requires forall i | 0 <= i < |History(events, binding)| :: History(events, binding)[i].sequence == i + 1
    ensures MaxSequence(events, binding) == |History(events, binding)|
  {
    var h := History(events, binding);
    HistoryElements(events, binding);
    MaxSequenceMeaning(events, binding);
    if h != [] {
      assert h[|h| - 1] in h;
    }
    if MaxSequence(events, binding) != 0 {
      var x :| x in events && x.binding == binding && x.sequence == MaxSequence(events, binding);
      assert x in h;
    }
  }

  lemma {:induction false} LatestIsLast(bindings: seq<Binding>, source: Id, policy: Id)
    requires Numbered(RevisionsOf(bindings, source, policy))
    ensures var rs := RevisionsOf(bindings, source, policy);
            LatestRevision(bindings, source, policy) == if rs == [] then None else Some(rs[|rs| - 1])
  {
    if bindings != [] {
      var n := |bindings| - 1;
      var rs, front := RevisionsOf(bindings, source, policy), RevisionsOf(bindings[..n], source, policy);
      assert forall i | 0 <= i < |front| :: front[i] == rs[i];
      LatestIsLast(bindings[..n], source, policy);
    }
  }

  lemma {:induction false} RevisionsElements(bindings: seq<Binding>, source: Id, policy: Id)
    ensures forall b :: b in RevisionsOf(bindings, source, policy) <==> b in bindings && b.source == source && b.policy == policy
  {
    if bindings != [] {
      var n := |bindings| - 1;
      assert bindings == bindings[..n] + [bindings[n]];
      RevisionsElements(bindings[..n], source, policy);
    }
  }

  // ---------- the guards keep the invariant ----------

  lemma HistoryAppend(events: seq<Event>, e: Event, binding: Id)
    ensures History(events + [e], binding) ==
              if e.binding == binding then InSequence(History(events, binding), e) else History(events, binding)
  {
  }

  lemma RevisionsAppend(bindings: seq<Binding>, b: Binding, source: Id, policy: Id)
    ensures RevisionsOf(bindings + [b], source, policy) ==
              RevisionsOf(bindings, source, policy) + if b.source == source && b.policy == policy then [b] else []
  {
  }

  lemma LongerHistory(b: Binding, h: seq<Event>, e: Event)
    requires (h == [] || HistoryOk(b, h)) && e.binding == b.id && e.hash == b.hash && e.sequence == |h| + 1 <= 3
    requires SequenceState(e.sequence, e.status)
    requires h == [] ==> e.actor == b.actor && e.request == b.request && e.reason == b.reason
    ensures HistoryOk(b, h + [e])
  {
  }

  /** An accepted event comes right after the events there are. */
  lemma AcceptedEventExtends(t: Tables, b: Binding, e: Event)
    requires BindingRow(t.bindings, e.binding) == Some(b) && EventGuard(t, e) && EventConstraints(t, e)
    requires var h := History(t.events, b.id); h == [] || HistoryOk(b, h)
    ensures var h := History(t.events, b.id);
            History(t.events + [e], b.id) == h + [e] && HistoryOk(b, h + [e]) && |h| < 3
  {
    var h := History(t.events, b.id);
    MaxSequenceIsCount(t.events, b.id);
    HistoryAppend(t.events, e, b.id);
    assert h != [] ==> h[|h| - 1].sequence == |h|;
    assert InSequence(h, e) == h + [e];
    LongerHistory(b, h, e);
  }

  lemma OtherHistories(events: seq<Event>, e: Event, bindings: seq<Binding>)
    requires Histories(bindings, events)
    ensures forall b | b in bindings && b.id != e.binding :: HistoryOk(b, History(events + [e], b.id))
  {
  }

  lemma EventKeepsChains(t: Tables, e: Event)
    requires Chains(t.bindings, t.events)
    requires LatestStatus(t.events, e.binding) != Some(REVOKED)
    ensures Chains(t.bindings, t.events + [e])
  {
  }

  lemma EventKeepsKeys(t: Tables, e: Event)
    requires EventsOwned(t.bindings, t.events) && DistinctRequests(t.events) && EventGuard(t, e) && EventConstraints(t, e)
    ensures EventsOwned(t.bindings, t.events + [e]) && DistinctRequests(t.events + [e])
  {
  }

  lemma EventKeepsHistories(t: Tables, e: Event)
    requires DistinctBindings(t.bindings) && Histories(t.bindings, t.events) && EventGuard(t, e) && EventConstraints(t, e)
    ensures Histories(t.bindings, t.events + [e]) && LatestStatus(t.events, e.binding) != Some(REVOKED)
  {
    var b := BindingRow(t.bindings, e.binding).value;
    assert HistoryOk(b, History(t.events, b.id));
    AcceptedEventExtends(t, b, e);
    OtherHistories(t.events, e, t.bindings);
  }

  lemma EventKeepsInv(t: Tables, e: Event)
    requires Inv(t)
    ensures Inv(OrUnchanged(t, InsertEvent(t, e)))
  {
    if InsertEvent(t, e).Some? {
      EventKeepsKeys(t, e);
      EventKeepsHistories(t, e);
      EventKeepsChains(t, e);
    }
  }

  lemma {:induction false} NoEvents(events: seq<Event>, binding: Id)
    requires forall x | x in events :: x.binding != binding
    ensures History(events, binding) == []
  {
    if events != [] {
      NoEvents(events[..|events| - 1], binding);
    }
  }

  lemma NewBindingHasNoEvents(t: Tables, row: Binding)
    requires EventsOwned(t.bindings, t.events) && BindingConstraints(t, row)
    ensures History(t.events, row.id) == []
  {
    forall x | x in t.events ensures x.binding != row.id {
      assert BindingRow(t.bindings, x.binding).value in t.bindings;
    }
    NoEvents(t.events, row.id);
  }

  lemma ChainAppend(events: seq<Event>, rs: seq<Binding>, row: Binding)
    requires ChainOk(events, rs) && row.revision == |rs| + 1
    requires if rs == [] then row.previous == None
             else row.previous == Some(rs[|rs| - 1].id) && LatestStatus(events, rs[|rs| - 1].id) == Some(REVOKED)
    ensures ChainOk(events, rs + [row])
  {
    var all := rs + [row];
    assert forall i | 0 <= i < |rs| :: all[i] == rs[i];
    forall i | 0 <= i < |all| ensures Linked(all, i) {
      assert i < |rs| ==> Linked(rs, i);
      assert i > 0 ==> all[i - 1] == rs[i - 1];
    }
    forall i | 0 <= i < |all| - 1 ensures LatestStatus(events, all[i].id) == Some(REVOKED) {
      assert all[i] == rs[i];
    }
  }

  lemma RevisionKeepsChain(t: Tables, row: Binding, source: Id, policy: Id)
    requires ChainOk(t.events, RevisionsOf(t.bindings, source, policy)) && PredecessorGuard(t, row)
    ensures ChainOk(t.events, RevisionsOf(t.bindings + [row], source, policy))
  {
    var rs := RevisionsOf(t.bindings, source, policy);
    RevisionsAppend(t.bindings, row, source, policy);
    LatestIsLast(t.bindings, source, policy);
    if row.source == source && row.policy == policy {
      ChainAppend(t.events, rs, row);
    } else {
      assert rs + [] == rs;
    }
  }

  lemma RevisionKeepsChains(t: Tables, row: Binding)
    requires Chains(t.bindings, t.events) && PredecessorGuard(t, row)
    ensures Chains(t.bindings + [row], t.events)
  {
    forall source, policy ensures ChainOk(t.events, RevisionsOf(t.bindings + [row], source, policy)) {
      RevisionKeepsChain(t, row, source, policy);
    }
  }

  lemma NewRowIsFound(t: Tables, row: Binding)
    requires DistinctBindings(t.bindings) && BindingConstraints(t, row)
    ensures DistinctBindings(t.bindings + [row]) && BindingRow(t.bindings + [row], row.id) == Some(row)
  {
  }

  lemma NewRowKeepsOwners(t: Tables, row: Binding)
    requires EventsOwned(t.bindings, t.events) && DistinctBindings(t.bindings + [row])
    ensures EventsOwned(t.bindings + [row], t.events)
  {
  }

  lemma NewRowHistories(t: Tables, row: Binding)
    requires Histories(t.bindings, t.events) && History(t.events, row.id) == []
    requires BindingRow(t.bindings + [row], row.id) == Some(row)
    requires var t1 := t.(bindings := t.bindings + [row]); EventGuard(t1, FirstEvent(row)) && EventConstraints(t1, FirstEvent(row))
    ensures Histories(t.bindings + [row], t.events + [FirstEvent(row)])
  {
  }

  lemma NewRowKeepsKeys(t: Tables, row: Binding)
    requires EventsOwned(t.bindings + [row], t.events) && Sourced(t.sources, t.bindings) && DistinctRequests(t.events)
    requires BindingRow(t.bindings + [row], row.id) == Some(row) && SourceGuard(t, row)
    requires EventConstraints(t.(bindings := t.bindings + [row]), FirstEvent(row))
    ensures EventsOwned(t.bindings + [row], t.events + [FirstEvent(row)])
    ensures Sourced(t.sources, t.bindings + [row]) && DistinctRequests(t.events + [FirstEvent(row)])
  {
  }

  lemma RevisionKeepsInv(t: Tables, row: Binding)
    requires Inv(t)
    ensures Inv(OrUnchanged(t, InsertRevision(t, row)))
  {
    if InsertRevision(t, row).Some? {
      NewBindingHasNoEvents(t, row);
      NewRowIsFound(t, row);
      NewRowKeepsOwners(t, row);
      NewRowKeepsKeys(t, row);
      NewRowHistories(t, row);
      RevisionKeepsChains(t, row);
      EventKeepsChains(t.(bindings := t.bindings + [row]), FirstEvent(row));
    }
  }

  lemma SourceKeepsInv(t: Tables, row: Source)
    requires Inv(t)
    ensures Inv(OrUnchanged(t, InsertSource(t, row)))
  {
  }

  /** A call changes the tables by one guarded insert or not at all. */
  lemma ProposeInserts(t: Tables, call: Call, s: Surroundings)
    requires call.Propose?
    ensures var t' := ProposeRevision(t, call, s).0;
            t' == t || exists row :: t' == OrUnchanged(t, InsertRevision(t, row))
  {
  }

  lemma MoveInserts(t: Tables, call: Call, s: Surroundings)
    requires call.Move?
    ensures var t' := MoveBinding(t, call, s).0;
            t' == t || exists row :: t' == OrUnchanged(t, InsertEvent(t, row))
  {
  }

  lemma PerformKeepsInv(t: Tables, call: Call, s: Surroundings)
    requires Inv(t)
    ensures Inv(Perform(t, call, s).0)
  {
    var t' := Perform(t, call, s).0;
    if call.Propose? {
      ProposeInserts(t, call, s);
      if t' != t {
        var row :| t' == OrUnchanged(t, InsertRevision(t, row));
        RevisionKeepsInv(t, row);
      }
    } else {
      MoveInserts(t, call, s);
      if t' != t {
        var row :| t' == OrUnchanged(t, InsertEvent(t, row));
        EventKeepsInv(t, row);
      }
    }
  }

  lemma NextKeepsInv(t: Tables, s: Step)
    requires Inv(t)
    ensures Inv(Next(t, s))
  {
    match s
    case Issue(call, surroundings) => PerformKeepsInv(t, call, surroundings);
    case RawRevision(row) => RevisionKeepsInv(t, row);
    case RawEvent(row) => EventKeepsInv(t, row);
    case ImportSource(row) => SourceKeepsInv(t, row);
    case SetDocument(_, _) =>
    case AddPolicy(_) =>
    case AddUser(_) =>
  }

  lemma {:induction false} ExecutionKeepsInv(t: Tables, steps: seq<Step>)
    requires Inv(t)
    ensures Inv(Execution(t, steps))
    decreases |steps|
  {
    if steps != [] {
      NextKeepsInv(t, steps[0]);
      ExecutionKeepsInv(Next(t, steps[0]), steps[1..]);
    }
  }

  ghost predicate Reachable(t: Tables) {
    exists steps :: Execution(EMPTY, steps) == t
  }

  lemma ReachableIsSound(t: Tables)
    requires Reachable(t)
    ensures Inv(t)
  {
    var steps :| Execution(EMPTY, steps) == t;
    ExecutionKeepsInv(EMPTY, steps);
  }

  // ---------- the chain theorems ----------

  /**
   * In every run, whoever inserts: a binding has events 1 to k with the first k states, and the revisions of a
   * source for a policy version are 1 to n, linked, all but the last revoked.
   */
  lemma ChainOfEveryRun(t: Tables, source: Id, policy: Id)
    requires Reachable(t)
    ensures forall b | b in t.bindings :: HistoryOk(b, History(t.events, b.id))
    ensures ChainOk(t.events, RevisionsOf(t.bindings, source, policy))
  {
    ReachableIsSound(t);
  }

  /** Two bindings of one source for one policy version are never open at once. */
  lemma AtMostOneOpen(t: Tables, a: Binding, b: Binding)
    requires Reachable(t) && a in t.bindings && b in t.bindings && a.source == b.source && a.policy == b.policy
    requires LatestStatus(t.events, a.id) != Some(REVOKED) && LatestStatus(t.events, b.id) != Some(REVOKED)
    ensures a == b
  {
    ReachableIsSound(t);
    RevisionsElements(t.bindings, a.source, a.policy);
    var rs := RevisionsOf(t.bindings, a.source, a.policy);
    assert ChainOk(t.events, rs);
    assert rs[|rs| - 1] == a && rs[|rs| - 1] == b;
  }

  // ---------- two implementations of one state machine ----------

  predicate FreshRequest(t: Tables, request: Id) {
    forall e | e in t.events :: e.request != request
  }

  /** The request of a binding is that of its first event. */
  lemma ProposalsAreEvents(t: Tables, b: Binding)
    requires Inv(t) && b in t.bindings
    ensures FirstEvent(b) in t.events
  {
    HistoryElements(t.events, b.id);
    assert History(t.events, b.id)[0] in History(t.events, b.id);
  }

  lemma LastSequence(t: Tables, b: Binding)
    requires Inv(t) && b in t.bindings
    ensures var h := History(t.events, b.id);
            HistoryOk(b, h) && MaxSequence(t.events, b.id) == |h| &&
            forall x | x in t.events && x.binding == b.id :: x.sequence <= |h|
  {
    var h := History(t.events, b.id);
    assert HistoryOk(b, h);
    MaxSequenceIsCount(t.events, b.id);
    HistoryElements(t.events, b.id);
    forall x | x in t.events && x.binding == b.id ensures x.sequence <= |h| {
      assert x in h;
    }
  }

  predicate NextEvent(b: Binding, h: seq<Event>, e: Event)
    requires h != []
  {
    e.binding == b.id && e.hash == b.hash && e.sequence == |h| + 1 && ValidTransition(h[|h| - 1].status, e.status)
  }

  lemma EventGuardAfter(t: Tables, b: Binding, h: seq<Event>, e: Event)
    requires BindingRow(t.bindings, e.binding) == Some(b) && HistoryOk(b, h) && MaxSequence(t.events, b.id) == |h|
    requires forall x | x in t.events && x.binding == b.id :: x.sequence <= |h|
    ensures EventGuard(t, e) && EventConstraints(t, e) <==>
              NextEvent(b, h, e) && FreshRequest(t, e.request) && ReasonColumn(e.reason) && e.actor in t.users
  {
  }

  /** The triggers and checks on an event accept exactly what the transition table of the service allows next. */
  lemma EventGuardIsTransitionTable(t: Tables, e: Event)
    requires Reachable(t)
    ensures InsertEvent(t, e).Some? <==>
              BindingRow(t.bindings, e.binding).Some? && FreshRequest(t, e.request) && ReasonColumn(e.reason) &&
              e.actor in t.users &&
              History(t.events, e.binding) != [] &&
              NextEvent(BindingRow(t.bindings, e.binding).value, History(t.events, e.binding), e)
  {
    ReachableIsSound(t);
    var found := BindingRow(t.bindings, e.binding);
    if found.Some? {
      LastSequence(t, found.value);
      EventGuardAfter(t, found.value, History(t.events, e.binding), e);
    }
  }

  lemma OpenMeaning(t: Tables, previous: Option<Binding>)
    requires Inv(t) && (previous.Some? ==> previous.value in t.bindings)
    ensures StillOpen(t, previous) ==
              if previous.None? || LatestStatus(t.events, previous.value.id) == Some(REVOKED) then None else Some(RevisionStillOpen)
  {
  }

  lemma LatestOf(t: Tables, source: Id, policy: Id)
    requires Inv(t)
    ensures var latest := LatestRevision(t.bindings, source, policy);
            (latest.Some? ==> latest.value in t.bindings && latest.value.revision > 0) &&
            (forall b | b in t.bindings && b.source == source && b.policy == policy ::
               latest.Some? && b.revision <= latest.value.revision)
  {
    var rs := RevisionsOf(t.bindings, source, policy);
    assert ChainOk(t.events, rs);
    LatestIsLast(t.bindings, source, policy);
    RevisionsElements(t.bindings, source, policy);
    if rs != [] {
      assert rs[|rs| - 1] in rs;
    }
    forall b | b in t.bindings && b.source == source && b.policy == policy ensures rs != [] && b.revision <= |rs| {
      assert b in rs;
    }
  }

  /** What the service would insert as the next revision. */
  predicate NextInChain(t: Tables, row: Binding) {
    var latest := LatestRevision(t.bindings, row.source, row.policy);
    row.revision == (if latest.None? then 1 else latest.value.revision + 1) &&
    row.previous == (if latest.None? then None else Some(latest.value.id))
  }

  predicate FreshId(t: Tables, id: Id) {
    forall b | b in t.bindings :: b.id != id
  }

  lemma ConstraintsOfTheNext(t: Tables, row: Binding)
    requires Inv(t) && NextInChain(t, row)
    ensures BindingConstraints(t, row) <==>
              row.policy in t.policies && row.actor in t.users && ReasonColumn(row.reason) && FreshId(t, row.id) &&
              forall b | b in t.bindings :: b.request != row.request
  {
    LatestOf(t, row.source, row.policy);
  }

  lemma FirstEventAccepted(t: Tables, row: Binding)
    requires EventsOwned(t.bindings, t.events) && DistinctBindings(t.bindings) && BindingConstraints(t, row)
    ensures InsertEvent(t.(bindings := t.bindings + [row]), FirstEvent(row)).Some? <==> FreshRequest(t, row.request)
  {
    NewBindingHasNoEvents(t, row);
    NewRowIsFound(t, row);
    HistoryElements(t.events, row.id);
    MaxSequenceIsCount(t.events, row.id);
  }

  lemma PredecessorIsRevoked(t: Tables, row: Binding)
    requires Inv(t)
    ensures PredecessorGuard(t, row) <==>
              StillOpen(t, LatestRevision(t.bindings, row.source, row.policy)) == None && NextInChain(t, row)
  {
    LatestOf(t, row.source, row.policy);
    OpenMeaning(t, LatestRevision(t.bindings, row.source, row.policy));
  }

  lemma NoBindingWith(t: Tables, request: Id)
    requires Inv(t) && FreshRequest(t, request)
    ensures forall b | b in t.bindings :: b.request != request
  {
    forall b | b in t.bindings ensures b.request != request {
      ProposalsAreEvents(t, b);
    }
  }

  lemma RevisionGuardMeans(t: Tables, row: Binding)
    requires Reachable(t)
    ensures InsertRevision(t, row).Some? <==>
              SourceGuard(t, row) && StillOpen(t, LatestRevision(t.bindings, row.source, row.policy)) == None &&
              NextInChain(t, row) && row.policy in t.policies && row.actor in t.users && ReasonColumn(row.reason) &&
              FreshId(t, row.id) && FreshRequest(t, row.request)
  {
    ReachableIsSound(t);
    PredecessorIsRevoked(t, row);
    if NextInChain(t, row) {
      ConstraintsOfTheNext(t, row);
      if FreshRequest(t, row.request) {
        NoBindingWith(t, row.request);
      }
      if BindingConstraints(t, row) {
        FirstEventAccepted(t, row);
      }
    }
  }

  lemma ReasonReachesTheColumn(reason: string)
    requires ValidReason(reason)
    ensures ReasonColumn(reason) <==> NoNul(reason)
  {
  }

  predicate Admitted(call: Call) {
    call.who.staff && ValidReason(call.reason)
  }

  // ---------- what the rows show ----------

  /** The document is there, and a source of it was recorded with the hash that it has now. */
  predicate Unchanged(t: Tables, document: Id) {
    document in t.documents && exists x | x in t.sources :: x.document == document && x.hash == t.documents[document]
  }

  /** The last event of the binding has this status. */
  predicate Stands(events: seq<Event>, binding: Id, status: State) {
    exists e | e in events ::
      e.binding == binding && e.status == status && forall o | o in events && o.binding == binding :: o.sequence <= e.sequence
  }

  /** A binding of a source of this document for this policy version. */
  predicate Concerns(t: Tables, b: Binding, document: Id, policy: Id) {
    b.policy == policy && exists x | x in t.sources :: x.id == b.source && x.document == document
  }

  /** What the service asks of a proposal with a new request id. */
  predicate PassesProposal(t: Tables, call: Call, s: Surroundings)
    requires call.Propose?
  {
    call.who.staff && ValidReason(call.reason) && call.policy in t.policies && s.readable && Unchanged(t, call.document) &&
    forall b | b in t.bindings && Concerns(t, b, call.document, call.policy) :: Stands(t.events, b.id, REVOKED)
  }

  /** The source of the binding, where the document still has the hash that was approved or proposed. */
  predicate SourceUnchanged(t: Tables, b: Binding) {
    exists x | x in t.sources :: x.id == b.source && x.document in t.documents && t.documents[x.document] == b.hash
  }

  /** What the service asks of an approval or revocation with a new request id. */
  predicate PassesMove(t: Tables, call: Call, s: Surroundings)
    requires call.Move?
  {
    call.who.staff && ValidReason(call.reason) &&
    exists b | b in t.bindings ::
      b.id == call.binding &&
      match call.target
      case PROPOSED => false
      case APPROVED => Stands(t.events, b.id, PROPOSED) && s.readable && SourceUnchanged(t, b)
      case REVOKED => Stands(t.events, b.id, APPROVED)
  }

  lemma LastStands(t: Tables, b: Binding)
    requires Inv(t) && b in t.bindings
    ensures var h := History(t.events, b.id); h != [] && Stands(t.events, b.id, h[|h| - 1].status)
  {
    LastSequence(t, b);
    HistoryElements(t.events, b.id);
    var h := History(t.events, b.id);
    assert h[|h| - 1] in h;
  }

  lemma OneStands(events: seq<Event>, b: Binding, status: State, other: State)
    requires HistoryOk(b, History(events, b.id)) && Stands(events, b.id, status) && Stands(events, b.id, other)
    ensures status == other
  {
    HistoryElements(events, b.id);
  }

  lemma StandsIff(t: Tables, b: Binding, status: State)
    requires Inv(t) && b in t.bindings
    ensures Stands(t.events, b.id, status) <==> LatestStatus(t.events, b.id) == Some(status)
  {
    LastStands(t, b);
    if Stands(t.events, b.id, status) {
      OneStands(t.events, b, status, LatestStatus(t.events, b.id).value);
    }
  }

  lemma ReadableIff(t: Tables, document: Id, readable: bool)
    requires DistinctSources(t.sources)
    ensures ReadFailure(t, document, readable) == None <==> readable && Unchanged(t, document)
  {
    if Unchanged(t, document) {
      var x :| x in t.sources && x.document == document && x.hash == t.documents[document];
      SourceFoundById(t, x);
    }
  }

  lemma ChainConcerns(t: Tables, source: Source, policy: Id, b: Binding)
    requires DistinctSources(t.sources) && source in t.sources && b in t.bindings
    ensures Concerns(t, b, source.document, policy) <==> b in RevisionsOf(t.bindings, source.id, policy)
  {
    SameSource(t, source, b);
    RevisionsElements(t.bindings, source.id, policy);
  }

  lemma ChainRevokedIff(events: seq<Event>, rs: seq<Binding>)
    requires ChainOk(events, rs) && rs != []
    ensures LatestStatus(events, rs[|rs| - 1].id) == Some(REVOKED) <==>
              forall b | b in rs :: LatestStatus(events, b.id) == Some(REVOKED)
  {
    assert rs[|rs| - 1] in rs;
  }

  lemma LatestRevokedIff(t: Tables, source: Id, policy: Id)
    requires Inv(t)
    ensures StillOpen(t, LatestRevision(t.bindings, source, policy)) == None <==>
              forall b | b in RevisionsOf(t.bindings, source, policy) :: LatestStatus(t.events, b.id) == Some(REVOKED)
  {
    var rs := RevisionsOf(t.bindings, source, policy);
    assert ChainOk(t.events, rs);
    LatestIsLast(t.bindings, source, policy);
    LatestOf(t, source, policy);
    OpenMeaning(t, LatestRevision(t.bindings, source, policy));
    if rs != [] {
      ChainRevokedIff(t.events, rs);
    }
  }

  lemma NoneOpenIff(t: Tables, source: Source, policy: Id)
    requires Inv(t) && source in t.sources
    ensures StillOpen(t, LatestRevision(t.bindings, source.id, policy)) == None <==>
              forall b | b in t.bindings && Concerns(t, b, source.document, policy) :: Stands(t.events, b.id, REVOKED)
  {
    LatestRevokedIff(t, source.id, policy);
    RevisionsElements(t.bindings, source.id, policy);
    forall b | b in t.bindings
      ensures Concerns(t, b, source.document, policy) <==> b in RevisionsOf(t.bindings, source.id, policy)
      ensures Stands(t.events, b.id, REVOKED) <==> LatestStatus(t.events, b.id) == Some(REVOKED)
    {
      ChainConcerns(t, source, policy, b);
      StandsIff(t, b, REVOKED);
    }
  }

  lemma SameSource(t: Tables, source: Source, b: Binding)
    requires DistinctSources(t.sources) && source in t.sources
    ensures (exists x | x in t.sources :: x.id == b.source && x.document == source.document) <==> b.source == source.id
  {
    if exists x | x in t.sources :: x.id == b.source && x.document == source.document {
      var x :| x in t.sources && x.id == b.source && x.document == source.document;
      SourceFoundById(t, x);
      SourceFoundById(t, source);
    }
  }

  lemma PassesProposalIff(t: Tables, call: Call, s: Surroundings)
    requires Inv(t) && call.Propose?
    ensures PassesProposal(t, call, s) <==> AdmitsProposal(t, call, s)
  {
    ReadableIff(t, call.document, s.readable);
    if ReadFailure(t, call.document, s.readable) == None {
      NoneOpenIff(t, SourceOf(t.sources, call.document).value, call.policy);
    }
  }

  lemma ApprovableIff(t: Tables, b: Binding, readable: bool)
    requires Inv(t) && b in t.bindings
    ensures ApprovalFailure(t, b, readable) == None <==> readable && SourceUnchanged(t, b)
  {
    var source := SourceRow(t.sources, b.source).value;
    SourceFoundById(t, source);
    ReadableIff(t, source.document, readable);
    if SourceUnchanged(t, b) {
      var x :| x in t.sources && x.id == b.source && x.document in t.documents && t.documents[x.document] == b.hash;
      SourceFoundById(t, x);
    }
  }

  lemma PassesMoveIff(t: Tables, call: Call, s: Surroundings)
    requires Inv(t) && call.Move?
    ensures PassesMove(t, call, s) <==> AdmitsMove(t, call, s)
  {
    var found := BindingRow(t.bindings, call.binding);
    if found.Some? {
      var b := found.value;
      StandsIff(t, b, PROPOSED);
      StandsIff(t, b, APPROVED);
      ApprovableIff(t, b, s.readable);
      forall other | other in t.bindings && other.id == call.binding ensures other == b {
        UniqueProposal(t, other);
      }
    }
  }

  /**
   * The revision trigger, the constraints and the trigger that adds the first event together accept exactly the
   * next revision the service would build, when it finds the predecessor revoked.
   */
  lemma RevisionGuardIsServiceRule(t: Tables, row: Binding)
    requires Reachable(t)
    ensures InsertRevision(t, row).Some? <==>
              (exists x | x in t.sources ::
                 x.id == row.source && x.hash == row.hash &&
                 x.document in t.documents && t.documents[x.document] == row.hash) &&
              (forall b | b in t.bindings && b.source == row.source && b.policy == row.policy :: Stands(t.events, b.id, REVOKED)) &&
              NextInChain(t, row) && row.policy in t.policies && row.actor in t.users && ReasonColumn(row.reason) &&
              FreshId(t, row.id) && FreshRequest(t, row.request)
  {
    ReachableIsSound(t);
    RevisionGuardMeans(t, row);
    SourceGuardMeans(t, row);
    LatestRevokedIff(t, row.source, row.policy);
    RevisionsElements(t.bindings, row.source, row.policy);
    forall b | b in t.bindings ensures Stands(t.events, b.id, REVOKED) <==> LatestStatus(t.events, b.id) == Some(REVOKED) {
      StandsIff(t, b, REVOKED);
    }
  }

  lemma SourceGuardMeans(t: Tables, row: Binding)
    requires DistinctSources(t.sources)
    ensures SourceGuard(t, row) <==>
              exists x | x in t.sources ::
                x.id == row.source && x.hash == row.hash && x.document in t.documents && t.documents[x.document] == row.hash
  {
    if x :| x in t.sources && x.id == row.source && x.hash == row.hash {
      SourceFoundById(t, x);
    }
  }

  // ---------- when a call succeeds ----------

  /** The same requirements as the service checks them, query by query. */
  predicate AdmitsProposal(t: Tables, call: Call, s: Surroundings)
    requires call.Propose?
  {
    Admitted(call) && call.policy in t.policies && ReadFailure(t, call.document, s.readable) == None &&
    StillOpen(t, LatestRevision(t.bindings, SourceOf(t.sources, call.document).value.id, call.policy)) == None
  }

  predicate AdmitsMove(t: Tables, call: Call, s: Surroundings)
    requires call.Move?
  {
    Admitted(call) && BindingRow(t.bindings, call.binding).Some? &&
    var b := BindingRow(t.bindings, call.binding).value;
    var current := LatestStatus(t.events, b.id);
    current.Some? && ValidTransition(current.value, call.target) &&
    (call.target == APPROVED ==> ApprovalFailure(t, b, s.readable) == None)
  }

  /** What only the database asks: the caller is a user row, and the reason is text it can hold. */
  predicate Storable(t: Tables, call: Call) {
    call.who.actor in t.users && NoNul(call.reason)
  }

  /** The row that a proposal inserts when the service lets it pass. */
  function ProposedRow(t: Tables, call: Call, newId: Id): Binding
    requires call.Propose? && SourceOf(t.sources, call.document).Some?
  {
    var source := SourceOf(t.sources, call.document).value;
    RevisionFor(source, call.policy, LatestRevision(t.bindings, source.id, call.policy), call, newId)
  }

  lemma ProposalPasses(t: Tables, call: Call, s: Surroundings)
    requires call.Propose? && AdmitsProposal(t, call, s) && ProposalRequest(t.bindings, call.request) == None
    ensures var row := ProposedRow(t, call, s.newId);
            Perform(t, call, s) ==
              match InsertRevision(t, row)
              case None => (t, Refused(DatabaseRefusal))
              case Some(t') => (t', ViewOf(t', row))
  {
  }

  lemma ProposalStops(t: Tables, call: Call, s: Surroundings)
    requires call.Propose? && (!AdmitsProposal(t, call, s) || ProposalRequest(t.bindings, call.request).Some?)
    ensures Perform(t, call, s).1 != Refused(DatabaseRefusal)
    ensures ProposalRequest(t.bindings, call.request) == None ==> Perform(t, call, s).1.Refused?
  {
  }

  /** The database takes the row of a proposal that passes iff its request is new and it can be stored. */
  lemma ProposedRowInsertedIff(t: Tables, call: Call, s: Surroundings)
    requires Reachable(t) && call.Propose? && AdmitsProposal(t, call, s) && FreshId(t, s.newId)
    ensures InsertRevision(t, ProposedRow(t, call, s.newId)).Some? <==> FreshRequest(t, call.request) && Storable(t, call)
  {
    ReachableIsSound(t);
    var source := SourceOf(t.sources, call.document).value;
    ReasonReachesTheColumn(call.reason);
    SourceFoundById(t, source);
    RevisionGuardMeans(t, ProposedRow(t, call, s.newId));
  }

  lemma InsertedRowIsViewed(t: Tables, row: Binding)
    requires Inv(t) && InsertRevision(t, row).Some?
    ensures ViewOf(InsertRevision(t, row).value, row).Viewed?
  {
    RevisionKeepsInv(t, row);
    var t' := InsertRevision(t, row).value;
    assert t'.bindings[|t.bindings|] == row;
    assert HistoryOk(row, History(t'.events, row.id));
  }

  /** With a fresh request id a proposal succeeds iff it passes the checks of the service and can be stored. */
  lemma FreshProposalSucceedsIff(t: Tables, call: Call, s: Surroundings)
    requires Reachable(t) && call.Propose? && FreshRequest(t, call.request) && FreshId(t, s.newId)
    ensures Perform(t, call, s).1.Viewed? <==> PassesProposal(t, call, s) && Storable(t, call)
    ensures Perform(t, call, s).1 == Refused(DatabaseRefusal) <==> PassesProposal(t, call, s) && !Storable(t, call)
  {
    ReachableIsSound(t);
    NoProposal(t, call.request);
    PassesProposalIff(t, call, s);
    if PassesProposal(t, call, s) {
      ProposalPasses(t, call, s);
      ProposedRowInsertedIff(t, call, s);
      if Storable(t, call) {
        InsertedRowIsViewed(t, ProposedRow(t, call, s.newId));
      }
    } else {
      ProposalStops(t, call, s);
    }
  }

  /**
   * The gap between the two: a proposal looks for its request id among the bindings only, so with the id of an
   * earlier approval or revocation it passes every check and is refused by the database.
   */
  lemma ProposalRefusedByDatabaseIff(t: Tables, call: Call, s: Surroundings)
    requires Reachable(t) && call.Propose? && FreshId(t, s.newId)
    ensures Perform(t, call, s).1 == Refused(DatabaseRefusal) <==>
              PassesProposal(t, call, s) && ProposalRequest(t.bindings, call.request) == None &&
              !(FreshRequest(t, call.request) && Storable(t, call))
  {
    ReachableIsSound(t);
    PassesProposalIff(t, call, s);
    if PassesProposal(t, call, s) && ProposalRequest(t.bindings, call.request) == None {
      ProposalPasses(t, call, s);
      ProposedRowInsertedIff(t, call, s);
    } else {
      ProposalStops(t, call, s);
    }
  }

  lemma SourceFoundById(t: Tables, source: Source)
    requires DistinctSources(t.sources) && source in t.sources
    ensures SourceRow(t.sources, source.id) == Some(source) && SourceOf(t.sources, source.document) == Some(source)
  {
  }

  lemma NoProposal(t: Tables, request: Id)
    requires Inv(t) && FreshRequest(t, request)
    ensures ProposalRequest(t.bindings, request) == None
  {
    var found := ProposalRequest(t.bindings, request);
    if found.Some? {
      ProposalsAreEvents(t, found.value);
    }
  }

  lemma FreshEventAccepted(t: Tables, call: Call, b: Binding)
    requires Reachable(t) && call.Move? && FreshRequest(t, call.request) && Admitted(call)
    requires BindingRow(t.bindings, b.id) == Some(b)
    ensures var h := History(t.events, b.id);
            var e := EventFor(b, h, call);
            h != [] && (InsertEvent(t, e).Some? <==> ValidTransition(h[|h| - 1].status, call.target) && Storable(t, call)) &&
            History(t.events + [e], b.id) != []
  {
    ReachableIsSound(t);
    var h := History(t.events, b.id);
    var e := EventFor(b, h, call);
    LastSequence(t, b);
    ReasonReachesTheColumn(call.reason);
    EventGuardIsTransitionTable(t, e);
    HistoryAppend(t.events, e, b.id);
  }

  lemma FreshMoveAdmitted(t: Tables, call: Call, s: Surroundings)
    requires Reachable(t) && call.Move? && FreshRequest(t, call.request)
    ensures Perform(t, call, s).1.Viewed? <==> AdmitsMove(t, call, s) && Storable(t, call)
    ensures Perform(t, call, s).1 == Refused(DatabaseRefusal) <==> AdmitsMove(t, call, s) && !Storable(t, call)
  {
    var found := BindingRow(t.bindings, call.binding);
    if Admitted(call) && found.Some? {
      FreshEventAccepted(t, call, found.value);
      assert EventRequest(t.events, call.request).None?;
    }
  }

  /** With a fresh request id an approval or revocation succeeds iff it passes the checks and can be stored. */
  lemma FreshMoveSucceedsIff(t: Tables, call: Call, s: Surroundings)
    requires Reachable(t) && call.Move? && FreshRequest(t, call.request)
    ensures Perform(t, call, s).1.Viewed? <==> PassesMove(t, call, s) && Storable(t, call)
    ensures Perform(t, call, s).1 == Refused(DatabaseRefusal) <==> PassesMove(t, call, s) && !Storable(t, call)
  {
    ReachableIsSound(t);
    PassesMoveIff(t, call, s);
    FreshMoveAdmitted(t, call, s);
  }

  /**
   * Approval never meets a binding without its source, nor a source whose hash differs from that of the binding:
   * it is the document and the stored bytes that decide, in this order.
   */
  lemma ApprovalNeedsOnlyTheSource(t: Tables, b: Binding, readable: bool)
    requires Reachable(t) && b in t.bindings
    ensures exists x | x in t.sources ::
              x.id == b.source && x.hash == b.hash &&
              ApprovalFailure(t, b, readable) ==
                if x.document !in t.documents then Some(SourceNotFound)
                else if t.documents[x.document] != b.hash then Some(SourceMismatch)
                else if !readable then Some(StoreFailure)
                else None
  {
    ReachableIsSound(t);
    var x := SourceRow(t.sources, b.source).value;
    SourceFoundById(t, x);
  }

  /** No event is written for a proposal or an approval unless the bytes verify and the document is unchanged. */
  lemma WritesOnlyWhatWasRead(t: Tables, call: Call, s: Surroundings)
    requires Perform(t, call, s).0 != t && (call.Propose? || call.target == APPROVED)
    ensures s.readable
    ensures match call
            case Propose(_, _, _, document, _) => Unchanged(t, document)
            case Move(_, _, _, binding, _) =>
              exists b, x | b in t.bindings && x in t.sources :: b.id == binding && x.id == b.source && Unchanged(t, x.document)
  {
    if call.Propose? {
      ProposalReads(t, call, s);
    } else {
      ApprovalReads(t, call, s);
    }
  }

  lemma ReadMeans(t: Tables, document: Id, readable: bool)
    requires ReadFailure(t, document, readable) == None
    ensures readable && Unchanged(t, document)
  {
  }

  lemma ProposalReads(t: Tables, call: Call, s: Surroundings)
    requires call.Propose? && (Perform(t, call, s).0 != t || Perform(t, call, s).1.Viewed?)
    ensures s.readable && Unchanged(t, call.document)
  {
    assert ReadFailure(t, call.document, s.readable) == None;
    ReadMeans(t, call.document, s.readable);
  }

  lemma ApprovalReads(t: Tables, call: Call, s: Surroundings)
    requires call.Move? && call.target == APPROVED && Perform(t, call, s).0 != t
    ensures s.readable
    ensures exists b, x | b in t.bindings && x in t.sources ::
              b.id == call.binding && x.id == b.source && Unchanged(t, x.document)
  {
    var b := BindingRow(t.bindings, call.binding).value;
    assert ApprovalFailure(t, b, s.readable) == None;
    var x := SourceRow(t.sources, b.source).value;
    ReadMeans(t, x.document, s.readable);
    assert b in t.bindings && x in t.sources;
  }

  /** When the bytes do not verify, a proposal fails, and only the repetition of a recorded approval gets an answer. */
  lemma UnreadableIsRefused(t: Tables, call: Call, s: Surroundings)
    requires !s.readable && (call.Propose? || call.target == APPROVED)
    ensures Perform(t, call, s).0 == t
    ensures Perform(t, call, s).1.Viewed? ==>
              call.Move? &&
              exists e | e in t.events ::
                e.request == call.request && e.binding == call.binding && e.status == APPROVED &&
                e.actor == call.who.actor && e.reason == call.reason
  {
    if Perform(t, call, s).0 != t {
      WritesOnlyWhatWasRead(t, call, s);
    }
    if Perform(t, call, s).1.Viewed? {
      if call.Propose? {
        ProposalReads(t, call, s);
      } else {
        SuccessfulMoveIsRecorded(t, call, s);
      }
    }
  }

  // ---------- idempotency ----------

  /** Rows are only added, and a source keeps its document and its hash. */
  predicate Grows(t: Tables, t': Tables) {
    t.policies <= t'.policies && t.sources <= t'.sources && t.bindings <= t'.bindings && t.events <= t'.events
  }

  lemma PerformGrows(t: Tables, call: Call, s: Surroundings)
    ensures Grows(t, Perform(t, call, s).0)
  {
    var t' := Perform(t, call, s).0;
    if call.Propose? {
      ProposeInserts(t, call, s);
    } else {
      MoveInserts(t, call, s);
    }
  }

  lemma {:induction false} ExecutionGrows(t: Tables, steps: seq<Step>)
    ensures Grows(t, Execution(t, steps))
    decreases |steps|
  {
    if steps != [] {
      if steps[0].Issue? {
        PerformGrows(t, steps[0].call, steps[0].surroundings);
      }
      ExecutionGrows(Next(t, steps[0]), steps[1..]);
    }
  }

  /** The rows that show that a call has succeeded before. */
  predicate Recorded(t: Tables, call: Call, b: Binding) {
    b in t.bindings &&
    match call
    case Propose(who, request, reason, document, policy) =>
      b.request == request && b.actor == who.actor && b.reason == reason && b.policy == policy &&
      exists source | source in t.sources :: source.id == b.source && source.document == document
    case Move(who, request, reason, binding, target) =>
      b.id == binding &&
      exists e | e in t.events :: e.request == request && SameMove(e, call)
  }

  lemma SuccessfulProposalIsRecorded(t: Tables, call: Call, s: Surroundings)
    requires call.Propose? && Perform(t, call, s).1.Viewed?
    ensures var (t', reply) := Perform(t, call, s);
            Admitted(call) && call.policy in t'.policies && Recorded(t', call, reply.view.binding)
  {
  }

  lemma SuccessfulMoveIsRecorded(t: Tables, call: Call, s: Surroundings)
    requires call.Move? && Perform(t, call, s).1.Viewed?
    ensures var (t', reply) := Perform(t, call, s);
            Admitted(call) && Recorded(t', call, reply.view.binding)
  {
    var (t', reply) := Perform(t, call, s);
    var b := BindingRow(t.bindings, call.binding).value;
    var existing := EventRequest(t.events, call.request);
    if existing.None? {
      var e := EventFor(b, History(t.events, b.id), call);
      assert t'.events == t.events + [e] && SameMove(e, call);
      assert e in t'.events;
    }
  }

  lemma RecordedStays(t: Tables, t': Tables, call: Call, b: Binding)
    requires Grows(t, t') && Recorded(t, call, b)
    ensures Recorded(t', call, b)
  {
  }

  lemma UniqueProposal(t: Tables, b: Binding)
    requires DistinctBindings(t.bindings) && b in t.bindings
    ensures ProposalRequest(t.bindings, b.request) == Some(b) && BindingRow(t.bindings, b.id) == Some(b)
  {
    var i :| 0 <= i < |t.bindings| && t.bindings[i] == b;
    var p, r := ProposalRequest(t.bindings, b.request).value, BindingRow(t.bindings, b.id).value;
    var j :| 0 <= j < |t.bindings| && t.bindings[j] == p;
    var k :| 0 <= k < |t.bindings| && t.bindings[k] == r;
    assert i == j == k;
  }

  lemma UniqueEvent(t: Tables, e: Event)
    requires DistinctRequests(t.events) && e in t.events
    ensures EventRequest(t.events, e.request) == Some(e)
  {
    var i :| 0 <= i < |t.events| && t.events[i] == e;
    var found := EventRequest(t.events, e.request).value;
    assert found in t.events && found.request == e.request;
    var j :| 0 <= j < |t.events| && t.events[j] == found;
    assert i == j;
  }

  /** The reply that repeating a successful call gets: a proposal reads its document again. */
  function Repeated(t: Tables, call: Call, b: Binding, readable: bool): Reply {
    if call.Propose? && call.document !in t.documents then Refused(SourceNotFound)
    else if call.Propose? && t.documents[call.document] != b.hash then Refused(SourceMismatch)
    else if call.Propose? && !readable then Refused(StoreFailure)
    else Viewed(View(b, History(t.events, b.id)))
  }

  /** A recorded call changes nothing and is answered with the current history. */
  lemma RecordedMoveIsAnswered(t: Tables, call: Call, s: Surroundings, b: Binding)
    requires Inv(t) && call.Move? && Admitted(call) && Recorded(t, call, b)
    ensures Perform(t, call, s) == (t, Viewed(View(b, History(t.events, b.id))))
  {
    var e :| e in t.events && e.request == call.request && SameMove(e, call);
    UniqueProposal(t, b);
    UniqueEvent(t, e);
    assert HistoryOk(b, History(t.events, b.id));
  }

  lemma RecordedProposalIsAnswered(t: Tables, call: Call, s: Surroundings, b: Binding)
    requires Inv(t) && call.Propose? && Admitted(call) && call.policy in t.policies && Recorded(t, call, b)
    ensures Perform(t, call, s) ==
              (t, Repeated(t, call, b, s.readable))
  {
    var source :| source in t.sources && source.id == b.source && source.document == call.document;
    SourceFoundById(t, source);
    UniqueProposal(t, b);
    assert HistoryOk(b, History(t.events, b.id));
  }

  /** What a call leaves: tables in order, nothing lost, and a success that can be asked for again. */
  ghost predicate Settled(t: Tables, call: Call, t': Tables, reply: Reply, later: Surroundings) {
    Inv(t') && Grows(t, t') &&
    (reply.Viewed? ==>
       Recorded(t', call, reply.view.binding) &&
       Perform(t', call, later) == (t', Repeated(t', call, reply.view.binding, later.readable)))
  }

  lemma PerformSettles(t: Tables, call: Call, s: Surroundings, later: Surroundings)
    requires Inv(t)
    ensures var (t', reply) := Perform(t, call, s); Settled(t, call, t', reply, later)
  {
    var (t', reply) := Perform(t, call, s);
    PerformKeepsInv(t, call, s);
    PerformGrows(t, call, s);
    if reply.Viewed? {
      if call.Propose? {
        SuccessfulProposalIsRecorded(t, call, s);
        RecordedProposalIsAnswered(t', call, later, reply.view.binding);
      } else {
        SuccessfulMoveIsRecorded(t, call, s);
        RecordedMoveIsAnswered(t', call, later, reply.view.binding);
      }
    }
  }

  /**
   * Once a call has succeeded, issuing it again at any later point of any run changes nothing. Approve and revoke
   * return the current history of the binding; propose does so as long as its source can still be read.
   */
  lemma ReissueIsIdempotent(t: Tables, call: Call, first: Surroundings, steps: seq<Step>, later: Surroundings)
    requires Reachable(t) && Perform(t, call, first).1.Viewed?
    ensures var (t1, reply) := Perform(t, call, first);
            var t2 := Execution(t1, steps);
            Perform(t2, call, later) == (t2, Repeated(t2, call, reply.view.binding, later.readable))
  {
    ReachableIsSound(t);
    PerformKeepsInv(t, call, first);
    var (t1, reply) := Perform(t, call, first);
    ExecutionKeepsInv(t1, steps);
    ExecutionGrows(t1, steps);
    var t2 := Execution(t1, steps);
    if call.Propose? {
      SuccessfulProposalIsRecorded(t, call, first);
      RecordedStays(t1, t2, call, reply.view.binding);
      RecordedProposalIsAnswered(t2, call, later, reply.view.binding);
    } else {
      SuccessfulMoveIsRecorded(t, call, first);
      RecordedStays(t1, t2, call, reply.view.binding);
      RecordedMoveIsAnswered(t2, call, later, reply.view.binding);
    }
  }

  /** A request id that any event carries changes nothing more, whatever call it comes with. */
  lemma UsedRequestChangesNothing(t: Tables, call: Call, s: Surroundings)
    requires Reachable(t) && !FreshRequest(t, call.request)
    ensures Perform(t, call, s).0 == t
  {
  }

  /** A call that changes the tables adds exactly one event, with its request id, actor and reason. */
  lemma OneEventPerChange(t: Tables, call: Call, s: Surroundings)
    requires Perform(t, call, s).0 != t
    ensures var (t', reply) := Perform(t, call, s);
            |t'.events| == |t.events| + 1 && t'.events[..|t.events|] == t.events &&
            var e := t'.events[|t.events|];
            e.request == call.request && e.actor == call.who.actor && e.reason == call.reason && FreshRequest(t, e.request) &&
            e.status == (if call.Propose? then PROPOSED else call.target) &&
            |t'.bindings| == |t.bindings| + (if call.Propose? then 1 else 0) && t'.sources == t.sources
  {
  }
}

/** Proposals that pass every check of the service and that the database refuses. */
module RefusedProposalExample {
  import opened Common
  import opened Bindings
  import opened BindingLifecycle

  lemma {:induction false} ExecutionAppend(t: Tables, steps: seq<Step>, s: Step)
    ensures Execution(t, steps + [s]) == Next(Execution(t, steps), s)
    decreases |steps|
  {
    if steps == [] {
      assert [] + [s] == [s] && [s][1..] == [];
    } else {
      assert (steps + [s])[1..] == steps[1..] + [s];
      ExecutionAppend(Next(t, steps[0]), steps[1..], s);
    }
  }

  lemma ReachableNext(t: Tables, s: Step)
    requires Reachable(t)
    ensures Reachable(Next(t, s))
  {
    var steps :| Execution(EMPTY, steps) == t;
    ExecutionAppend(EMPTY, steps, s);
    assert Execution(EMPTY, steps + [s]) == Next(t, s);
  }

  function Prepared(hash: string, bindings: seq<Binding>, events: seq<Event>): Tables {
    Tables({0}, map[0 := hash], {0, 1}, [Source(0, 0, hash)], bindings, events)
  }

  /** One user, one document with its source, and two policy versions. */
  lemma Prepare(hash: string) returns (t: Tables)
    ensures Reachable(t) && t == Prepared(hash, [], [])
  {
    t := EMPTY;
    assert Execution(EMPTY, []) == t;
    ReachableNext(t, AddUser(0));
    t := Next(t, AddUser(0));
    ReachableNext(t, SetDocument(0, hash));
    t := Next(t, SetDocument(0, hash));
    ReachableNext(t, AddPolicy(0));
    t := Next(t, AddPolicy(0));
    ReachableNext(t, AddPolicy(1));
    t := Next(t, AddPolicy(1));
    ReachableNext(t, ImportSource(Source(0, 0, hash)));
    t := Next(t, ImportSource(Source(0, 0, hash)));
  }

  const STAFF: Principal := Principal(true, 0)
  const REASON := "x"

  function Proposal(request: Id, policy: Id): Call {
    Propose(STAFF, request, REASON, 0, policy)
  }

  function Proposed(hash: string): Binding {
    Binding(0, 0, 0, 1, None, hash, REASON, 0, 0)
  }

  lemma ReasonIsFine()
    ensures ValidReason(REASON) && ReasonColumn(REASON)
  {
    assert !IsSpace(REASON[0]) && REASON[0] != ' ';
  }

  lemma ProposeFirst(hash: string, t: Tables) returns (t': Tables)
    requires Reachable(t) && t == Prepared(hash, [], [])
    ensures Reachable(t') && t' == Prepared(hash, [Proposed(hash)], [FirstEvent(Proposed(hash))])
  {
    var s := Surroundings(true, 0);
    ReasonIsFine();
    ReachableNext(t, Issue(Proposal(0, 0), s));
    t' := Next(t, Issue(Proposal(0, 0), s));
    FreshProposalSucceedsIff(t, Proposal(0, 0), s);
  }

  /** Approved under request 1. */
  lemma ApproveFirst(hash: string, t: Tables) returns (t': Tables)
    requires Reachable(t) && t == Prepared(hash, [Proposed(hash)], [FirstEvent(Proposed(hash))])
    ensures Reachable(t')
    ensures t' == Prepared(hash, [Proposed(hash)], [FirstEvent(Proposed(hash)), Event(0, 2, APPROVED, hash, REASON, 0, 1)])
  {
    var b, s := Proposed(hash), Surroundings(true, 0);
    var call := Move(STAFF, 1, REASON, 0, APPROVED);
    ReasonIsFine();
    assert t.events[..0] == [] && History(t.events, 0) == [FirstEvent(b)];
    FreshMoveAdmitted(t, call, s);
    ReachableNext(t, Issue(call, s));
    t' := Next(t, Issue(call, s));
    assert t'.events == [FirstEvent(b)] + [EventFor(b, [FirstEvent(b)], call)];
  }

  /**
   * The refusal does happen: a proposal for another policy version passes every check of the service and could be
   * stored, were its request id not that of the approval.
   */
  lemma ReusedApprovalRequest(hash: string) returns (t: Tables, call: Call, s: Surroundings)
    ensures Reachable(t) && call.Propose? && FreshId(t, s.newId)
    ensures PassesProposal(t, call, s) && Storable(t, call)
    ensures exists e | e in t.events :: e.request == call.request && e.status == APPROVED
    ensures Perform(t, call, s) == (t, Refused(DatabaseRefusal))
  {
    t := Prepare(hash);
    t := ProposeFirst(hash, t);
    t := ApproveFirst(hash, t);
    call, s := Proposal(1, 1), Surroundings(true, 1);
    ReasonIsFine();
    assert t.bindings[..0] == [];
    assert LatestRevision(t.bindings, 0, 1) == None;
    assert t.events[1].request == 1;
    ProposalRefusedByDatabaseIff(t, call, s);
    UsedRequestChangesNothing(t, call, s);
  }

  lemma PassesPrepared(hash: string, t: Tables, call: Call)
    requires t == Prepared(hash, [], []) && call.Propose? && call.document == 0 && call.policy == 0 && Admitted(call)
    ensures FreshRequest(t, call.request) && PassesProposal(t, call, Surroundings(true, 0))
  {
    assert SourceOf(t.sources, 0) == Some(Source(0, 0, hash));
    assert LatestRevision(t.bindings, 0, 0) == None;
  }

  /** str.strip keeps a zero character and the length is fine, so only the column refuses this reason. */
  lemma ZeroCharacterReason(hash: string) returns (t: Tables, call: Call, s: Surroundings)
    ensures Reachable(t) && call.Propose? && FreshRequest(t, call.request) && FreshId(t, s.newId)
    ensures PassesProposal(t, call, s) && call.who.actor in t.users && call.reason == REASON + ['\0']
    ensures Perform(t, call, s) == (t, Refused(DatabaseRefusal))
  {
    t := Prepare(hash);
    call, s := Propose(STAFF, 0, REASON + ['\0'], 0, 0), Surroundings(true, 0);
    assert !IsSpace(call.reason[0]) && call.reason[1] == '\0';
    PassesPrepared(hash, t, call);
    FreshProposalSucceedsIff(t, call, s);
  }

  /** The token names a member of staff without a user row: the service does not look, the foreign key does. */
  lemma CallerWithoutUserRow(hash: string) returns (t: Tables, call: Call, s: Surroundings)
    ensures Reachable(t) && call.Propose? && FreshRequest(t, call.request) && FreshId(t, s.newId)
    ensures PassesProposal(t, call, s) && NoNul(call.reason) && call.who.actor !in t.users
    ensures Perform(t, call, s) == (t, Refused(DatabaseRefusal))
  {
    t := Prepare(hash);
    call, s := Propose(Principal(true, 1), 0, REASON, 0, 0), Surroundings(true, 0);
    ReasonIsFine();
    PassesPrepared(hash, t, call);
    FreshProposalSucceedsIff(t, call, s);
  }
}
