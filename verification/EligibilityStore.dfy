/** The services as they change the tables: each command in the order of its statements, with rollback. */
module EligibilityStore {
  import opened Common
  import opened Json
  import opened Evaluator
  import opened EvaluationKey
  import opened PolicyRecords
  import opened PolicyLifecycle
  import opened DecisionCache
  import DecisionReplay
  import opened CommandRules

  lemma CommandKeeps(db: Db, c: PolicyRecords.Command)
    ensures (Inv(db) ==> Inv(Apply(db, c).0)) && Grows(db, Apply(db, c).0)
  {
    ApplyGrows(db, c);
    if Inv(db) {
      ApplyKeepsInv(db, c);
    }
  }

  /** Commands are accepted as the rows allow. */
  lemma CommandAccepted(db: Db, c: PolicyRecords.Command)
    ensures Inv(db) ==> (Apply(db, c).1 == Ok <==> Acceptable(db, c))
  {
    if Inv(db) {
      AcceptedIffAcceptable(db, c);
    }
  }

  lemma CreateKeeps(db: Db, tenant: Tenant, id: Uuid, year: int, scope: string)
    ensures var (db', reply) := CreatePolicyVersion(db, tenant, id, year, scope);
            (Inv(db) ==> Inv(db')) && Grows(db, db') && (reply != Ok ==> db' == db)
  {
    CreateGrows(db, tenant, id, year, scope);
    if Inv(db) {
      CreateKeepsInv(db, tenant, id, year, scope);
    }
  }

  lemma ActivateKeeps(db: Db, tenant: Tenant, role: Role, id: Uuid, startsAt: int, endsAt: Option<int>)
    ensures var (db', reply) := ActivatePolicy(db, tenant, role, id, startsAt, endsAt);
            (Inv(db) ==> Inv(db')) && Grows(db, db') && (reply != Ok ==> db' == db)
  {
    ActivateGrows(db, tenant, role, id, startsAt, endsAt);
    if Inv(db) {
      ActivateKeepsInv(db, tenant, role, id, startsAt, endsAt);
    }
  }

  lemma ArchiveKeeps(db: Db, tenant: Tenant, id: Uuid, now: int)
    ensures var (db', reply) := ArchivePolicy(db, tenant, id, now);
            (Inv(db) ==> Inv(db')) && Grows(db, db') && (reply != Ok ==> db' == db)
  {
    ArchiveGrows(db, tenant, id, now);
    if Inv(db) {
      ArchiveKeepsInv(db, tenant, id, now);
    }
  }

  /** The version has a status, and its log ends with the event that brought it there. */
  predicate LifecycleEnds(db: Db, id: Uuid, status: Status) {
    id in db.versions && db.versions[id].status == status &&
    var log := EventsOf(db.events, id);
    log != [] && log[|log| - 1].status == status
  }

  lemma EventRecorded(db: Db, id: Uuid, status: Status)
    ensures var log := EventsOf(WithEvent(db, id, status).events, id);
            log != [] && log[|log| - 1].status == status
  {
  }

  lemma CreateMeans(db: Db, tenant: Tenant, id: Uuid, year: int, scope: string)
    ensures var (db', reply) := CreatePolicyVersion(db, tenant, id, year, scope);
            reply == Ok ==>
              LifecycleEnds(db', id, Draft) && id !in db.versions &&
              db'.versions == db.versions[id := PolicyVersion(tenant, year, scope, Draft)]
  {
    EventRecorded(db.(versions := db.versions[id := PolicyVersion(tenant, year, scope, Draft)]), id, Draft);
  }

  lemma ActivateMeans(db: Db, tenant: Tenant, role: Role, id: Uuid, startsAt: int, endsAt: Option<int>)
    ensures var (db', reply) := ActivatePolicy(db, tenant, role, id, startsAt, endsAt);
            reply == Ok ==>
              LifecycleEnds(db', id, Active) && HasActivation(db'.activations, id) && Owns(tenant, db.versions, id) &&
              db'.activations == db.activations +
                [Activation(tenant, id, db.versions[id].year, db.versions[id].scope, startsAt, endsAt)]
  {
    var (db', reply) := ActivatePolicy(db, tenant, role, id, startsAt, endsAt);
    if reply == Ok {
      EventRecorded(db.(versions := db.versions[id := db.versions[id].(status := Active)]), id, Active);
      assert db'.activations[|db.activations|].policyVersion == id;
    }
  }

  predicate AllClosed(activations: seq<Activation>, id: Uuid) {
    forall a | a in activations && a.policyVersion == id :: a.endsAt.Some?
  }

  lemma AllCloses(activations: seq<Activation>, id: Uuid, now: int)
    ensures AllClosed(CloseActivations(activations, id, now), id)
  {
  }

  /** The open activation of the version ends now, and no other row is different. */
  predicate ClosedAt(before: seq<Activation>, after: seq<Activation>, id: Uuid, now: int) {
    |after| == |before| &&
    forall i | 0 <= i < |after| ::
      if before[i].policyVersion == id && before[i].endsAt == None
      then after[i] == before[i].(endsAt := Some(now)) && before[i].startsAt < now
      else after[i] == before[i]
  }

  /** Closing is refused unless the open activation began before now. */
  lemma ClosesOpen(activations: seq<Activation>, id: Uuid, now: int)
    requires |OpenActivations(activations, id)| <= 1
    requires |OpenActivations(activations, id)| == 1 ==> OpenActivations(activations, id)[0].startsAt < now
    ensures ClosedAt(activations, CloseActivations(activations, id, now), id, now)
  {
    OpenElements(activations, id);
    forall i | 0 <= i < |activations| && activations[i].policyVersion == id && activations[i].endsAt == None
      ensures activations[i].startsAt < now
    {
      assert activations[i] in OpenActivations(activations, id);
    }
  }

  lemma {:induction false} OpenElements(activations: seq<Activation>, id: Uuid)
    ensures forall a | a in activations && a.policyVersion == id && a.endsAt == None :: a in OpenActivations(activations, id)
  {
    if activations != [] {
      OpenElements(activations[..|activations| - 1], id);
    }
  }

  lemma ArchiveMeans(db: Db, tenant: Tenant, id: Uuid, now: int)
    ensures var (db', reply) := ArchivePolicy(db, tenant, id, now);
            reply == Ok ==>
              LifecycleEnds(db', id, Archived) && AllClosed(db'.activations, id) &&
              ClosedAt(db.activations, db'.activations, id, now)
  {
    var (db', reply) := ArchivePolicy(db, tenant, id, now);
    if reply == Ok {
      EventRecorded(db.(versions := db.versions[id := db.versions[id].(status := Archived)]), id, Archived);
      AllCloses(db.activations, id, now);
      ClosesOpen(db.activations, id, now);
    }
  }

  /** The answer has the key of what was asked, and a new row is the evaluation of the rows that were read. */
  predicate Answered(db: Db, db': Db, request: Request, facts: Facts, i: Inputs, d: Decision) {
    var key := KeyInput(facts, i.policy, request.requirement);
    d in db'.decisions && d.key == key &&
    (db' != db ==>
       db' == db.(decisions := db.decisions + [d]) &&
       d == Decision(request.tenant, request.student, request.opportunity, i.policy, request.requirement, key, facts,
                     d.verdict, d.reasons) &&
       Evaluate(Snapshot(facts), PolicyRows(db, i.policy), RequirementRows(db, request.requirement)) ==
         Returned(Decided(d.verdict, d.reasons)))
  }

  /** The row found, or the one inserted. */
  predicate Finished(db: Db, db': Db, i: Inputs, e: Evaluation) {
    if e.Done? then
      e.inputs == i && e.decision in db'.decisions && e.decision.key == KeyOf(i) && (db' != db ==> Inserted(db, db', i, e.decision))
    else e.Failed? && db' == db
  }

  predicate Inserted(db: Db, db': Db, i: Inputs, d: Decision) {
    db' == db.(decisions := db.decisions + [d]) && d == NewDecision(i, Decided(d.verdict, d.reasons)) &&
    Evaluate(Snapshot(i.facts), i.rules, i.criteria) == Returned(Decided(d.verdict, d.reasons))
  }

  lemma LookMeans(db: Db, i: Inputs)
    ensures var e := Look(db, i);
            if e.Missed? then
              e.inputs == i && e.decision == NewDecision(i, Decided(e.decision.verdict, e.decision.reasons)) &&
              Evaluate(Snapshot(i.facts), i.rules, i.criteria) == Returned(Decided(e.decision.verdict, e.decision.reasons))
            else Finished(db, db, i, e)
  {
    DecisionReplay.WithKeyMeaning(db.decisions, i.request.tenant, KeyOf(i));
    var found := WithKey(db.decisions, i.request.tenant, KeyOf(i));
    assert found != [] ==> found[0] in found;
  }

  lemma RecoverMeans(db: Db, i: Inputs)
    ensures Finished(db, db, i, Recover(db, i))
  {
    DecisionReplay.WithStudentKeyMeaning(db.decisions, KeyOf(i), i.request.student, i.request.opportunity);
    var found := WithStudentKey(db.decisions, KeyOf(i), i.request.student, i.request.opportunity);
    assert found != [] ==> found[0] in found;
  }

  lemma FinishMeans(db: Db, i: Inputs)
    ensures var (db', e) := Finish(db, Loaded(i)); Finished(db, db', i, e)
  {
    LookMeans(db, i);
    RecoverMeans(db, i);
  }

  lemma ReadMeans(db: Db, request: Request, time: int, facts: Facts)
    requires facts.student == request.student && facts.opportunity == request.opportunity
    ensures var e := ReadAlone(db, request, time, facts);
            (e == Failed(OpportunityNotFound) <==>
               request.opportunity !in db.opportunities || db.opportunities[request.opportunity].tenant != request.tenant) &&
            (if e.Loaded? then
               request.student in db.students && db.students[request.student] == request.tenant &&
               Choose(db, request, time) == Chosen(request, e.inputs.policy) &&
               e.inputs == Inputs(request, e.inputs.policy, facts, PolicyRows(db, e.inputs.policy),
                                  RequirementRows(db, request.requirement), IsPublished(db, request.requirement))
             else e.Failed?)
  {
  }

  lemma FinishedIsAnswered(db: Db, db': Db, request: Request, facts: Facts, i: Inputs, e: Evaluation)
    requires Finished(db, db', i, e) && e.Done?
    requires i == Inputs(request, i.policy, facts, PolicyRows(db, i.policy), RequirementRows(db, request.requirement), i.published)
    ensures Answered(db, db', request, facts, i, e.decision)
  {
  }

  lemma EvaluateMeans(db: Db, request: Request, time: int, facts: Facts)
    requires facts.student == request.student && facts.opportunity == request.opportunity
    ensures var (db', e) := EvaluateAlone(db, request, time, facts);
            (e == Failed(OpportunityNotFound) <==>
               request.opportunity !in db.opportunities || db.opportunities[request.opportunity].tenant != request.tenant) &&
            (e.Done? ==>
               request.student in db.students && db.students[request.student] == request.tenant &&
               Choose(db, request, time) == Chosen(request, e.inputs.policy) &&
               Answered(db, db', request, facts, e.inputs, e.decision)) &&
            (!e.Done? ==> e.Failed? && db' == db)
  {
    ReadMeans(db, request, time, facts);
    var r := ReadAlone(db, request, time, facts);
    if r.Loaded? {
      FinishMeans(db, r.inputs);
      var (db', e) := Finish(db, r);
      if e.Done? {
        FinishedIsAnswered(db, db', request, facts, r.inputs, e);
      }
    }
  }

  class Store {
    var students: map<Uuid, Tenant>
    var opportunities: map<Uuid, Opportunity>
    var versions: map<Uuid, PolicyVersion>
    var events: seq<PolicyEvent>
    var rules: seq<PolicyRule>
    var activations: seq<Activation>
    var requirements: map<Uuid, RequirementVersion>
    var criteria: seq<Criterion>
    var decisions: seq<Decision>

    function Tables(): Db
      reads this
    {
      Db(students, opportunities, versions, events, rules, activations, requirements, criteria, decisions)
    }

    constructor (students: map<Uuid, Tenant>, opportunities: map<Uuid, Opportunity>)
      ensures Tables() == Empty(students, opportunities)
    {
      this.students, this.opportunities := students, opportunities;
      versions, events, rules, activations := map[], [], [], [];
      requirements, criteria, decisions := map[], [], [];
    }

    method Rollback(saved: Db)
      modifies this
      ensures Tables() == saved
    {
      students, opportunities := saved.students, saved.opportunities;
      versions, events, rules, activations := saved.versions, saved.events, saved.rules, saved.activations;
      requirements, criteria, decisions := saved.requirements, saved.criteria, saved.decisions;
    }

    method RecordEvent(id: Uuid, status: Status)
      modifies this`events
      ensures Tables() == WithEvent(old(Tables()), id, status)
    {
      var latest := LatestEvent(events, id);
      events := events + [PolicyEvent(id, latest + 1, status)];
    }

    method CreateVersion(tenant: Tenant, id: Uuid, year: int, scope: string) returns (reply: Reply)
      modifies this
      ensures (Tables(), reply) == CreatePolicyVersion(old(Tables()), tenant, id, year, scope)
      ensures reply != Ok ==> Tables() == old(Tables())
      ensures (Inv(old(Tables())) ==> Inv(Tables())) && Grows(old(Tables()), Tables())
      ensures reply == Ok ==>
                LifecycleEnds(Tables(), id, Draft) && id !in old(versions) &&
                versions == old(versions)[id := PolicyVersion(tenant, year, scope, Draft)]
    {
      CreateKeeps(Tables(), tenant, id, year, scope);
      CreateMeans(Tables(), tenant, id, year, scope);
      if id in versions {
        return ConstraintViolation;
      }
      versions := versions[id := PolicyVersion(tenant, year, scope, Draft)];
      RecordEvent(id, Draft);
      reply := Ok;
    }

    method AddRule(tenant: Tenant, id: Uuid, code: string, definition: Dict) returns (reply: Reply)
      modifies this
      ensures (Tables(), reply) == AddPolicyRule(old(Tables()), tenant, id, code, definition)
      ensures reply != Ok ==> Tables() == old(Tables())
      ensures (Inv(old(Tables())) ==> Inv(Tables())) && Grows(old(Tables()), Tables())
      ensures id in old(versions) && Rank(old(versions)[id].status) >= Rank(Review) ==> reply != Ok
      ensures reply == Ok ==> RulesOf(rules, id) == old(RulesOf(rules, id)) + [PolicyRule(id, code, definition)]
      ensures Inv(old(Tables())) ==> (reply == Ok <==> MayAddRule(old(Tables()), tenant, id, code))
    {
      CommandAccepted(Tables(), PolicyRecords.Command.AddRule(tenant, id, code, definition));
      CommandKeeps(Tables(), PolicyRecords.Command.AddRule(tenant, id, code, definition));
      RulesOfAppend(rules, PolicyRule(id, code, definition), id);
      if !Owns(tenant, versions, id) {
        return NotFound;
      }
      if versions[id].status in {Approved, Active, Archived} || versions[id].status == Review {
        return InvalidOperation;
      }
      if !RuleAllowed(rules, PolicyRule(id, code, definition)) {
        return ConstraintViolation;
      }
      rules := rules + [PolicyRule(id, code, definition)];
      reply := Ok;
    }

    method Transition(tenant: Tenant, role: Role, id: Uuid, target: Status) returns (reply: Reply)
      modifies this`versions, this`events
      ensures (Tables(), reply) == TransitionStatus(old(Tables()), tenant, role, id, target)
      ensures reply == Ok <==> MayMove(old(Tables()), tenant, role, id, target)
    {
      TransitionIff(Tables(), tenant, role, id, target);
      if !Owns(tenant, versions, id) {
        return NotFound;
      }
      if Successor(versions[id].status) != Some(target) {
        return InvalidOperation;
      }
      if target in {Approved, Active} && role != Staff {
        return Forbidden;
      }
      versions := versions[id := versions[id].(status := target)];
      RecordEvent(id, target);
      reply := Ok;
    }

    method Activate(tenant: Tenant, role: Role, id: Uuid, startsAt: int, endsAt: Option<int>) returns (reply: Reply)
      modifies this
      ensures (Tables(), reply) == ActivatePolicy(old(Tables()), tenant, role, id, startsAt, endsAt)
      ensures reply != Ok ==> Tables() == old(Tables())
      ensures (Inv(old(Tables())) ==> Inv(Tables())) && Grows(old(Tables()), Tables())
      ensures reply == Ok ==>
                LifecycleEnds(Tables(), id, Active) && Owns(tenant, old(versions), id) &&
                activations == old(activations) +
                  [Activation(tenant, id, old(versions)[id].year, old(versions)[id].scope, startsAt, endsAt)]
    {
      ActivateKeeps(Tables(), tenant, role, id, startsAt, endsAt);
      ActivateMeans(Tables(), tenant, role, id, startsAt, endsAt);
      var saved := Tables();
      reply := Transition(tenant, role, id, Active);
      if reply != Ok {
        return;
      }
      var activation := Activation(tenant, id, versions[id].year, versions[id].scope, startsAt, endsAt);
      if !ActivationAllowed(activations, activation) {
        Rollback(saved);
        return ConstraintViolation;
      }
      activations := activations + [activation];
    }

    /** The part of archiving that ends the open activation; the caller rolls back when it is refused. */
    method CloseOpenActivation(id: Uuid, now: int) returns (reply: Reply)
      modifies this`activations
      ensures var open := old(OpenActivations(activations, id));
              reply == if |open| > 1 then Ambiguity
                       else if |open| == 1 && now <= open[0].startsAt then ConstraintViolation
                       else Ok
      ensures activations == if reply == Ok then CloseActivations(old(activations), id, now) else old(activations)
    {
      var open := OpenActivations(activations, id);
      if |open| > 1 {
        return Ambiguity;
      }
      if |open| == 1 && now <= open[0].startsAt {
        return ConstraintViolation;
      }
      activations := CloseActivations(activations, id, now);
      reply := Ok;
    }

    method Archive(tenant: Tenant, id: Uuid, now: int) returns (reply: Reply)
      modifies this
      ensures (Tables(), reply) == ArchivePolicy(old(Tables()), tenant, id, now)
      ensures reply != Ok ==> Tables() == old(Tables())
      ensures (Inv(old(Tables())) ==> Inv(Tables())) && Grows(old(Tables()), Tables())
      ensures reply == Ok ==>
                LifecycleEnds(Tables(), id, Archived) && AllClosed(activations, id) &&
                ClosedAt(old(activations), activations, id, now)
    {
      ArchiveKeeps(Tables(), tenant, id, now);
      ArchiveMeans(Tables(), tenant, id, now);
      var saved := Tables();
      reply := Transition(tenant, Other, id, Archived);
      if reply != Ok {
        return;
      }
      reply := CloseOpenActivation(id, now);
      if reply != Ok {
        Rollback(saved);
      }
    }

    method InitializeRequirement(tenant: Tenant, id: Uuid) returns (reply: Reply)
      modifies this
      ensures (Tables(), reply) == PolicyRecords.InitializeRequirement(old(Tables()), tenant, id)
      ensures reply != Ok ==> Tables() == old(Tables())
      ensures (Inv(old(Tables())) ==> Inv(Tables())) && Grows(old(Tables()), Tables())
    {
      CommandKeeps(Tables(), PolicyRecords.Command.CreateRequirement(tenant, id));
      if id in requirements {
        return ConstraintViolation;
      }
      requirements := requirements[id := RequirementVersion(tenant, None)];
      reply := Ok;
    }

    method AddCriterion(tenant: Tenant, criterion: Criterion) returns (reply: Reply)
      modifies this
      ensures (Tables(), reply) == AddRequirementCriterion(old(Tables()), tenant, criterion)
      ensures reply != Ok ==> Tables() == old(Tables())
      ensures (Inv(old(Tables())) ==> Inv(Tables())) && Grows(old(Tables()), Tables())
      ensures old(IsPublished(Tables(), criterion.requirementVersion)) ==> reply != Ok
      ensures var id := criterion.requirementVersion;
              reply == Ok ==> CriteriaOf(criteria, id) == old(CriteriaOf(criteria, criterion.requirementVersion)) + [criterion]
      ensures Inv(old(Tables())) ==> (reply == Ok <==> MayAddCriterion(old(Tables()), tenant, criterion))
    {
      CommandAccepted(Tables(), PolicyRecords.Command.AddCriterion(tenant, criterion));
      CommandKeeps(Tables(), PolicyRecords.Command.AddCriterion(tenant, criterion));
      CriteriaOfAppend(criteria, criterion, criterion.requirementVersion);
      var id := criterion.requirementVersion;
      if id !in requirements || requirements[id].tenant != tenant {
        return NotFound;
      }
      if requirements[id].publishedAt.Some? {
        return InvalidOperation;
      }
      if !CriterionAllowed(criteria, criterion) {
        return ConstraintViolation;
      }
      criteria := criteria + [criterion];
      reply := Ok;
    }

    method Publish(tenant: Tenant, id: Uuid, now: int) returns (reply: Reply)
      modifies this
      ensures (Tables(), reply) == PublishRequirement(old(Tables()), tenant, id, now)
      ensures reply != Ok ==> Tables() == old(Tables())
      ensures (Inv(old(Tables())) ==> Inv(Tables())) && Grows(old(Tables()), Tables())
      ensures reply == Ok ==>
                id in old(requirements) && old(requirements)[id].tenant == tenant &&
                (old(requirements)[id].publishedAt == None ==>
                   requirements == old(requirements)[id := RequirementVersion(tenant, Some(now))]) &&
                IsPublished(Tables(), id) && forall later :: PublishRequirement(Tables(), tenant, id, later) == (Tables(), Ok)
    {
      CommandKeeps(Tables(), PolicyRecords.Command.Publish(tenant, id, now));
      if id !in requirements || requirements[id].tenant != tenant {
        return NotFound;
      }
      if requirements[id].publishedAt.None? {
        requirements := requirements[id := RequirementVersion(tenant, Some(now))];
      }
      reply := Ok;
    }

    /** evaluate up to its rows. */
    method ReadRows(request: Request, time: int, facts: Facts) returns (e: Evaluation)
      requires facts.student == request.student && facts.opportunity == request.opportunity
      ensures e == ReadAlone(Tables(), request, time, facts)
    {
      e := Choose(Tables(), request, time);
      if !e.Chosen? {
        return;
      }
      var policy := e.policy;
      if request.student !in students || students[request.student] != request.tenant {
        return Failed(StudentNotFound);
      }
      var policyRows := PolicyRows(Tables(), policy);
      var requirementRows := RequirementRows(Tables(), request.requirement);
      e := Loaded(Inputs(request, policy, facts, policyRows, requirementRows, IsPublished(Tables(), request.requirement)));
    }

    /** The rest of an evaluation once its rows are loaded. */
    method DecideOn(i: Inputs) returns (e: Evaluation)
      modifies this`decisions
      ensures (Tables(), e) == Finish(old(Tables()), Loaded(i))
    {
      var existing := WithKey(decisions, i.request.tenant, KeyOf(i));
      if |existing| > 1 {
        return Failed(DecisionAmbiguous);
      }
      if |existing| == 1 {
        return Done(i, existing[0]);
      }
      var result := EvaluateSnapshot(Snapshot(i.facts), i.rules, i.criteria);
      if result.Raised? {
        return Failed(EngineError);
      }
      var decision := NewDecision(i, result.value);
      if i.request.requirement in requirements && requirements[i.request.requirement].tenant == i.request.tenant {
        decisions := decisions + [decision];
        return Done(i, decision);
      }
      e := Recover(Tables(), i);
    }

    /** evaluate, with no other transaction in between. */
    method EvaluateEligibility(request: Request, time: int, facts: Facts) returns (e: Evaluation)
      requires facts.student == request.student && facts.opportunity == request.opportunity
      modifies this`decisions
      ensures (Tables(), e) == EvaluateAlone(old(Tables()), request, time, facts)
      ensures e == Failed(OpportunityNotFound) <==>
                request.opportunity !in opportunities || opportunities[request.opportunity].tenant != request.tenant
      ensures e.Done? ==>
                request.student in students && students[request.student] == request.tenant &&
                Choose(old(Tables()), request, time) == Chosen(request, e.inputs.policy) &&
                Answered(old(Tables()), Tables(), request, facts, e.inputs, e.decision)
      ensures !e.Done? ==> e.Failed? && Tables() == old(Tables())
    {
      EvaluateMeans(Tables(), request, time, facts);
      e := ReadRows(request, time, facts);
      if e.Loaded? {
        e := DecideOn(e.inputs);
      }
    }
  }

  /** An evaluation up to its rows. */
  function ReadAlone(db: Db, request: Request, time: int, facts: Facts): (e: Evaluation)
    requires facts.student == request.student && facts.opportunity == request.opportunity
    ensures !e.Missed? && !e.Collided?
  {
    var e := Choose(db, request, time);
    if !e.Chosen? then e
    else Load(db, e, facts, PolicyRows(db, e.policy), RequirementRows(db, request.requirement))
  }

  function EvaluateAlone(db: Db, request: Request, time: int, facts: Facts): (Db, Evaluation)
    requires facts.student == request.student && facts.opportunity == request.opportunity
  {
    Finish(db, ReadAlone(db, request, time, facts))
  }

  function ReadSteps(db: Db, w: nat, request: Request, time: int, facts: Facts): seq<Step> {
    var e := Choose(db, request, time);
    var policy := if e.Chosen? then e.policy else request.requirement;
    [Begins(w, request, time), Reads(w, facts, PolicyRows(db, policy), RequirementRows(db, request.requirement))]
  }

  function FinishSteps(w: nat): seq<Step> {
    [Looks(w), Writes(w), Recovers(w)]
  }

  /** An evaluation that runs alone is one of the interleavings, so what holds for all of them holds for it. */
  lemma AloneIsAnExecution(m: Machine, w: nat, request: Request, time: int, facts: Facts)
    requires facts.student == request.student && facts.opportunity == request.opportunity && w !in m.evaluations
    ensures var m' := Execution(m, ReadSteps(m.db, w, request, time, facts) + FinishSteps(w));
            w in m'.evaluations && (m'.db, m'.evaluations[w]) == EvaluateAlone(m.db, request, time, facts)
  {
    ChooseAndRead(m, w, request, time, facts);
    LookWriteRecover(Execution(m, ReadSteps(m.db, w, request, time, facts)), w);
    SplitSteps(m, ReadSteps(m.db, w, request, time, facts), FinishSteps(w));
  }

  lemma ChooseAndRead(m: Machine, w: nat, request: Request, time: int, facts: Facts)
    requires facts.student == request.student && facts.opportunity == request.opportunity && w !in m.evaluations
    ensures var m' := Execution(m, ReadSteps(m.db, w, request, time, facts));
            m'.db == m.db && w in m'.evaluations && m'.evaluations[w] == ReadAlone(m.db, request, time, facts)
  {
    var s := ReadSteps(m.db, w, request, time, facts);
    assert Next(m, s[0]) == Become(m, w, Choose(m.db, request, time));
    TwoSteps(m, s[0], s[1]);
  }

  /** The rest of an evaluation once its rows are loaded. */
  function Finish(db: Db, e: Evaluation): (Db, Evaluation) {
    if !e.Loaded? then (db, e)
    else
      var k := Look(db, e.inputs);
      if !k.Missed? then (db, k)
      else
        var (db', w) := Write(db, k.inputs, k.decision);
        (db', if w.Collided? then Recover(db', w.inputs) else w)
  }

  lemma LooksAt(m: Machine, w: nat)
    requires w in m.evaluations
    ensures var m' := Next(m, Looks(w));
            w in m'.evaluations && m'.db == m.db &&
            m'.evaluations[w] == if m.evaluations[w].Loaded? then Look(m.db, m.evaluations[w].inputs) else m.evaluations[w]
  {
  }

  lemma WritesAt(m: Machine, w: nat)
    requires w in m.evaluations
    ensures var m' := Next(m, Writes(w));
            w in m'.evaluations &&
            (m'.db, m'.evaluations[w]) ==
              match m.evaluations[w]
              case Missed(i, d) => Write(m.db, i, d)
              case e => (m.db, e)
  {
  }

  lemma RecoversAt(m: Machine, w: nat)
    requires w in m.evaluations
    ensures var m' := Next(m, Recovers(w));
            w in m'.evaluations && m'.db == m.db &&
            m'.evaluations[w] == if m.evaluations[w].Collided? then Recover(m.db, m.evaluations[w].inputs) else m.evaluations[w]
  {
  }

  lemma LookWriteRecover(m: Machine, w: nat)
    requires w in m.evaluations && !m.evaluations[w].Missed? && !m.evaluations[w].Collided?
    ensures var m' := Execution(m, FinishSteps(w));
            w in m'.evaluations && (m'.db, m'.evaluations[w]) == Finish(m.db, m.evaluations[w])
  {
    LooksAt(m, w);
    var m1 := Next(m, Looks(w));
    WritesAt(m1, w);
    RecoversAt(Next(m1, Writes(w)), w);
    TwoSteps(m1, Writes(w), Recovers(w));
    assert FinishSteps(w)[1..] == [Writes(w), Recovers(w)];
  }

  lemma TwoSteps(m: Machine, s: Step, t: Step)
    ensures Execution(m, [s, t]) == Next(Next(m, s), t)
  {
    assert [s, t][1..] == [t] && [t][1..] == [];
    assert Execution(Next(m, s), [t]) == Execution(Next(Next(m, s), t), []);
  }

  lemma {:induction false} SplitSteps(m: Machine, s: seq<Step>, t: seq<Step>)
    ensures Execution(m, s + t) == Execution(Execution(m, s), t)
    decreases |s|
  {
    if s == [] {
      assert [] + t == t;
    } else {
      assert (s + t)[1..] == s[1..] + t;
      SplitSteps(Next(m, s[0]), s[1..], t);
    }
  }
}
