/** When each command is accepted, said on the rows, and what follows for the definitions of every run. */
module CommandRules {
  import opened Common
  import opened Json
  import opened EvaluationKey
  import opened PolicyRecords
  import opened PolicyLifecycle

  /** To the next status; approving and activating are for staff. */
  predicate MayMove(db: Db, tenant: Tenant, role: Role, id: Uuid, target: Status) {
    id in db.versions && db.versions[id].tenant == tenant && Rank(target) == Rank(db.versions[id].status) + 1 &&
    (target == Approved || target == Active ==> role == Staff)
  }

  /** Some moment lies in the activation and in the requested interval. */
  ghost predicate ShareMoment(a: Activation, startsAt: int, endsAt: Option<int>) {
    exists time :: Covers(a, time) && startsAt <= time && (endsAt == None || time < endsAt.value)
  }

  predicate WellShaped(c: Criterion) {
    if c.applicability == "REQUIRED" || c.applicability == "OPTIONAL" then
      c.operator.Some? && c.operator.value in {">", ">=", "<", "<=", "=", "!=", "IN", "NOT_IN", "BETWEEN"} && c.operand.Obj?
    else (c.applicability == "NOT_APPLICABLE" || c.applicability == "UNKNOWN") && c.operator == None && c.operand == Null
  }

  ghost predicate MayActivate(db: Db, tenant: Tenant, role: Role, id: Uuid, startsAt: int, endsAt: Option<int>) {
    MayMove(db, tenant, role, id, Active) && (endsAt.Some? ==> startsAt < endsAt.value) &&
    forall a | a in db.activations && a.tenant == tenant && a.year == db.versions[id].year && a.scope == db.versions[id].scope ::
      !ShareMoment(a, startsAt, endsAt)
  }

  predicate MayArchive(db: Db, tenant: Tenant, id: Uuid, now: int) {
    MayMove(db, tenant, Other, id, Archived) &&
    forall a | a in db.activations && a.policyVersion == id && a.endsAt == None :: a.startsAt < now
  }

  predicate MayAddRule(db: Db, tenant: Tenant, id: Uuid, code: string) {
    id in db.versions && db.versions[id].tenant == tenant &&
    (db.versions[id].status == Draft || db.versions[id].status == Processing) &&
    forall r | r in db.rules && r.policyVersion == id :: r.code != code
  }

  predicate MayAddCriterion(db: Db, tenant: Tenant, c: Criterion) {
    c.requirementVersion in db.requirements && db.requirements[c.requirementVersion].tenant == tenant &&
    db.requirements[c.requirementVersion].publishedAt == None && WellShaped(c) &&
    forall d | d in db.criteria && d.requirementVersion == c.requirementVersion :: d.code != c.code
  }

  ghost predicate Acceptable(db: Db, c: Command) {
    match c
    case CreateVersion(_, id, _, _) => id !in db.versions
    case AddRule(tenant, id, code, _) => MayAddRule(db, tenant, id, code)
    case Advance(tenant, role, id, target) =>
      (target == Processing || target == Review || target == Approved) && MayMove(db, tenant, role, id, target)
    case Activate(tenant, role, id, startsAt, endsAt) => MayActivate(db, tenant, role, id, startsAt, endsAt)
    case Archive(tenant, id, now) => MayArchive(db, tenant, id, now)
    case CreateRequirement(_, id) => id !in db.requirements
    case AddCriterion(tenant, criterion) => MayAddCriterion(db, tenant, criterion)
    case Publish(tenant, id, _) => id in db.requirements && db.requirements[id].tenant == tenant
  }

  lemma TransitionIff(db: Db, tenant: Tenant, role: Role, id: Uuid, target: Status)
    ensures TransitionStatus(db, tenant, role, id, target).1 == Ok <==> MayMove(db, tenant, role, id, target)
  {
  }

  /** Two half-open intervals are disjoint exactly when no moment lies in both. */
  lemma DisjointIff(a: Activation, b: Activation)
    requires ValidInterval(a) && ValidInterval(b)
    ensures Disjoint(a, b) <==> !ShareMoment(a, b.startsAt, b.endsAt)
  {
    if !Disjoint(a, b) {
      var time := if a.startsAt <= b.startsAt then b.startsAt else a.startsAt;
      assert Covers(a, time);
    }
  }

  lemma ActivateIff(db: Db, tenant: Tenant, role: Role, id: Uuid, startsAt: int, endsAt: Option<int>)
    requires Inv(db)
    ensures ActivatePolicy(db, tenant, role, id, startsAt, endsAt).1 == Ok <==> MayActivate(db, tenant, role, id, startsAt, endsAt)
  {
    TransitionIff(db, tenant, role, id, Active);
    if MayMove(db, tenant, role, id, Active) && (endsAt.Some? ==> startsAt < endsAt.value) {
      var b := Activation(tenant, id, db.versions[id].year, db.versions[id].scope, startsAt, endsAt);
      forall a | a in db.activations ensures Disjoint(b, a) <==> !ShareMoment(a, startsAt, endsAt) {
        assert Placed(db.versions, a);
        DisjointIff(a, b);
      }
    }
  }

  lemma ArchiveIff(db: Db, tenant: Tenant, id: Uuid, now: int)
    requires Inv(db)
    ensures ArchivePolicy(db, tenant, id, now).1 == Ok <==> MayArchive(db, tenant, id, now)
  {
    TransitionIff(db, tenant, Other, id, Archived);
    OpenAtMostOne(db.activations, id);
    OpenIsThere(db.activations, id);
  }

  lemma {:induction false} OpenIsThere(activations: seq<Activation>, id: Uuid)
    ensures forall a | a in OpenActivations(activations, id) :: a in activations && a.policyVersion == id && a.endsAt == None
  {
    if activations != [] {
      OpenIsThere(activations[..|activations| - 1], id);
    }
  }

  lemma RowsIff(db: Db, c: Command)
    requires c.AddRule? || c.AddCriterion?
    ensures Apply(db, c).1 == Ok <==> Acceptable(db, c)
  {
  }

  /** In every state of every run a command is accepted exactly when the rows allow it, and otherwise changes nothing. */
  lemma AcceptedIff(students: map<Uuid, Tenant>, opportunities: map<Uuid, Opportunity>, commands: seq<Command>, c: Command)
    ensures var db := Run(Empty(students, opportunities), commands);
            (Apply(db, c).1 == Ok <==> Acceptable(db, c)) && (Apply(db, c).1 != Ok ==> Apply(db, c).0 == db)
  {
    var db := Run(Empty(students, opportunities), commands);
    RunKeepsInv(Empty(students, opportunities), commands);
    AcceptedIffAcceptable(db, c);
  }

  lemma AcceptedIffAcceptable(db: Db, c: Command)
    requires Inv(db)
    ensures (Apply(db, c).1 == Ok <==> Acceptable(db, c)) && (Apply(db, c).1 != Ok ==> Apply(db, c).0 == db)
  {
    match c
    case CreateVersion(_, _, _, _) =>
    case AddRule(_, _, _, _) => RowsIff(db, c);
    case Advance(tenant, role, id, target) => TransitionIff(db, tenant, role, id, target);
    case Activate(tenant, role, id, startsAt, endsAt) => ActivateIff(db, tenant, role, id, startsAt, endsAt);
    case Archive(tenant, id, now) => ArchiveIff(db, tenant, id, now);
    case CreateRequirement(_, _) =>
    case AddCriterion(_, _) => RowsIff(db, c);
    case Publish(_, _, _) =>
  }

  // ---------- the definitions of every run ----------

  predicate RulesDistinct(rules: seq<PolicyRule>) {
    forall i, j | 0 <= i < j < |rules| && rules[i].policyVersion == rules[j].policyVersion :: rules[i].code != rules[j].code
  }

  predicate CriteriaSound(criteria: seq<Criterion>) {
    (forall c | c in criteria :: WellShaped(c)) &&
    (forall i, j | 0 <= i < j < |criteria| && criteria[i].requirementVersion == criteria[j].requirementVersion ::
       criteria[i].code != criteria[j].code)
  }

  lemma RuleKeepsDistinct(rules: seq<PolicyRule>, r: PolicyRule)
    requires RulesDistinct(rules) && forall q | q in rules && q.policyVersion == r.policyVersion :: q.code != r.code
    ensures RulesDistinct(rules + [r])
  {
  }

  lemma CriterionKeepsSound(criteria: seq<Criterion>, c: Criterion)
    requires CriteriaSound(criteria) && WellShaped(c)
    requires forall d | d in criteria && d.requirementVersion == c.requirementVersion :: d.code != c.code
    ensures CriteriaSound(criteria + [c])
  {
  }

  /** What a command may add to the definitions. */
  lemma AddsAtMostOne(db: Db, c: Command)
    ensures var db' := Apply(db, c).0;
            (db'.rules != db.rules ==>
               c.AddRule? && MayAddRule(db, c.tenant, c.id, c.code) && db'.rules == db.rules + [PolicyRule(c.id, c.code, c.definition)]) &&
            (db'.criteria != db.criteria ==>
               c.AddCriterion? && MayAddCriterion(db, c.tenant, c.criterion) && db'.criteria == db.criteria + [c.criterion])
  {
    if c.AddRule? || c.AddCriterion? {
      RowsIff(db, c);
    }
  }

  lemma ApplyKeepsDefinitions(db: Db, c: Command)
    requires RulesDistinct(db.rules) && CriteriaSound(db.criteria)
    ensures RulesDistinct(Apply(db, c).0.rules) && CriteriaSound(Apply(db, c).0.criteria)
  {
    AddsAtMostOne(db, c);
    if Apply(db, c).0.rules != db.rules {
      RuleKeepsDistinct(db.rules, PolicyRule(c.id, c.code, c.definition));
    }
    if Apply(db, c).0.criteria != db.criteria {
      CriterionKeepsSound(db.criteria, c.criterion);
    }
  }

  lemma {:induction false} RunKeepsDefinitions(db: Db, commands: seq<Command>)
    requires RulesDistinct(db.rules) && CriteriaSound(db.criteria)
    ensures RulesDistinct(Run(db, commands).rules) && CriteriaSound(Run(db, commands).criteria)
    decreases |commands|
  {
    if commands != [] {
      ApplyKeepsDefinitions(db, commands[0]);
      RunKeepsDefinitions(Apply(db, commands[0]).0, commands[1..]);
    }
  }

  /** No version ever has two rules, or two criteria, with one code, and each criterion has the shape of its applicability. */
  lemma DefinitionsOfEveryRun(students: map<Uuid, Tenant>, opportunities: map<Uuid, Opportunity>, commands: seq<Command>)
    ensures var db := Run(Empty(students, opportunities), commands); RulesDistinct(db.rules) && CriteriaSound(db.criteria)
  {
    RunKeepsDefinitions(Empty(students, opportunities), commands);
  }
}
