/** The tables of policies, requirements and decisions, and the commands that change the first two. */
module PolicyRecords {
  import opened Common
  import opened Json
  import opened EvaluationKey
  import opened Evaluator

  type Tenant = int

  datatype Status = Draft | Processing | Review | Approved | Active | Archived

  datatype Role = Staff | Other

  datatype PolicyVersion = PolicyVersion(tenant: Tenant, year: int, scope: string, status: Status)

  datatype PolicyEvent = PolicyEvent(policyVersion: Uuid, version: nat, status: Status)

  datatype PolicyRule = PolicyRule(policyVersion: Uuid, code: string, definition: Dict)

  datatype Activation = Activation(
    tenant: Tenant, policyVersion: Uuid, year: int, scope: string, startsAt: int, endsAt: Option<int>)

  datatype RequirementVersion = RequirementVersion(tenant: Tenant, publishedAt: Option<int>)

  datatype Criterion = Criterion(
    requirementVersion: Uuid, code: string, applicability: string, operator: Option<string>, operand: Json)

  datatype Opportunity = Opportunity(tenant: Tenant, year: int)

  datatype Decision = Decision(
    tenant: Tenant, student: Uuid, opportunity: Uuid, policy: Uuid, requirement: Uuid,
    key: string, snapshot: Facts, verdict: Verdict, reasons: seq<Reason>)

  datatype Db = Db(
    students: map<Uuid, Tenant>,
    opportunities: map<Uuid, Opportunity>,
    versions: map<Uuid, PolicyVersion>,
    events: seq<PolicyEvent>,
    rules: seq<PolicyRule>,
    activations: seq<Activation>,
    requirements: map<Uuid, RequirementVersion>,
    criteria: seq<Criterion>,
    decisions: seq<Decision>)

  // ---------- queries ----------

  function EventsOf(events: seq<PolicyEvent>, id: Uuid): seq<PolicyEvent> {
    if events == [] then []
    else
      var last := events[|events| - 1];
      var front := EventsOf(events[..|events| - 1], id);
      if last.policyVersion == id then front + [last] else front
  }

  /** The highest event version of a policy version, or 0. */
  function LatestEvent(events: seq<PolicyEvent>, id: Uuid): nat {
    if events == [] then 0
    else
      var rest := LatestEvent(events[..|events| - 1], id);
      var last := events[|events| - 1];
      if last.policyVersion == id && last.version > rest then last.version else rest
  }

  function RulesOf(rules: seq<PolicyRule>, id: Uuid): seq<PolicyRule> {
    if rules == [] then []
    else
      var last := rules[|rules| - 1];
      var front := RulesOf(rules[..|rules| - 1], id);
      if last.policyVersion == id then front + [last] else front
  }

  function CriteriaOf(criteria: seq<Criterion>, id: Uuid): seq<Criterion> {
    if criteria == [] then []
    else
      var last := criteria[|criteria| - 1];
      var front := CriteriaOf(criteria[..|criteria| - 1], id);
      if last.requirementVersion == id then front + [last] else front
  }

  predicate Owns(tenant: Tenant, versions: map<Uuid, PolicyVersion>, id: Uuid) {
    id in versions && versions[id].tenant == tenant
  }

  // ---------- constraints of the schema ----------

  predicate ValidInterval(a: Activation) {
    a.endsAt.None? || a.endsAt.value > a.startsAt
  }

  /** Half-open intervals that share no moment. */
  predicate Disjoint(a: Activation, b: Activation) {
    (a.endsAt.Some? && a.endsAt.value <= b.startsAt) || (b.endsAt.Some? && b.endsAt.value <= a.startsAt)
  }

  predicate SamePlace(a: Activation, b: Activation) {
    a.tenant == b.tenant && a.year == b.year && a.scope == b.scope
  }

  /** The interval check and the exclusion constraint on overlapping activations. */
  predicate ActivationAllowed(activations: seq<Activation>, a: Activation) {
    ValidInterval(a) && forall b | b in activations :: SamePlace(a, b) ==> Disjoint(a, b)
  }

  predicate CriterionShape(c: Criterion) {
    if c.applicability in {"REQUIRED", "OPTIONAL"} then
      c.operator.Some? && c.operator.value in SCHEMA_OPERATORS && c.operand.Obj?
    else
      c.applicability in {"NOT_APPLICABLE", "UNKNOWN"} && c.operator.None? && c.operand.Null?
  }

  predicate CriterionAllowed(criteria: seq<Criterion>, c: Criterion) {
    CriterionShape(c) &&
    forall d | d in criteria :: d.requirementVersion == c.requirementVersion ==> d.code != c.code
  }

  predicate RuleAllowed(rules: seq<PolicyRule>, r: PolicyRule) {
    forall q | q in rules :: q.policyVersion == r.policyVersion ==> q.code != r.code
  }

  // ---------- commands ----------

  datatype Command =
    | CreateVersion(tenant: Tenant, id: Uuid, year: int, scope: string)
    | AddRule(tenant: Tenant, id: Uuid, code: string, definition: Dict)
    | Advance(tenant: Tenant, role: Role, id: Uuid, target: Status)
    | Activate(tenant: Tenant, role: Role, id: Uuid, startsAt: int, endsAt: Option<int>)
    | Archive(tenant: Tenant, id: Uuid, now: int)
    | CreateRequirement(tenant: Tenant, id: Uuid)
    | AddCriterion(tenant: Tenant, criterion: Criterion)
    | Publish(tenant: Tenant, id: Uuid, now: int)

  datatype Reply = Ok | NotFound | InvalidOperation | Forbidden | ConstraintViolation | Ambiguity

  /** Each status has one successor and Archived has none. */
  function Successor(s: Status): Option<Status> {
    match s
    case Draft => Some(Processing)
    case Processing => Some(Review)
    case Review => Some(Approved)
    case Approved => Some(Active)
    case Active => Some(Archived)
    case Archived => None
  }

  function NewEvent(events: seq<PolicyEvent>, id: Uuid, status: Status): PolicyEvent {
    PolicyEvent(id, LatestEvent(events, id) + 1, status)
  }

  function WithEvent(db: Db, id: Uuid, status: Status): Db {
    db.(events := db.events + [NewEvent(db.events, id, status)])
  }

  /** The open activation of a version ends now. */
  function CloseActivations(activations: seq<Activation>, id: Uuid, now: int): (r: seq<Activation>)
    ensures |r| == |activations|
    ensures forall i | 0 <= i < |r| ::
              r[i] == if activations[i].policyVersion == id && activations[i].endsAt.None?
                      then activations[i].(endsAt := Some(now)) else activations[i]
  {
    if activations == [] then []
    else
      var last := activations[|activations| - 1];
      var closed := if last.policyVersion == id && last.endsAt.None? then last.(endsAt := Some(now)) else last;
      CloseActivations(activations[..|activations| - 1], id, now) + [closed]
  }

  function OpenActivations(activations: seq<Activation>, id: Uuid): seq<Activation> {
    if activations == [] then []
    else
      var last := activations[|activations| - 1];
      var front := OpenActivations(activations[..|activations| - 1], id);
      if last.policyVersion == id && last.endsAt.None? then front + [last] else front
  }

  // Each command is one transaction: when it is rejected nothing changes.

  function CreatePolicyVersion(db: Db, tenant: Tenant, id: Uuid, year: int, scope: string): (Db, Reply) {
    if id in db.versions then (db, ConstraintViolation)
    else (WithEvent(db.(versions := db.versions[id := PolicyVersion(tenant, year, scope, Draft)]), id, Draft), Ok)
  }

  function AddPolicyRule(db: Db, tenant: Tenant, id: Uuid, code: string, definition: Dict): (Db, Reply) {
    if !Owns(tenant, db.versions, id) then (db, NotFound)
    else if db.versions[id].status in {Approved, Active, Archived} then (db, InvalidOperation)
    else if db.versions[id].status == Review then (db, InvalidOperation)
    else if !RuleAllowed(db.rules, PolicyRule(id, code, definition)) then (db, ConstraintViolation)
    else (db.(rules := db.rules + [PolicyRule(id, code, definition)]), Ok)
  }

  /** Move a version along its lifecycle and record the event. */
  function TransitionStatus(db: Db, tenant: Tenant, role: Role, id: Uuid, target: Status): (Db, Reply) {
    if !Owns(tenant, db.versions, id) then (db, NotFound)
    else if Successor(db.versions[id].status) != Some(target) then (db, InvalidOperation)
    else if target in {Approved, Active} && role != Staff then (db, Forbidden)
    else (WithEvent(db.(versions := db.versions[id := db.versions[id].(status := target)]), id, target), Ok)
  }

  function ActivatePolicy(db: Db, tenant: Tenant, role: Role, id: Uuid, startsAt: int, endsAt: Option<int>): (Db, Reply) {
    var (moved, reply) := TransitionStatus(db, tenant, role, id, Active);
    if reply != Ok then (db, reply)
    else
      var activation := Activation(tenant, id, moved.versions[id].year, moved.versions[id].scope, startsAt, endsAt);
      if !ActivationAllowed(db.activations, activation) then (db, ConstraintViolation)
      else (moved.(activations := db.activations + [activation]), Ok)
  }

  function ArchivePolicy(db: Db, tenant: Tenant, id: Uuid, now: int): (Db, Reply) {
    var (moved, reply) := TransitionStatus(db, tenant, Other, id, Archived);
    var open := OpenActivations(db.activations, id);
    if reply != Ok then (db, reply)
    else if |open| > 1 then (db, Ambiguity)
    else if |open| == 1 && now <= open[0].startsAt then (db, ConstraintViolation)
    else (moved.(activations := CloseActivations(db.activations, id, now)), Ok)
  }

  function InitializeRequirement(db: Db, tenant: Tenant, id: Uuid): (Db, Reply) {
    if id in db.requirements then (db, ConstraintViolation)
    else (db.(requirements := db.requirements[id := RequirementVersion(tenant, None)]), Ok)
  }

  function AddRequirementCriterion(db: Db, tenant: Tenant, criterion: Criterion): (Db, Reply) {
    var id := criterion.requirementVersion;
    if id !in db.requirements || db.requirements[id].tenant != tenant then (db, NotFound)
    else if db.requirements[id].publishedAt.Some? then (db, InvalidOperation)
    else if !CriterionAllowed(db.criteria, criterion) then (db, ConstraintViolation)
    else (db.(criteria := db.criteria + [criterion]), Ok)
  }

  function PublishRequirement(db: Db, tenant: Tenant, id: Uuid, now: int): (Db, Reply) {
    if id !in db.requirements || db.requirements[id].tenant != tenant then (db, NotFound)
    else if db.requirements[id].publishedAt.Some? then (db, Ok)
    else (db.(requirements := db.requirements[id := RequirementVersion(tenant, Some(now))]), Ok)
  }

  function Apply(db: Db, c: Command): (Db, Reply) {
    match c
    case CreateVersion(tenant, id, year, scope) => CreatePolicyVersion(db, tenant, id, year, scope)
    case AddRule(tenant, id, code, definition) => AddPolicyRule(db, tenant, id, code, definition)
    case Advance(tenant, role, id, target) =>
      // the only targets a route asks for; Active and Archived have commands of their own
      if target in {Processing, Review, Approved} then TransitionStatus(db, tenant, role, id, target) else (db, NotFound)
    case Activate(tenant, role, id, startsAt, endsAt) => ActivatePolicy(db, tenant, role, id, startsAt, endsAt)
    case Archive(tenant, id, now) => ArchivePolicy(db, tenant, id, now)
    case CreateRequirement(tenant, id) => InitializeRequirement(db, tenant, id)
    case AddCriterion(tenant, criterion) => AddRequirementCriterion(db, tenant, criterion)
    case Publish(tenant, id, now) => PublishRequirement(db, tenant, id, now)
  }
}
