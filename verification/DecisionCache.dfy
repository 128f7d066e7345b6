/**
 * Any number of evaluations, interleaved with each other and with policy commands. An evaluation takes these steps:
 * choose the active policy, read the facts and all rows, look the key up, insert, and fall back after a violation.
 */
module DecisionCache {
  import opened Common
  import opened Json
  import opened Evaluator
  import opened EvaluationKey
  import opened PolicyRecords
  import opened PolicyLifecycle

  datatype Request = Request(tenant: Tenant, student: Uuid, opportunity: Uuid, requirement: Uuid)

  /** What one evaluation has read; `published` notes whether its requirement version was published then. */
  datatype Inputs = Inputs(
    request: Request, policy: Uuid, facts: Facts, rules: seq<Dict>, criteria: seq<Dict>, published: bool)

  datatype Failure =
    | OpportunityNotFound | NoActivePolicy | PolicyAmbiguity | StudentNotFound
    | EngineError | DecisionLost | DecisionAmbiguous

  datatype Evaluation =
    | Chosen(request: Request, policy: Uuid)
    | Loaded(inputs: Inputs)
    | Missed(inputs: Inputs, decision: Decision)
    | Collided(inputs: Inputs, duplicate: bool)
    | Done(inputs: Inputs, decision: Decision)
    | Failed(failure: Failure)

  const SCOPE := "ALL"

  function RuleDict(r: PolicyRule): Dict {
    map["field" := Str(r.code)] + r.definition
  }

  function RuleDicts(rules: seq<PolicyRule>): seq<Dict> {
    seq(|rules|, i requires 0 <= i < |rules| => RuleDict(rules[i]))
  }

  function CriterionDict(c: Criterion): Dict {
    map["field" := Str(c.code), "operator" := if c.operator.None? then Null else Str(c.operator.value),
        "operand" := c.operand, "applicability" := Str(c.applicability)]
  }

  function CriterionDicts(criteria: seq<Criterion>): seq<Dict> {
    seq(|criteria|, i requires 0 <= i < |criteria| => CriterionDict(criteria[i]))
  }

  function PolicyRows(db: Db, policy: Uuid): seq<Dict> {
    RuleDicts(RulesOf(db.rules, policy))
  }

  function RequirementRows(db: Db, requirement: Uuid): seq<Dict> {
    CriterionDicts(CriteriaOf(db.criteria, requirement))
  }

  predicate IsPublished(db: Db, requirement: Uuid) {
    requirement in db.requirements && db.requirements[requirement].publishedAt.Some?
  }

  function KeyOf(i: Inputs): string {
    KeyInput(i.facts, i.policy, i.request.requirement)
  }

  // ---------- queries on decisions ----------

  function WithKey(decisions: seq<Decision>, tenant: Tenant, key: string): seq<Decision> {
    if decisions == [] then []
    else
      var last := decisions[|decisions| - 1];
      var front := WithKey(decisions[..|decisions| - 1], tenant, key);
      if last.tenant == tenant && last.key == key then front + [last] else front
  }

  /** The query after a unique violation: it names the student and the opportunity, but no tenant. */
  function WithStudentKey(decisions: seq<Decision>, key: string, student: Uuid, opportunity: Uuid): seq<Decision> {
    if decisions == [] then []
    else
      var last := decisions[|decisions| - 1];
      var front := WithStudentKey(decisions[..|decisions| - 1], key, student, opportunity);
      if last.key == key && last.student == student && last.opportunity == opportunity then front + [last] else front
  }

  // ---------- the statements of one evaluation ----------

  function Choose(db: Db, request: Request, time: int): Evaluation {
    if request.opportunity !in db.opportunities || db.opportunities[request.opportunity].tenant != request.tenant then
      Failed(OpportunityNotFound)
    else
      var rows := ActiveRows(db, |db.activations|, request.tenant, db.opportunities[request.opportunity].year, SCOPE, time);
      if rows == [] then Failed(NoActivePolicy)
      else if |rows| > 1 then Failed(PolicyAmbiguity)
      else Chosen(request, rows[0])
  }

  /** The rows come in whatever order the database returns them. */
  predicate RowsReturned(db: Db, e: Evaluation, facts: Facts, rules: seq<Dict>, criteria: seq<Dict>) {
    e.Chosen? && facts.student == e.request.student && facts.opportunity == e.request.opportunity &&
    multiset(rules) == multiset(PolicyRows(db, e.policy)) &&
    multiset(criteria) == multiset(RequirementRows(db, e.request.requirement))
  }

  function Load(db: Db, e: Evaluation, facts: Facts, rules: seq<Dict>, criteria: seq<Dict>): Evaluation
    requires RowsReturned(db, e, facts, rules, criteria)
  {
    if e.request.student !in db.students || db.students[e.request.student] != e.request.tenant then Failed(StudentNotFound)
    else Loaded(Inputs(e.request, e.policy, facts, rules, criteria, IsPublished(db, e.request.requirement)))
  }

  function NewDecision(i: Inputs, d: Decided): Decision {
    Decision(i.request.tenant, i.request.student, i.request.opportunity, i.policy, i.request.requirement,
             KeyOf(i), i.facts, d.verdict, d.reasons)
  }

  function Look(db: Db, i: Inputs): Evaluation {
    var existing := WithKey(db.decisions, i.request.tenant, KeyOf(i));
    if |existing| > 1 then Failed(DecisionAmbiguous)
    else if |existing| == 1 then Done(i, existing[0])
    else
      match Evaluate(Snapshot(i.facts), i.rules, i.criteria)
      case Raised => Failed(EngineError)
      case Returned(decided) => Missed(i, NewDecision(i, decided))
  }

  /** The unique constraint on (tenant, key) and the foreign key of the requirement version. */
  function Write(db: Db, i: Inputs, d: Decision): (Db, Evaluation) {
    if WithKey(db.decisions, d.tenant, d.key) != [] then (db, Collided(i, true))
    else if d.requirement !in db.requirements || db.requirements[d.requirement].tenant != d.tenant then (db, Collided(i, false))
    else (db.(decisions := db.decisions + [d]), Done(i, d))
  }

  function Recover(db: Db, i: Inputs): Evaluation {
    var found := WithStudentKey(db.decisions, KeyOf(i), i.request.student, i.request.opportunity);
    if |found| > 1 then Failed(DecisionAmbiguous)
    else if found == [] then Failed(DecisionLost)
    else Done(i, found[0])
  }

  // ---------- the interleaving ----------

  /** `onPublished` remembers the keys of the decisions whose evaluation read a published requirement version. */
  datatype Machine = Machine(db: Db, evaluations: map<nat, Evaluation>, onPublished: set<(Tenant, string)>)

  datatype Step =
    | Command(command: PolicyRecords.Command)
    | Begins(worker: nat, request: Request, time: int)
    | Reads(worker: nat, facts: Facts, rules: seq<Dict>, criteria: seq<Dict>)
    | Looks(worker: nat)
    | Writes(worker: nat)
    | Recovers(worker: nat)

  function Become(m: Machine, worker: nat, e: Evaluation): Machine {
    m.(evaluations := m.evaluations[worker := e])
  }

  function WriteStep(m: Machine, worker: nat, i: Inputs, d: Decision): Machine {
    var (db', e') := Write(m.db, i, d);
    Machine(db', m.evaluations[worker := e'],
            if e'.Done? && i.published then m.onPublished + {(d.tenant, d.key)} else m.onPublished)
  }

  /** A step that is not possible in a state leaves it as it is. */
  function Next(m: Machine, s: Step): Machine {
    match s
    case Command(c) => m.(db := Apply(m.db, c).0)
    case Begins(w, request, time) =>
      if w in m.evaluations then m else Become(m, w, Choose(m.db, request, time))
    case Reads(w, facts, rules, criteria) =>
      if w in m.evaluations && RowsReturned(m.db, m.evaluations[w], facts, rules, criteria)
      then Become(m, w, Load(m.db, m.evaluations[w], facts, rules, criteria)) else m
    case Looks(w) =>
      if w in m.evaluations && m.evaluations[w].Loaded? then Become(m, w, Look(m.db, m.evaluations[w].inputs)) else m
    case Writes(w) =>
      if w in m.evaluations && m.evaluations[w].Missed?
      then WriteStep(m, w, m.evaluations[w].inputs, m.evaluations[w].decision) else m
    case Recovers(w) =>
      if w in m.evaluations && m.evaluations[w].Collided? then Become(m, w, Recover(m.db, m.evaluations[w].inputs)) else m
  }

  function Execution(m: Machine, steps: seq<Step>): Machine
    decreases |steps|
  {
    if steps == [] then m else Execution(Next(m, steps[0]), steps[1..])
  }

  function Initial(students: map<Uuid, Tenant>, opportunities: map<Uuid, Opportunity>): Machine {
    Machine(Empty(students, opportunities), map[], {})
  }
}

/** Replay, uniqueness and recovery of decisions in every interleaving. */
module DecisionReplay {
  import opened Common
  import opened Json
  import opened Evaluator
  import opened EvaluatorProperties
  import opened EvaluationKey
  import opened PolicyRecords
  import opened PolicyLifecycle
  import opened DecisionCache

  // ---------- the invariant ----------

  predicate PolicyFrozen(db: Db, policy: Uuid) {
    policy in db.versions && Rank(db.versions[policy].status) >= Rank(Review)
  }

  predicate StudentOf(db: Db, student: Uuid, tenant: Tenant) {
    student in db.students && db.students[student] == tenant
  }

  predicate DecisionSound(db: Db, d: Decision) {
    d.key == KeyInput(d.snapshot, d.policy, d.requirement) &&
    d.snapshot.student == d.student && d.snapshot.opportunity == d.opportunity &&
    StudentOf(db, d.student, d.tenant) && PolicyFrozen(db, d.policy) &&
    d.requirement in db.requirements && db.requirements[d.requirement].tenant == d.tenant
  }

  /** Evaluating the stored snapshot against the rules and criteria of today gives the stored decision. */
  predicate AgreesNow(db: Db, d: Decision) {
    SameDecided(Evaluate(Snapshot(d.snapshot), PolicyRows(db, d.policy), RequirementRows(db, d.requirement)),
                Returned(Decided(d.verdict, d.reasons)))
  }

  predicate Replays(db: Db, d: Decision) {
    IsPublished(db, d.requirement) && AgreesNow(db, d)
  }

  predicate OneRowPerKey(decisions: seq<Decision>) {
    forall i, j | 0 <= i < j < |decisions| :: !(decisions[i].tenant == decisions[j].tenant && decisions[i].key == decisions[j].key)
  }

  predicate InputsSound(db: Db, i: Inputs) {
    i.facts.student == i.request.student && i.facts.opportunity == i.request.opportunity &&
    StudentOf(db, i.request.student, i.request.tenant) && PolicyFrozen(db, i.policy) &&
    multiset(i.rules) == multiset(PolicyRows(db, i.policy)) &&
    (i.published ==>
       IsPublished(db, i.request.requirement) &&
       multiset(i.criteria) == multiset(RequirementRows(db, i.request.requirement)))
  }

  predicate Fresh(i: Inputs, d: Decision) {
    Evaluate(Snapshot(i.facts), i.rules, i.criteria) == Returned(Decided(d.verdict, d.reasons)) &&
    d == NewDecision(i, Decided(d.verdict, d.reasons))
  }

  predicate RowFor(decisions: seq<Decision>, i: Inputs, d: Decision) {
    d in decisions && d.tenant == i.request.tenant && d.key == KeyOf(i)
  }

  predicate EvaluationSound(db: Db, e: Evaluation) {
    match e
    case Chosen(_, policy) => PolicyFrozen(db, policy)
    case Loaded(i) => InputsSound(db, i)
    case Missed(i, d) => InputsSound(db, i) && Fresh(i, d)
    case Collided(i, duplicate) => InputsSound(db, i) && (duplicate ==> WithKey(db.decisions, i.request.tenant, KeyOf(i)) != [])
    case Done(i, d) => InputsSound(db, i) && RowFor(db.decisions, i, d)
    case Failed(f) => f != PolicyAmbiguity && f != DecisionAmbiguous
  }

  predicate DecisionsSound(db: Db) {
    forall d | d in db.decisions :: DecisionSound(db, d)
  }

  predicate PublishedReplay(db: Db, onPublished: set<(Tenant, string)>) {
    forall d | d in db.decisions && (d.tenant, d.key) in onPublished :: Replays(db, d)
  }

  predicate KeysKept(decisions: seq<Decision>, onPublished: set<(Tenant, string)>) {
    forall k | k in onPublished :: WithKey(decisions, k.0, k.1) != []
  }

  predicate EvaluationsSound(db: Db, evaluations: map<nat, Evaluation>) {
    forall w | w in evaluations :: EvaluationSound(db, evaluations[w])
  }

  predicate MachineInv(m: Machine) {
    Inv(m.db) && OneRowPerKey(m.db.decisions) && DecisionsSound(m.db) && PublishedReplay(m.db, m.onPublished) &&
    KeysKept(m.db.decisions, m.onPublished) && EvaluationsSound(m.db, m.evaluations)
  }

  // ---------- policy commands between the statements ----------

  lemma CommandKeepsDecision(db: Db, db': Db, d: Decision)
    requires Grows(db, db') && DecisionSound(db, d)
    ensures DecisionSound(db', d) && (Replays(db, d) ==> Replays(db', d))
  {
  }

  lemma CommandKeepsInputs(db: Db, db': Db, i: Inputs)
    requires Grows(db, db') && InputsSound(db, i)
    ensures InputsSound(db', i)
  {
  }

  lemma CommandKeepsEvaluation(db: Db, db': Db, e: Evaluation)
    requires Grows(db, db') && EvaluationSound(db, e)
    ensures EvaluationSound(db', e)
  {
    if e.Loaded? || e.Missed? || e.Collided? || e.Done? {
      CommandKeepsInputs(db, db', e.inputs);
    }
  }

  lemma GrowthKeepsDecisions(db: Db, db': Db, onPublished: set<(Tenant, string)>)
    requires Grows(db, db') && DecisionsSound(db) && PublishedReplay(db, onPublished)
    ensures DecisionsSound(db') && PublishedReplay(db', onPublished)
  {
    forall d | d in db'.decisions
      ensures DecisionSound(db', d) && ((d.tenant, d.key) in onPublished ==> Replays(db', d))
    {
      CommandKeepsDecision(db, db', d);
    }
  }

  lemma GrowthKeepsEvaluations(db: Db, db': Db, evaluations: map<nat, Evaluation>)
    requires Grows(db, db') && EvaluationsSound(db, evaluations)
    ensures EvaluationsSound(db', evaluations)
  {
    forall w | w in evaluations ensures EvaluationSound(db', evaluations[w]) {
      CommandKeepsEvaluation(db, db', evaluations[w]);
    }
  }

  lemma CommandKeepsMachine(m: Machine, c: PolicyRecords.Command)
    requires MachineInv(m)
    ensures MachineInv(Next(m, Command(c)))
  {
    var db' := Apply(m.db, c).0;
    ApplyKeepsInv(m.db, c);
    ApplyGrows(m.db, c);
    GrowthKeepsDecisions(m.db, db', m.onPublished);
    GrowthKeepsEvaluations(m.db, db', m.evaluations);
  }

  // ---------- queries ----------

  lemma {:induction false} NothingWithKey(decisions: seq<Decision>, tenant: Tenant, key: string)
    requires forall d | d in decisions :: !(d.tenant == tenant && d.key == key)
    ensures WithKey(decisions, tenant, key) == []
  {
    if decisions != [] {
      NothingWithKey(decisions[..|decisions| - 1], tenant, key);
    }
  }

  lemma {:induction false} WithKeyMeaning(decisions: seq<Decision>, tenant: Tenant, key: string)
    ensures forall d :: d in WithKey(decisions, tenant, key) <==> d in decisions && d.tenant == tenant && d.key == key
  {
    if decisions != [] {
      var n := |decisions| - 1;
      assert decisions == decisions[..n] + [decisions[n]];
      WithKeyMeaning(decisions[..n], tenant, key);
    }
  }

  /** Under the unique constraint a lookup finds the one row there is. */
  lemma {:induction false} WithKeyUnique(decisions: seq<Decision>, tenant: Tenant, key: string)
    requires OneRowPerKey(decisions)
    ensures |WithKey(decisions, tenant, key)| <= 1
  {
    if decisions != [] {
      var n := |decisions| - 1;
      var front := decisions[..n];
      WithKeyUnique(front, tenant, key);
      if decisions[n].tenant == tenant && decisions[n].key == key {
        forall d | d in front ensures !(d.tenant == tenant && d.key == key) {
          var i :| 0 <= i < n && decisions[i] == d;
        }
        NothingWithKey(front, tenant, key);
      }
    }
  }

  lemma {:induction false} WithStudentKeyMeaning(decisions: seq<Decision>, key: string, student: Uuid, opportunity: Uuid)
    ensures forall d :: d in WithStudentKey(decisions, key, student, opportunity) <==>
              d in decisions && d.key == key && d.student == student && d.opportunity == opportunity
  {
    if decisions != [] {
      var n := |decisions| - 1;
      assert decisions == decisions[..n] + [decisions[n]];
      WithStudentKeyMeaning(decisions[..n], key, student, opportunity);
    }
  }

  /** A student belongs to one tenant, so the query without a tenant finds what the query with it finds. */
  lemma {:induction false} StudentKeyIsKey(decisions: seq<Decision>, tenant: Tenant, key: string, student: Uuid, opportunity: Uuid)
    requires forall d | d in decisions && d.key == key :: d.student == student ==> d.tenant == tenant
    requires forall d | d in decisions && d.key == key && d.tenant == tenant :: d.student == student && d.opportunity == opportunity
    ensures WithStudentKey(decisions, key, student, opportunity) == WithKey(decisions, tenant, key)
  {
    if decisions != [] {
      StudentKeyIsKey(decisions[..|decisions| - 1], tenant, key, student, opportunity);
    }
  }

  /** For an evaluation that collided, the query without a tenant and the lookup see the same rows. */
  lemma RecoverySeesTheTenantsRows(db: Db, i: Inputs)
    requires InputsSound(db, i) && DecisionsSound(db)
    ensures WithStudentKey(db.decisions, KeyOf(i), i.request.student, i.request.opportunity) ==
            WithKey(db.decisions, i.request.tenant, KeyOf(i))
  {
    forall d | d in db.decisions && d.key == KeyOf(i)
      ensures d.student == i.request.student && d.opportunity == i.request.opportunity && d.tenant == i.request.tenant
    {
      KeyInputInjective(d.snapshot, d.policy, d.requirement, i.facts, i.policy, i.request.requirement);
    }
    StudentKeyIsKey(db.decisions, i.request.tenant, KeyOf(i), i.request.student, i.request.opportunity);
  }

  // ---------- the statements ----------

  lemma ChooseSound(db: Db, request: Request, time: int)
    requires Inv(db)
    ensures EvaluationSound(db, Choose(db, request, time))
  {
    if request.opportunity in db.opportunities {
      var year := db.opportunities[request.opportunity].year;
      var n := |db.activations|;
      NoPolicyAmbiguity(db, n, request.tenant, year, SCOPE, time);
      ActiveRowsMeaning(db, n, request.tenant, year, SCOPE, time);
      var rows := ActiveRows(db, n, request.tenant, year, SCOPE, time);
      assert rows != [] ==> rows[0] in rows;
    }
  }

  /** The lookup finds at most one row, and the row it finds has the tenant and the key. */
  lemma OneWithKey(decisions: seq<Decision>, tenant: Tenant, key: string)
    requires OneRowPerKey(decisions)
    ensures var found := WithKey(decisions, tenant, key);
            |found| <= 1 && (found != [] ==> found[0] in decisions && found[0].tenant == tenant && found[0].key == key)
  {
    WithKeyUnique(decisions, tenant, key);
    WithKeyMeaning(decisions, tenant, key);
    var found := WithKey(decisions, tenant, key);
    assert found != [] ==> found[0] in found;
  }

  lemma LoadSound(db: Db, e: Evaluation, facts: Facts, rules: seq<Dict>, criteria: seq<Dict>)
    requires EvaluationSound(db, e) && RowsReturned(db, e, facts, rules, criteria)
    ensures EvaluationSound(db, Load(db, e, facts, rules, criteria))
  {
  }

  lemma LookSound(db: Db, i: Inputs)
    requires InputsSound(db, i) && OneRowPerKey(db.decisions)
    ensures EvaluationSound(db, Look(db, i))
  {
    OneWithKey(db.decisions, i.request.tenant, KeyOf(i));
  }

  lemma RecoverSound(db: Db, i: Inputs)
    requires InputsSound(db, i) && OneRowPerKey(db.decisions) && DecisionsSound(db)
    ensures EvaluationSound(db, Recover(db, i))
    ensures WithKey(db.decisions, i.request.tenant, KeyOf(i)) != [] ==> Recover(db, i).Done?
  {
    RecoverySeesTheTenantsRows(db, i);
    OneWithKey(db.decisions, i.request.tenant, KeyOf(i));
  }

  /** A decision computed from the rows an evaluation read replays on the rows in the tables. */
  lemma FreshReplays(db: Db, i: Inputs, d: Decision)
    requires InputsSound(db, i) && Fresh(i, d) && i.published
    ensures Replays(db, d)
  {
    RowOrderIrrelevant(Snapshot(i.facts), i.rules, PolicyRows(db, i.policy),
                       i.criteria, RequirementRows(db, i.request.requirement));
  }

  lemma InsertKeepsInputs(db: Db, d: Decision, i: Inputs)
    requires InputsSound(db, i)
    ensures InputsSound(db.(decisions := db.decisions + [d]), i)
  {
  }

  lemma WithKeyAppend(decisions: seq<Decision>, d: Decision, tenant: Tenant, key: string)
    ensures WithKey(decisions, tenant, key) != [] ==> WithKey(decisions + [d], tenant, key) != []
  {
  }

  lemma InsertKeepsEvaluation(db: Db, d: Decision, e: Evaluation)
    requires EvaluationSound(db, e)
    ensures EvaluationSound(db.(decisions := db.decisions + [d]), e)
  {
    if e.Loaded? || e.Missed? || e.Collided? || e.Done? {
      InsertKeepsInputs(db, d, e.inputs);
    }
    if e.Collided? {
      WithKeyAppend(db.decisions, d, e.inputs.request.tenant, KeyOf(e.inputs));
    }
  }

  lemma InsertKeepsUnique(decisions: seq<Decision>, d: Decision)
    requires OneRowPerKey(decisions) && WithKey(decisions, d.tenant, d.key) == []
    ensures OneRowPerKey(decisions + [d])
  {
    WithKeyMeaning(decisions, d.tenant, d.key);
    forall i | 0 <= i < |decisions| ensures !(decisions[i].tenant == d.tenant && decisions[i].key == d.key) {
      assert decisions[i] in decisions;
    }
  }

  lemma InsertKeepsDecision(db: Db, d: Decision, c: Decision)
    ensures DecisionSound(db, c) ==> DecisionSound(db.(decisions := db.decisions + [d]), c)
    ensures Replays(db, c) ==> Replays(db.(decisions := db.decisions + [d]), c)
  {
  }

  lemma InsertKeepsDecisions(db: Db, d: Decision)
    requires DecisionsSound(db) && DecisionSound(db, d)
    ensures DecisionsSound(db.(decisions := db.decisions + [d]))
  {
    forall c | c in db.decisions + [d] ensures DecisionSound(db.(decisions := db.decisions + [d]), c) {
      InsertKeepsDecision(db, d, c);
    }
  }

  lemma FreshIsSound(db: Db, i: Inputs, d: Decision)
    requires InputsSound(db, i) && Fresh(i, d) && d.requirement in db.requirements
    requires db.requirements[d.requirement].tenant == d.tenant
    ensures DecisionSound(db, d)
  {
  }

  function Remembered(onPublished: set<(Tenant, string)>, i: Inputs, d: Decision): set<(Tenant, string)> {
    if i.published then onPublished + {(d.tenant, d.key)} else onPublished
  }

  /** A remembered key belongs to a row remembered before, or to the new one. */
  lemma RememberedRow(decisions: seq<Decision>, onPublished: set<(Tenant, string)>, i: Inputs, d: Decision, c: Decision)
    requires KeysKept(decisions, onPublished) && WithKey(decisions, d.tenant, d.key) == []
    requires c in decisions + [d] && (c.tenant, c.key) in Remembered(onPublished, i, d)
    ensures (c in decisions && (c.tenant, c.key) in onPublished) || (c == d && i.published)
  {
    WithKeyMeaning(decisions, d.tenant, d.key);
  }

  lemma InsertKeepsReplays(db: Db, onPublished: set<(Tenant, string)>, i: Inputs, d: Decision)
    requires PublishedReplay(db, onPublished) && KeysKept(db.decisions, onPublished) && WithKey(db.decisions, d.tenant, d.key) == []
    requires i.published ==> Replays(db, d)
    ensures PublishedReplay(db.(decisions := db.decisions + [d]), Remembered(onPublished, i, d))
  {
    forall c | c in db.decisions + [d] && (c.tenant, c.key) in Remembered(onPublished, i, d)
      ensures Replays(db.(decisions := db.decisions + [d]), c)
    {
      RememberedRow(db.decisions, onPublished, i, d, c);
      InsertKeepsDecision(db, d, c);
    }
  }

  lemma InsertKeepsKeys(decisions: seq<Decision>, onPublished: set<(Tenant, string)>, i: Inputs, d: Decision)
    requires KeysKept(decisions, onPublished)
    ensures KeysKept(decisions + [d], Remembered(onPublished, i, d))
  {
  }

  lemma InsertKeepsEvaluations(db: Db, evaluations: map<nat, Evaluation>, worker: nat, i: Inputs, d: Decision)
    requires EvaluationsSound(db, evaluations) && InputsSound(db, i) && d.tenant == i.request.tenant && d.key == KeyOf(i)
    ensures EvaluationsSound(db.(decisions := db.decisions + [d]), evaluations[worker := Done(i, d)])
  {
    InsertKeepsInputs(db, d, i);
    forall w | w in evaluations && w != worker
      ensures EvaluationSound(db.(decisions := db.decisions + [d]), evaluations[w])
    {
      InsertKeepsEvaluation(db, d, evaluations[w]);
    }
  }

  lemma InsertEffect(m: Machine, worker: nat, i: Inputs, d: Decision)
    requires Write(m.db, i, d).1.Done?
    ensures WithKey(m.db.decisions, d.tenant, d.key) == []
    ensures d.requirement in m.db.requirements && m.db.requirements[d.requirement].tenant == d.tenant
    ensures WriteStep(m, worker, i, d) ==
              Machine(m.db.(decisions := m.db.decisions + [d]), m.evaluations[worker := Done(i, d)],
                      Remembered(m.onPublished, i, d))
  {
  }

  lemma InsertKeepsMachine(m: Machine, worker: nat, i: Inputs, d: Decision)
    requires MachineInv(m) && InputsSound(m.db, i) && Fresh(i, d) && Write(m.db, i, d).1.Done?
    ensures MachineInv(WriteStep(m, worker, i, d))
  {
    InsertEffect(m, worker, i, d);
    InsertKeepsUnique(m.db.decisions, d);
    FreshIsSound(m.db, i, d);
    InsertKeepsDecisions(m.db, d);
    if i.published {
      FreshReplays(m.db, i, d);
    }
    InsertKeepsReplays(m.db, m.onPublished, i, d);
    InsertKeepsKeys(m.db.decisions, m.onPublished, i, d);
    InsertKeepsEvaluations(m.db, m.evaluations, worker, i, d);
  }

  lemma BecomeKeepsMachine(m: Machine, worker: nat, e: Evaluation)
    requires MachineInv(m) && EvaluationSound(m.db, e)
    ensures MachineInv(Become(m, worker, e))
  {
  }

  lemma CollisionEffect(m: Machine, worker: nat, i: Inputs, d: Decision)
    requires InputsSound(m.db, i) && d.tenant == i.request.tenant && d.key == KeyOf(i) && !Write(m.db, i, d).1.Done?
    ensures WriteStep(m, worker, i, d) == Become(m, worker, Write(m.db, i, d).1)
    ensures EvaluationSound(m.db, Write(m.db, i, d).1)
  {
  }

  lemma WriteKeepsMachine(m: Machine, worker: nat, i: Inputs, d: Decision)
    requires MachineInv(m) && InputsSound(m.db, i) && Fresh(i, d)
    ensures MachineInv(WriteStep(m, worker, i, d))
  {
    if Write(m.db, i, d).1.Done? {
      InsertKeepsMachine(m, worker, i, d);
    } else {
      CollisionEffect(m, worker, i, d);
      BecomeKeepsMachine(m, worker, Write(m.db, i, d).1);
    }
  }

  lemma ReadsKeepsMachine(m: Machine, w: nat, facts: Facts, rules: seq<Dict>, criteria: seq<Dict>)
    requires MachineInv(m)
    ensures MachineInv(Next(m, Reads(w, facts, rules, criteria)))
  {
    if w in m.evaluations && RowsReturned(m.db, m.evaluations[w], facts, rules, criteria) {
      assert EvaluationSound(m.db, m.evaluations[w]);
      LoadSound(m.db, m.evaluations[w], facts, rules, criteria);
      BecomeKeepsMachine(m, w, Load(m.db, m.evaluations[w], facts, rules, criteria));
    }
  }

  lemma LooksKeepsMachine(m: Machine, w: nat)
    requires MachineInv(m)
    ensures MachineInv(Next(m, Looks(w)))
  {
    if w in m.evaluations && m.evaluations[w].Loaded? {
      assert EvaluationSound(m.db, m.evaluations[w]);
      LookSound(m.db, m.evaluations[w].inputs);
      BecomeKeepsMachine(m, w, Look(m.db, m.evaluations[w].inputs));
    }
  }

  lemma RecoversKeepsMachine(m: Machine, w: nat)
    requires MachineInv(m)
    ensures MachineInv(Next(m, Recovers(w)))
  {
    if w in m.evaluations && m.evaluations[w].Collided? {
      assert EvaluationSound(m.db, m.evaluations[w]);
      RecoverSound(m.db, m.evaluations[w].inputs);
      BecomeKeepsMachine(m, w, Recover(m.db, m.evaluations[w].inputs));
    }
  }

  lemma BeginsKeepsMachine(m: Machine, w: nat, request: Request, time: int)
    requires MachineInv(m)
    ensures MachineInv(Next(m, Begins(w, request, time)))
  {
    ChooseSound(m.db, request, time);
    BecomeKeepsMachine(m, w, Choose(m.db, request, time));
  }

  lemma WritesKeepsMachine(m: Machine, w: nat)
    requires MachineInv(m)
    ensures MachineInv(Next(m, Writes(w)))
  {
    if w in m.evaluations && m.evaluations[w].Missed? {
      assert EvaluationSound(m.db, m.evaluations[w]);
      WriteKeepsMachine(m, w, m.evaluations[w].inputs, m.evaluations[w].decision);
    }
  }

  /** Every step of every interleaving keeps the invariant. */
  lemma NextKeepsMachine(m: Machine, s: Step)
    requires MachineInv(m)
    ensures MachineInv(Next(m, s))
  {
    match s
    case Command(c) => CommandKeepsMachine(m, c);
    case Begins(w, request, time) => BeginsKeepsMachine(m, w, request, time);
    case Reads(w, facts, rules, criteria) => ReadsKeepsMachine(m, w, facts, rules, criteria);
    case Looks(w) => LooksKeepsMachine(m, w);
    case Writes(w) => WritesKeepsMachine(m, w);
    case Recovers(w) => RecoversKeepsMachine(m, w);
  }

  lemma {:induction false} ExecutionKeepsMachine(m: Machine, steps: seq<Step>)
    requires MachineInv(m)
    ensures MachineInv(Execution(m, steps))
    decreases |steps|
  {
    if steps != [] {
      NextKeepsMachine(m, steps[0]);
      ExecutionKeepsMachine(Next(m, steps[0]), steps[1..]);
    }
  }

  /** The states that some interleaving of commands and evaluations leads to. */
  ghost predicate Reachable(m: Machine) {
    exists students, opportunities, steps :: Execution(Initial(students, opportunities), steps) == m
  }

  lemma ReachableIsSound(m: Machine)
    requires Reachable(m)
    ensures MachineInv(m)
  {
    var students, opportunities, steps :| Execution(Initial(students, opportunities), steps) == m;
    ExecutionKeepsMachine(Initial(students, opportunities), steps);
  }

  // ---------- main results ----------

  /**
   * Replay: after any interleaving, every decision taken on a published requirement version is what its stored
   * snapshot evaluates to against the rules and criteria the tables hold now, with the same reasons up to order.
   */
  lemma ReplayGuarantee(m: Machine, d: Decision)
    requires Reachable(m) && d in m.db.decisions && (d.tenant, d.key) in m.onPublished
    ensures AgreesNow(m.db, d)
  {
    ReachableIsSound(m);
  }

  /** The row an evaluation ends with has its facts, its policy version and its requirement version. */
  lemma AnswerIsSound(m: Machine, w: nat)
    requires MachineInv(m) && w in m.evaluations && m.evaluations[w].Done?
    ensures var Done(i, d) := m.evaluations[w];
            InputsSound(m.db, i) && d in m.db.decisions &&
            d.snapshot == i.facts && d.policy == i.policy && d.requirement == i.request.requirement
  {
    assert EvaluationSound(m.db, m.evaluations[w]);
    var Done(i, d) := m.evaluations[w];
    assert DecisionSound(m.db, d);
    KeyInputInjective(d.snapshot, d.policy, d.requirement, i.facts, i.policy, i.request.requirement);
  }

  /**
   * A cache hit is a fresh evaluation: whichever row an evaluation ends with, inserted, looked up or recovered,
   * it is what the facts and rows that this evaluation read evaluate to.
   */
  lemma CacheHitIsFresh(m: Machine, w: nat)
    requires Reachable(m) && w in m.evaluations && m.evaluations[w].Done?
    requires var e := m.evaluations[w]; e.inputs.published && (e.decision.tenant, e.decision.key) in m.onPublished
    ensures var Done(i, d) := m.evaluations[w];
            SameDecided(Evaluate(Snapshot(i.facts), i.rules, i.criteria), Returned(Decided(d.verdict, d.reasons)))
  {
    ReachableIsSound(m);
    AnswerIsSound(m, w);
    var Done(i, d) := m.evaluations[w];
    AnswerAgrees(m.db, i, d);
  }

  lemma AnswerAgrees(db: Db, i: Inputs, d: Decision)
    requires InputsSound(db, i) && i.published && Replays(db, d)
    requires d.snapshot == i.facts && d.policy == i.policy && d.requirement == i.request.requirement
    ensures SameDecided(Evaluate(Snapshot(i.facts), i.rules, i.criteria), Returned(Decided(d.verdict, d.reasons)))
  {
    RowOrderIrrelevant(Snapshot(i.facts), i.rules, PolicyRows(db, i.policy), i.criteria, RequirementRows(db, i.request.requirement));
  }

  lemma SameRow(decisions: seq<Decision>, d: Decision, d': Decision)
    requires OneRowPerKey(decisions) && d in decisions && d' in decisions && d.tenant == d'.tenant && d.key == d'.key
    ensures d == d'
  {
  }

  lemma AnswerRow(m: Machine, w: nat)
    requires Reachable(m) && w in m.evaluations && m.evaluations[w].Done?
    ensures OneRowPerKey(m.db.decisions) && RowFor(m.db.decisions, m.evaluations[w].inputs, m.evaluations[w].decision)
  {
    ReachableIsSound(m);
    assert EvaluationSound(m.db, m.evaluations[w]);
  }

  /** The unique constraint holds, and two evaluations of one tenant that end with one key return one row. */
  lemma OneDecisionPerKey(m: Machine, w: nat, w': nat)
    requires Reachable(m) && w in m.evaluations && w' in m.evaluations
    requires m.evaluations[w].Done? && m.evaluations[w'].Done?
    requires m.evaluations[w].inputs.request.tenant == m.evaluations[w'].inputs.request.tenant
    requires KeyOf(m.evaluations[w].inputs) == KeyOf(m.evaluations[w'].inputs)
    ensures OneRowPerKey(m.db.decisions)
    ensures m.evaluations[w].decision == m.evaluations[w'].decision && m.evaluations[w].decision in m.db.decisions
  {
    AnswerRow(m, w);
    AnswerRow(m, w');
    SameRow(m.db.decisions, m.evaluations[w].decision, m.evaluations[w'].decision);
  }

  lemma RecoverFinds(db: Db, i: Inputs)
    requires InputsSound(db, i) && OneRowPerKey(db.decisions) && DecisionsSound(db)
    requires WithKey(db.decisions, i.request.tenant, KeyOf(i)) != []
    ensures Recover(db, i).Done? && RowFor(db.decisions, i, Recover(db, i).decision)
  {
    RecoverySeesTheTenantsRows(db, i);
    OneWithKey(db.decisions, i.request.tenant, KeyOf(i));
  }

  /** After a unique violation the fallback query finds the row of the evaluation's own tenant and key. */
  lemma RecoveryFindsTheRow(m: Machine, w: nat)
    requires Reachable(m) && w in m.evaluations && m.evaluations[w].Collided? && m.evaluations[w].duplicate
    ensures var e := Recover(m.db, m.evaluations[w].inputs);
            e.Done? && RowFor(m.db.decisions, m.evaluations[w].inputs, e.decision)
  {
    ReachableIsSound(m);
    assert EvaluationSound(m.db, m.evaluations[w]);
    RecoverFinds(m.db, m.evaluations[w].inputs);
  }

  /** In no interleaving does an evaluation meet two active policies or two decisions for its key. */
  lemma NeverAmbiguousAnswer(m: Machine, w: nat)
    requires Reachable(m) && w in m.evaluations
    ensures m.evaluations[w] !in {Failed(PolicyAmbiguity), Failed(DecisionAmbiguous)}
  {
    ReachableIsSound(m);
    assert EvaluationSound(m.db, m.evaluations[w]);
  }

  // ---------- evaluations by the agent ----------

  /** The agent asks for an evaluation only on a published requirement version; publication is for good. */
  predicate AgentStep(m: Machine, s: Step) {
    s.Reads? && s.worker in m.evaluations && m.evaluations[s.worker].Chosen? ==>
      IsPublished(m.db, m.evaluations[s.worker].request.requirement)
  }

  predicate AgentRun(m: Machine, steps: seq<Step>)
    decreases |steps|
  {
    steps != [] ==> AgentStep(m, steps[0]) && AgentRun(Next(m, steps[0]), steps[1..])
  }

  predicate ReadPublished(e: Evaluation) {
    e.Loaded? || e.Missed? || e.Collided? || e.Done? ==> e.inputs.published
  }

  predicate AllOnPublished(m: Machine) {
    (forall w | w in m.evaluations :: ReadPublished(m.evaluations[w])) &&
    (forall d | d in m.db.decisions :: (d.tenant, d.key) in m.onPublished)
  }

  lemma AgentCommandKeeps(m: Machine, c: PolicyRecords.Command)
    requires AllOnPublished(m)
    ensures AllOnPublished(Next(m, Command(c)))
  {
    ApplyGrows(m.db, c);
  }

  lemma AgentBeginKeeps(m: Machine, w: nat, request: Request, time: int)
    requires AllOnPublished(m)
    ensures AllOnPublished(Next(m, Begins(w, request, time)))
  {
  }

  lemma AgentRecoverKeeps(m: Machine, w: nat)
    requires AllOnPublished(m)
    ensures AllOnPublished(Next(m, Recovers(w)))
  {
  }

  lemma AgentStepKeeps(m: Machine, s: Step)
    requires AllOnPublished(m) && AgentStep(m, s)
    ensures AllOnPublished(Next(m, s))
  {
    match s
    case Command(c) => AgentCommandKeeps(m, c);
    case Begins(w, request, time) => AgentBeginKeeps(m, w, request, time);
    case Reads(w, facts, rules, criteria) => AgentReadKeeps(m, w, facts, rules, criteria);
    case Looks(w) => AgentLookKeeps(m, w);
    case Writes(w) => AgentWriteKeeps(m, w);
    case Recovers(w) => AgentRecoverKeeps(m, w);
  }

  lemma AgentReadKeeps(m: Machine, w: nat, facts: Facts, rules: seq<Dict>, criteria: seq<Dict>)
    requires AllOnPublished(m) && AgentStep(m, Reads(w, facts, rules, criteria))
    ensures AllOnPublished(Next(m, Reads(w, facts, rules, criteria)))
  {
  }

  lemma AgentLookKeeps(m: Machine, w: nat)
    requires AllOnPublished(m)
    ensures AllOnPublished(Next(m, Looks(w)))
  {
  }

  lemma AgentWriteKeeps(m: Machine, w: nat)
    requires AllOnPublished(m)
    ensures AllOnPublished(Next(m, Writes(w)))
  {
  }

  lemma {:induction false} AgentRunKeeps(m: Machine, steps: seq<Step>)
    requires AllOnPublished(m) && AgentRun(m, steps)
    ensures AllOnPublished(Execution(m, steps))
    decreases |steps|
  {
    if steps != [] {
      AgentStepKeeps(m, steps[0]);
      AgentRunKeeps(Next(m, steps[0]), steps[1..]);
    }
  }

  /** When all evaluations come from the agent, every answer is the fresh evaluation of what was read. */
  lemma AgentAnswersAreFresh(students: map<Uuid, Tenant>, opportunities: map<Uuid, Opportunity>, steps: seq<Step>, w: nat)
    requires AgentRun(Initial(students, opportunities), steps)
    requires var m := Execution(Initial(students, opportunities), steps); w in m.evaluations && m.evaluations[w].Done?
    ensures var Done(i, d) := Execution(Initial(students, opportunities), steps).evaluations[w];
            SameDecided(Evaluate(Snapshot(i.facts), i.rules, i.criteria), Returned(Decided(d.verdict, d.reasons)))
  {
    var m := Execution(Initial(students, opportunities), steps);
    AgentRunKeeps(Initial(students, opportunities), steps);
    ReachableIsSound(m);
    assert EvaluationSound(m.db, m.evaluations[w]) && ReadPublished(m.evaluations[w]);
    CacheHitIsFresh(m, w);
  }
}
