/**
 * The triggers that freeze rules and criteria, for statements of any client, beside the services that check the
 * same before they insert. A BEFORE trigger that returns NEW lets no delete through: NEW is null there.
 */
module DefinitionGuards {
  import opened Common
  import opened Json
  import opened Evaluator
  import opened EvaluatorProperties
  import opened EvaluationKey
  import opened PolicyRecords
  import opened PolicyLifecycle
  import opened DecisionCache
  import opened DecisionReplay
  import opened DecisionFreshness

  datatype Statement<T> = Insert(row: T) | Replace(at: nat, row: T) | Delete(at: nat)

  /** What the rule trigger asks of the version of a row. */
  predicate RulesOpen(versions: map<Uuid, PolicyVersion>, id: Uuid) {
    id !in versions || versions[id].status !in {Approved, Active}
  }

  /** What the criterion trigger asks of the requirement version of a row. */
  predicate CriteriaOpen(requirements: map<Uuid, RequirementVersion>, id: Uuid) {
    id !in requirements || requirements[id].publishedAt.None?
  }

  function Without<T>(rows: seq<T>, i: nat): seq<T>
    requires i < |rows|
  {
    rows[..i] + rows[i + 1..]
  }

  /** For an update the trigger looks at the version the row had, not at the one it gets. */
  function RawRule(versions: map<Uuid, PolicyVersion>, rules: seq<PolicyRule>, s: Statement<PolicyRule>): Option<seq<PolicyRule>> {
    match s
    case Insert(r) =>
      if RulesOpen(versions, r.policyVersion) && r.policyVersion in versions && RuleAllowed(rules, r)
      then Some(rules + [r]) else None
    case Replace(i, r) =>
      if i < |rules| && RulesOpen(versions, rules[i].policyVersion) &&
         r.policyVersion in versions && RuleAllowed(Without(rules, i), r)
      then Some(rules[i := r]) else None
    case Delete(i) => if i < |rules| && RulesOpen(versions, rules[i].policyVersion) then Some(rules) else None
  }

  function RawCriterion(
    requirements: map<Uuid, RequirementVersion>, criteria: seq<Criterion>, s: Statement<Criterion>): Option<seq<Criterion>>
  {
    match s
    case Insert(c) =>
      if CriteriaOpen(requirements, c.requirementVersion) && c.requirementVersion in requirements && CriterionAllowed(criteria, c)
      then Some(criteria + [c]) else None
    case Replace(i, c) =>
      if i < |criteria| && CriteriaOpen(requirements, criteria[i].requirementVersion) &&
         c.requirementVersion in requirements && CriterionAllowed(Without(criteria, i), c)
      then Some(criteria[i := c]) else None
    case Delete(i) => if i < |criteria| && CriteriaOpen(requirements, criteria[i].requirementVersion) then Some(criteria) else None
  }

  // ---------- triggers against services ----------

  /** The service is the stricter one: the trigger also admits rules in REVIEW and ARCHIVED, and nothing else besides. */
  lemma RuleTriggerExceedsServiceIff(db: Db, tenant: Tenant, r: PolicyRule)
    requires Owns(tenant, db.versions, r.policyVersion)
    ensures var (db', reply) := AddPolicyRule(db, tenant, r.policyVersion, r.code, r.definition);
            var raw := RawRule(db.versions, db.rules, Insert(r));
            (reply == Ok ==> raw == Some(db'.rules)) &&
            (raw.Some? && reply != Ok <==> RuleAllowed(db.rules, r) && db.versions[r.policyVersion].status in {Review, Archived})
  {
  }

  lemma CriterionTriggerIsServiceRule(db: Db, tenant: Tenant, c: Criterion)
    requires c.requirementVersion in db.requirements && db.requirements[c.requirementVersion].tenant == tenant
    ensures var (db', reply) := AddRequirementCriterion(db, tenant, c);
            RawCriterion(db.requirements, db.criteria, Insert(c)) == if reply == Ok then Some(db'.criteria) else None
  {
  }

  // ---------- what the triggers keep ----------

  lemma {:induction false} ReplacedRules(rules: seq<PolicyRule>, i: nat, r: PolicyRule, id: Uuid)
    requires i < |rules|
    ensures |RulesOf(rules[i := r], id)| ==
              |RulesOf(rules, id)| + (if r.policyVersion == id then 1 else 0) - if rules[i].policyVersion == id then 1 else 0
    ensures r.policyVersion != id && rules[i].policyVersion != id ==> RulesOf(rules[i := r], id) == RulesOf(rules, id)
    decreases |rules|
  {
    var n := |rules| - 1;
    if i == n {
      assert rules[i := r][..n] == rules[..n];
    } else {
      ReplacedRules(rules[..n], i, r, id);
      assert rules[i := r][..n] == rules[..n][i := r];
    }
  }

  lemma {:induction false} ReplacedCriteria(criteria: seq<Criterion>, i: nat, c: Criterion, id: Uuid)
    requires i < |criteria|
    ensures |CriteriaOf(criteria[i := c], id)| ==
              |CriteriaOf(criteria, id)| + (if c.requirementVersion == id then 1 else 0) -
              if criteria[i].requirementVersion == id then 1 else 0
    ensures c.requirementVersion != id && criteria[i].requirementVersion != id ==>
              CriteriaOf(criteria[i := c], id) == CriteriaOf(criteria, id)
    decreases |criteria|
  {
    var n := |criteria| - 1;
    if i == n {
      assert criteria[i := c][..n] == criteria[..n];
    } else {
      ReplacedCriteria(criteria[..n], i, c, id);
      assert criteria[i := c][..n] == criteria[..n][i := c];
    }
  }

  /**
   * Whoever issues it, a statement leaves the rules of an APPROVED or ACTIVE version as they are unless it moves a
   * rule of another version into it; that one update is not refused, and adds a rule.
   */
  lemma RulesKeptIff(versions: map<Uuid, PolicyVersion>, rules: seq<PolicyRule>, s: Statement<PolicyRule>, id: Uuid)
    requires !RulesOpen(versions, id) && RawRule(versions, rules, s).Some?
    ensures var rules' := RawRule(versions, rules, s).value;
            if s.Replace? && s.row.policyVersion == id then |RulesOf(rules', id)| == |RulesOf(rules, id)| + 1
            else RulesOf(rules', id) == RulesOf(rules, id)
  {
    match s
    case Insert(r) => RulesOfAppend(rules, r, id);
    case Replace(i, r) => ReplacedRules(rules, i, r, id);
    case Delete(_) =>
  }

  /** A concrete one: a rule of a draft is moved into an ACTIVE version. */
  lemma MovedRuleIsAdmitted(draft: Uuid, active: Uuid, code: string, definition: Dict)
    requires draft != active
    ensures var versions := map[draft := PolicyVersion(1, 0, SCOPE, Draft), active := PolicyVersion(1, 0, SCOPE, Active)];
            var moved := PolicyRule(active, code, definition);
            RawRule(versions, [PolicyRule(draft, code, definition)], Replace(0, moved)) == Some([moved]) &&
            RulesOf([PolicyRule(draft, code, definition)], active) == [] && RulesOf([moved], active) == [moved]
  {
    var was, moved := PolicyRule(draft, code, definition), PolicyRule(active, code, definition);
    assert [was][..0] == [] && [moved][..0] == [] && [was][0 := moved] == [moved];
    assert [was][..0] + [was][1..] == [];
  }

  /** The same for the criteria of a published requirement version. */
  lemma CriteriaKeptIff(requirements: map<Uuid, RequirementVersion>, criteria: seq<Criterion>, s: Statement<Criterion>, id: Uuid)
    requires !CriteriaOpen(requirements, id) && RawCriterion(requirements, criteria, s).Some?
    ensures var criteria' := RawCriterion(requirements, criteria, s).value;
            if s.Replace? && s.row.requirementVersion == id then |CriteriaOf(criteria', id)| == |CriteriaOf(criteria, id)| + 1
            else CriteriaOf(criteria', id) == CriteriaOf(criteria, id)
  {
    match s
    case Insert(c) => CriteriaOfAppend(criteria, c, id);
    case Replace(i, c) => ReplacedCriteria(criteria, i, c, id);
    case Delete(_) =>
  }

  // ---------- stale decisions ----------

  lemma {:induction false} EveryRuleApplies(rows: seq<Dict>)
    ensures Applicable(rows, Policy) == |rows|
  {
    if rows != [] {
      EveryRuleApplies(rows[1..]);
    }
  }

  lemma PolicyReasons(snapshot: Dict, rules: seq<Dict>, criteria: seq<Dict>)
    requires Evaluate(snapshot, rules, criteria).Returned?
    ensures ReasonsIn(Evaluate(snapshot, rules, criteria).value.reasons, Policy) == |rules|
  {
    OneReasonEach(criteria, snapshot, Requirement, Policy);
    OneReasonEach(rules, snapshot, Policy, Policy);
    EveryRuleApplies(rules);
    ReasonsInConcat(DomainReasons(criteria, snapshot, Requirement).value, DomainReasons(rules, snapshot, Policy).value, Policy);
  }

  lemma AgreementCountsRules(db: Db, d: Decision)
    requires AgreesNow(db, d)
    ensures ReasonsIn(d.reasons, Policy) == |RulesOf(db.rules, d.policy)|
  {
    var rules, criteria := PolicyRows(db, d.policy), RequirementRows(db, d.requirement);
    PolicyReasons(Snapshot(d.snapshot), rules, criteria);
    ReasonsInPermutation(Evaluate(Snapshot(d.snapshot), rules, criteria).value.reasons, d.reasons, Policy);
  }

  /** One rule more or less always shows. */
  lemma OtherCountDisagrees(db: Db, rules: seq<PolicyRule>, d: Decision)
    requires AgreesNow(db, d) && |RulesOf(rules, d.policy)| != |RulesOf(db.rules, d.policy)|
    ensures !AgreesNow(db.(rules := rules), d)
  {
    AgreementCountsRules(db, d);
    if AgreesNow(db.(rules := rules), d) {
      AgreementCountsRules(db.(rules := rules), d);
    }
  }

  lemma SameRulesAgree(db: Db, rules: seq<PolicyRule>, d: Decision)
    requires AgreesNow(db, d) && RulesOf(rules, d.policy) == RulesOf(db.rules, d.policy)
    ensures AgreesNow(db.(rules := rules), d)
  {
  }

  lemma {:induction false} UnusedRuleCode(rules: seq<PolicyRule>) returns (code: string)
    ensures forall r | r in rules :: |r.code| < |code|
  {
    if rules == [] {
      code := "";
    } else {
      var shorter := UnusedRuleCode(rules[1..]);
      code := shorter + rules[0].code + "x";
      assert rules == [rules[0]] + rules[1..];
    }
  }

  predicate Stales(db: Db, d: Decision, s: Statement<PolicyRule>) {
    RawRule(db.versions, db.rules, s).Some? && !AgreesNow(db.(rules := RawRule(db.versions, db.rules, s).value), d)
  }

  lemma OneRuleMore(rules: seq<PolicyRule>, r: PolicyRule)
    requires forall q | q in rules :: |q.code| < |r.code|
    ensures RuleAllowed(rules, r) && |RulesOf(rules + [r], r.policyVersion)| == |RulesOf(rules, r.policyVersion)| + 1
  {
    RulesOfAppend(rules, r, r.policyVersion);
  }

  lemma InsertStales(db: Db, d: Decision) returns (s: Statement<PolicyRule>)
    requires AgreesNow(db, d) && d.policy in db.versions && RulesOpen(db.versions, d.policy)
    ensures s.Insert? && Stales(db, d, s)
  {
    var code := UnusedRuleCode(db.rules);
    var r := PolicyRule(d.policy, code, map[]);
    s := Insert(r);
    OneRuleMore(db.rules, r);
    OtherCountDisagrees(db, db.rules + [r], d);
  }

  lemma MoveStales(db: Db, d: Decision, i: nat) returns (s: Statement<PolicyRule>)
    requires AgreesNow(db, d) && d.policy in db.versions && !RulesOpen(db.versions, d.policy)
    requires i < |db.rules| && RulesOpen(db.versions, db.rules[i].policyVersion)
    ensures s.Replace? && Stales(db, d, s)
  {
    var code := UnusedRuleCode(db.rules);
    var r := PolicyRule(d.policy, code, map[]);
    s := Replace(i, r);
    assert forall q | q in Without(db.rules, i) :: q in db.rules;
    ReplacedRules(db.rules, i, r, d.policy);
    OtherCountDisagrees(db, db.rules[i := r], d);
  }

  lemma ClosedStays(db: Db, d: Decision, s: Statement<PolicyRule>)
    requires AgreesNow(db, d) && !RulesOpen(db.versions, d.policy)
    requires s.Replace? ==> forall r | r in db.rules :: !RulesOpen(db.versions, r.policyVersion)
    ensures !Stales(db, d, s)
  {
    if RawRule(db.versions, db.rules, s).Some? {
      RulesKeptIff(db.versions, db.rules, s, d.policy);
      SameRulesAgree(db, RawRule(db.versions, db.rules, s).value, d);
    }
  }

  predicate SomeOpenRule(versions: map<Uuid, PolicyVersion>, rules: seq<PolicyRule>) {
    exists r | r in rules :: RulesOpen(versions, r.policyVersion)
  }

  lemma InsertStalesIff(db: Db, d: Decision)
    requires AgreesNow(db, d) && DecisionSound(db, d)
    ensures (exists s: Statement<PolicyRule> :: s.Insert? && Stales(db, d, s)) <==> RulesOpen(db.versions, d.policy)
  {
    if RulesOpen(db.versions, d.policy) {
      var s := InsertStales(db, d);
    } else {
      forall s: Statement<PolicyRule> | s.Insert? ensures !Stales(db, d, s) {
        ClosedStays(db, d, s);
      }
    }
  }

  lemma AnyStalesIff(db: Db, d: Decision)
    requires AgreesNow(db, d) && DecisionSound(db, d) && !RulesOpen(db.versions, d.policy)
    ensures (exists s: Statement<PolicyRule> :: Stales(db, d, s)) <==> SomeOpenRule(db.versions, db.rules)
  {
    if SomeOpenRule(db.versions, db.rules) {
      var r :| r in db.rules && RulesOpen(db.versions, r.policyVersion);
      var i :| 0 <= i < |db.rules| && db.rules[i] == r;
      var s := MoveStales(db, d, i);
    } else {
      forall s: Statement<PolicyRule> ensures !Stales(db, d, s) {
        ClosedStays(db, d, s);
      }
    }
  }

  /**
   * A rule inserted past the service turns an agreeing decision stale exactly when the trigger does not protect its
   * policy, as after archiving. Some statement does exactly when, otherwise, there is a rule of an unprotected
   * version that can be moved.
   */
  lemma StatementStalesIff(m: Machine, d: Decision)
    requires Reachable(m) && d in m.db.decisions && AgreesNow(m.db, d)
    ensures (exists s: Statement<PolicyRule> :: s.Insert? && Stales(m.db, d, s)) <==> RulesOpen(m.db.versions, d.policy)
    ensures (exists s: Statement<PolicyRule> :: Stales(m.db, d, s)) <==>
              RulesOpen(m.db.versions, d.policy) || SomeOpenRule(m.db.versions, m.db.rules)
  {
    StoredDecisionIsSound(m, d);
    InsertStalesIff(m.db, d);
    if !RulesOpen(m.db.versions, d.policy) {
      AnyStalesIff(m.db, d);
    }
  }
}
