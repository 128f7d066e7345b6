/**
 * Exactly when a stored decision agrees with the tables, and an answer with a fresh evaluation. Criteria are only
 * ever appended, so whatever an evaluation read is a first part of the rows there are now.
 */
module DecisionFreshness {
  import opened Common
  import opened Json
  import opened Evaluator
  import opened EvaluatorProperties
  import opened EvaluationKey
  import opened PolicyRecords
  import opened PolicyLifecycle
  import opened DecisionCache
  import opened DecisionReplay

  // ---------- reasons and applicable rows ----------

  function Applicable(rows: seq<Dict>, domain: Domain): nat {
    if rows == [] then 0 else (if Applies(rows[0], domain) then 1 else 0) + Applicable(rows[1..], domain)
  }

  function ReasonsIn(reasons: seq<Reason>, domain: Domain): nat {
    if reasons == [] then 0 else (if reasons[0].domain == domain then 1 else 0) + ReasonsIn(reasons[1..], domain)
  }

  lemma {:induction false} ApplicableConcat(a: seq<Dict>, b: seq<Dict>, domain: Domain)
    ensures Applicable(a + b, domain) == Applicable(a, domain) + Applicable(b, domain)
  {
    if a == [] {
      assert a + b == b;
    } else {
      assert (a + b)[1..] == a[1..] + b;
      ApplicableConcat(a[1..], b, domain);
    }
  }

  lemma {:induction false} ReasonsInConcat(a: seq<Reason>, b: seq<Reason>, domain: Domain)
    ensures ReasonsIn(a + b, domain) == ReasonsIn(a, domain) + ReasonsIn(b, domain)
  {
    if a == [] {
      assert a + b == b;
    } else {
      assert (a + b)[1..] == a[1..] + b;
      ReasonsInConcat(a[1..], b, domain);
    }
  }

  lemma {:induction false} ReasonsInPermutation(a: seq<Reason>, b: seq<Reason>, domain: Domain)
    requires multiset(a) == multiset(b)
    ensures ReasonsIn(a, domain) == ReasonsIn(b, domain)
  {
    if a == [] {
      assert |multiset(b)| == 0;
    } else {
      var i := FirstInPermutation(a, b);
      ReasonsInPermutation(a[1..], b[..i] + b[i + 1..], domain);
      ReasonsInConcat(b[..i], b[i + 1..], domain);
      ReasonsInConcat(b[..i], [b[i]] + b[i + 1..], domain);
      assert b == b[..i] + ([b[i]] + b[i + 1..]);
      assert ([b[i]] + b[i + 1..])[1..] == b[i + 1..];
    }
  }

  /** Each applicable row gives one reason of its domain, and the other rows none. */
  lemma {:induction false} OneReasonEach(rows: seq<Dict>, snapshot: Dict, domain: Domain, asked: Domain)
    requires DomainReasons(rows, snapshot, domain).Returned?
    ensures ReasonsIn(DomainReasons(rows, snapshot, domain).value, asked) == if asked == domain then Applicable(rows, domain) else 0
  {
    if rows != [] {
      var first, rest := RowReasons(rows[0], snapshot, domain), DomainReasons(rows[1..], snapshot, domain);
      OneReasonEach(rows[1..], snapshot, domain, asked);
      ReasonsInConcat(first.value, rest.value, asked);
      assert first.value == [] || first.value[1..] == [];
    }
  }

  lemma RequirementReasons(snapshot: Dict, rules: seq<Dict>, criteria: seq<Dict>)
    requires Evaluate(snapshot, rules, criteria).Returned?
    ensures ReasonsIn(Evaluate(snapshot, rules, criteria).value.reasons, Requirement) == Applicable(criteria, Requirement)
  {
    OneReasonEach(criteria, snapshot, Requirement, Requirement);
    OneReasonEach(rules, snapshot, Policy, Requirement);
    ReasonsInConcat(DomainReasons(criteria, snapshot, Requirement).value,
                    DomainReasons(rules, snapshot, Policy).value, Requirement);
  }

  lemma {:induction false} InapplicableRows(rows: seq<Dict>, snapshot: Dict, domain: Domain)
    requires Applicable(rows, domain) == 0
    ensures DomainReasons(rows, snapshot, domain) == Returned([])
  {
    if rows != [] {
      InapplicableRows(rows[1..], snapshot, domain);
    }
  }

  lemma MoreInapplicable(snapshot: Dict, rules: seq<Dict>, criteria: seq<Dict>, extra: seq<Dict>)
    requires Applicable(extra, Requirement) == 0
    ensures Evaluate(snapshot, rules, criteria + extra) == Evaluate(snapshot, rules, criteria)
  {
    InapplicableRows(extra, snapshot, Requirement);
    DomainReasonsConcat(criteria, extra, snapshot, Requirement);
  }

  lemma SameCountSameResult(snapshot: Dict, rules: seq<Dict>, rows: seq<Dict>, n: nat, k: nat)
    requires n <= k <= |rows| && Applicable(rows[..n], Requirement) == Applicable(rows[..k], Requirement)
    ensures Evaluate(snapshot, rules, rows[..n]) == Evaluate(snapshot, rules, rows[..k])
  {
    assert rows[..k] == rows[..n] + rows[n..k];
    ApplicableConcat(rows[..n], rows[n..k], Requirement);
    MoreInapplicable(snapshot, rules, rows[..n], rows[n..k]);
  }

  /** Of two first parts of one list of criteria, one decides as the other iff as many criteria apply in both. */
  lemma FirstPartsAgreeIff(snapshot: Dict, rules: seq<Dict>, rows: seq<Dict>, n: nat, k: nat, decided: Decided)
    requires n <= |rows| && k <= |rows| && SameDecided(Evaluate(snapshot, rules, rows[..n]), Returned(decided))
    ensures SameDecided(Evaluate(snapshot, rules, rows[..k]), Returned(decided)) <==>
              ReasonsIn(decided.reasons, Requirement) == Applicable(rows[..k], Requirement)
  {
    var first, other := Evaluate(snapshot, rules, rows[..n]), Evaluate(snapshot, rules, rows[..k]);
    RequirementReasons(snapshot, rules, rows[..n]);
    ReasonsInPermutation(first.value.reasons, decided.reasons, Requirement);
    if ReasonsIn(decided.reasons, Requirement) == Applicable(rows[..k], Requirement) {
      if n <= k {
        SameCountSameResult(snapshot, rules, rows, n, k);
      } else {
        SameCountSameResult(snapshot, rules, rows, k, n);
      }
    } else if SameDecided(other, Returned(decided)) {
      RequirementReasons(snapshot, rules, rows[..k]);
      ReasonsInPermutation(other.value.reasons, decided.reasons, Requirement);
    }
  }

  // ---------- what was read is a first part of what there is ----------

  predicate ReadAt(db: Db, requirement: Uuid, criteria: seq<Dict>) {
    exists n | 0 <= n <= |RequirementRows(db, requirement)| ::
      multiset(criteria) == multiset(RequirementRows(db, requirement)[..n])
  }

  predicate DecidedAt(db: Db, d: Decision, n: nat)
    requires n <= |RequirementRows(db, d.requirement)|
  {
    SameDecided(Evaluate(Snapshot(d.snapshot), PolicyRows(db, d.policy), RequirementRows(db, d.requirement)[..n]),
                Returned(Decided(d.verdict, d.reasons)))
  }

  predicate Grounded(db: Db, d: Decision) {
    exists n | 0 <= n <= |RequirementRows(db, d.requirement)| :: DecidedAt(db, d, n)
  }

  predicate HasRead(e: Evaluation) {
    e.Loaded? || e.Missed? || e.Collided? || e.Done?
  }

  predicate DecisionsGrounded(db: Db) {
    forall d | d in db.decisions :: Grounded(db, d)
  }

  predicate EvaluationGrounded(db: Db, e: Evaluation) {
    HasRead(e) ==> ReadAt(db, e.inputs.request.requirement, e.inputs.criteria)
  }

  predicate EvaluationsGrounded(db: Db, evaluations: map<nat, Evaluation>) {
    forall w | w in evaluations :: EvaluationGrounded(db, evaluations[w])
  }

  predicate AllGrounded(m: Machine) {
    DecisionsGrounded(m.db) && EvaluationsGrounded(m.db, m.evaluations)
  }

  lemma {:induction false} RowsOfFirstPart(criteria: seq<Criterion>, more: seq<Criterion>, id: Uuid)
    ensures CriteriaOf(criteria, id) <= CriteriaOf(criteria + more, id)
    decreases |more|
  {
    if more == [] {
      assert criteria + more == criteria;
    } else {
      var n := |more| - 1;
      RowsOfFirstPart(criteria, more[..n], id);
      assert (criteria + more)[..|criteria| + n] == criteria + more[..n];
    }
  }

  lemma RowsGrow(db: Db, db': Db, id: Uuid)
    requires db.criteria <= db'.criteria
    ensures RequirementRows(db, id) <= RequirementRows(db', id)
  {
    RowsOfFirstPart(db.criteria, db'.criteria[|db.criteria|..], id);
    assert db.criteria + db'.criteria[|db.criteria|..] == db'.criteria;
  }

  lemma ApplyAppendsCriteria(db: Db, c: PolicyRecords.Command)
    ensures db.criteria <= Apply(db, c).0.criteria
  {
  }

  lemma GroundedStays(db: Db, db': Db, d: Decision)
    requires Grounded(db, d) && db.criteria <= db'.criteria && PolicyRows(db', d.policy) == PolicyRows(db, d.policy)
    ensures Grounded(db', d)
  {
    var n :| 0 <= n <= |RequirementRows(db, d.requirement)| && DecidedAt(db, d, n);
    RowsGrow(db, db', d.requirement);
    assert RequirementRows(db', d.requirement)[..n] == RequirementRows(db, d.requirement)[..n];
    assert DecidedAt(db', d, n);
  }

  lemma ReadAtStays(db: Db, db': Db, requirement: Uuid, criteria: seq<Dict>)
    requires ReadAt(db, requirement, criteria) && db.criteria <= db'.criteria
    ensures ReadAt(db', requirement, criteria)
  {
    var n :| 0 <= n <= |RequirementRows(db, requirement)| && multiset(criteria) == multiset(RequirementRows(db, requirement)[..n]);
    RowsGrow(db, db', requirement);
    assert RequirementRows(db', requirement)[..n] == RequirementRows(db, requirement)[..n];
  }

  lemma FreshIsGrounded(db: Db, i: Inputs, d: Decision)
    requires InputsSound(db, i) && Fresh(i, d) && ReadAt(db, i.request.requirement, i.criteria)
    ensures Grounded(db, d)
  {
    var rows := RequirementRows(db, i.request.requirement);
    var n :| 0 <= n <= |rows| && multiset(i.criteria) == multiset(rows[..n]);
    RowOrderIrrelevant(Snapshot(i.facts), i.rules, PolicyRows(db, i.policy), i.criteria, rows[..n]);
    assert DecidedAt(db, d, n);
  }

  lemma GrowthKeepsGrounded(db: Db, db': Db)
    requires DecisionsGrounded(db) && Grows(db, db') && db.criteria <= db'.criteria && DecisionsSound(db)
    ensures DecisionsGrounded(db')
  {
    forall d | d in db'.decisions ensures Grounded(db', d) {
      assert DecisionSound(db, d);
      GroundedStays(db, db', d);
    }
  }

  lemma GrowthKeepsReads(db: Db, db': Db, evaluations: map<nat, Evaluation>)
    requires EvaluationsGrounded(db, evaluations) && db.criteria <= db'.criteria
    ensures EvaluationsGrounded(db', evaluations)
  {
    forall w | w in evaluations && HasRead(evaluations[w]) ensures EvaluationGrounded(db', evaluations[w]) {
      assert EvaluationGrounded(db, evaluations[w]);
      ReadAtStays(db, db', evaluations[w].inputs.request.requirement, evaluations[w].inputs.criteria);
    }
  }

  lemma CommandKeepsGrounded(m: Machine, c: PolicyRecords.Command)
    requires MachineInv(m) && AllGrounded(m)
    ensures AllGrounded(Next(m, Command(c)))
  {
    var db' := Apply(m.db, c).0;
    ApplyGrows(m.db, c);
    ApplyAppendsCriteria(m.db, c);
    GrowthKeepsGrounded(m.db, db');
    GrowthKeepsReads(m.db, db', m.evaluations);
  }

  lemma BecomeKeepsGrounded(m: Machine, w: nat, e: Evaluation)
    requires AllGrounded(m) && EvaluationGrounded(m.db, e)
    ensures AllGrounded(Become(m, w, e))
  {
  }

  lemma LoadIsGrounded(db: Db, e: Evaluation, facts: Facts, rules: seq<Dict>, criteria: seq<Dict>)
    requires RowsReturned(db, e, facts, rules, criteria)
    ensures EvaluationGrounded(db, Load(db, e, facts, rules, criteria))
  {
    var rows := RequirementRows(db, e.request.requirement);
    assert rows[..|rows|] == rows;
    assert ReadAt(db, e.request.requirement, criteria);
  }

  lemma ReadsKeepsGrounded(m: Machine, w: nat, facts: Facts, rules: seq<Dict>, criteria: seq<Dict>)
    requires AllGrounded(m)
    ensures AllGrounded(Next(m, Reads(w, facts, rules, criteria)))
  {
    if w in m.evaluations && RowsReturned(m.db, m.evaluations[w], facts, rules, criteria) {
      LoadIsGrounded(m.db, m.evaluations[w], facts, rules, criteria);
      BecomeKeepsGrounded(m, w, Load(m.db, m.evaluations[w], facts, rules, criteria));
    }
  }

  lemma LookIsGrounded(db: Db, i: Inputs)
    requires ReadAt(db, i.request.requirement, i.criteria)
    ensures EvaluationGrounded(db, Look(db, i))
  {
  }

  lemma RecoverIsGrounded(db: Db, i: Inputs)
    requires ReadAt(db, i.request.requirement, i.criteria)
    ensures EvaluationGrounded(db, Recover(db, i))
  {
  }

  lemma LooksKeepsGrounded(m: Machine, w: nat)
    requires AllGrounded(m)
    ensures AllGrounded(Next(m, Looks(w)))
  {
    if w in m.evaluations && m.evaluations[w].Loaded? {
      var i := m.evaluations[w].inputs;
      assert EvaluationGrounded(m.db, m.evaluations[w]);
      LookIsGrounded(m.db, i);
      BecomeKeepsGrounded(m, w, Look(m.db, i));
    }
  }

  lemma RecoverStepKeeps(m: Machine, w: nat, i: Inputs)
    requires AllGrounded(m) && ReadAt(m.db, i.request.requirement, i.criteria)
    ensures AllGrounded(Become(m, w, Recover(m.db, i)))
  {
    RecoverIsGrounded(m.db, i);
    BecomeKeepsGrounded(m, w, Recover(m.db, i));
  }

  lemma RecoversKeepsGrounded(m: Machine, w: nat)
    requires AllGrounded(m)
    ensures AllGrounded(Next(m, Recovers(w)))
  {
    if w in m.evaluations && m.evaluations[w].Collided? {
      var i := m.evaluations[w].inputs;
      assert EvaluationGrounded(m.db, m.evaluations[w]);
      RecoverStepKeeps(m, w, i);
    }
  }

  lemma BeginsKeepsGrounded(m: Machine, w: nat, request: Request, time: int)
    requires AllGrounded(m)
    ensures AllGrounded(Next(m, Begins(w, request, time)))
  {
    BecomeKeepsGrounded(m, w, Choose(m.db, request, time));
  }

  lemma InsertKeepsGrounded(db: Db, d: Decision, c: Decision)
    requires Grounded(db, c)
    ensures Grounded(db.(decisions := db.decisions + [d]), c)
  {
    GroundedStays(db, db.(decisions := db.decisions + [d]), c);
  }

  lemma InsertKeepsDecisions(db: Db, d: Decision)
    requires DecisionsGrounded(db) && Grounded(db, d)
    ensures DecisionsGrounded(db.(decisions := db.decisions + [d]))
  {
    forall c | c in db.decisions + [d] ensures Grounded(db.(decisions := db.decisions + [d]), c) {
      InsertKeepsGrounded(db, d, c);
    }
  }

  lemma WriteKeepsDecisions(db: Db, i: Inputs, d: Decision)
    requires DecisionsGrounded(db) && InputsSound(db, i) && Fresh(i, d) && ReadAt(db, i.request.requirement, i.criteria)
    ensures DecisionsGrounded(Write(db, i, d).0)
  {
    FreshIsGrounded(db, i, d);
    InsertKeepsDecisions(db, d);
  }

  lemma WriteKeepsInputs(db: Db, i: Inputs, d: Decision)
    ensures var (db', e) := Write(db, i, d); db'.criteria == db.criteria && (HasRead(e) ==> e.inputs == i)
  {
  }

  lemma WriteKeepsGrounded(m: Machine, w: nat, i: Inputs, d: Decision)
    requires AllGrounded(m) && InputsSound(m.db, i) && Fresh(i, d) && ReadAt(m.db, i.request.requirement, i.criteria)
    ensures AllGrounded(WriteStep(m, w, i, d))
  {
    var (db', e) := Write(m.db, i, d);
    WriteKeepsDecisions(m.db, i, d);
    WriteKeepsInputs(m.db, i, d);
    BecomeKeepsGrounded(m, w, e);
    GrowthKeepsReads(m.db, db', m.evaluations[w := e]);
  }

  lemma WritesKeepsGrounded(m: Machine, w: nat)
    requires MachineInv(m) && AllGrounded(m)
    ensures AllGrounded(Next(m, Writes(w)))
  {
    if w in m.evaluations && m.evaluations[w].Missed? {
      assert EvaluationSound(m.db, m.evaluations[w]) && EvaluationGrounded(m.db, m.evaluations[w]);
      WriteKeepsGrounded(m, w, m.evaluations[w].inputs, m.evaluations[w].decision);
    }
  }

  lemma NextKeepsGrounded(m: Machine, s: Step)
    requires MachineInv(m) && AllGrounded(m)
    ensures AllGrounded(Next(m, s))
  {
    match s
    case Command(c) => CommandKeepsGrounded(m, c);
    case Begins(w, request, time) => BeginsKeepsGrounded(m, w, request, time);
    case Reads(w, facts, rules, criteria) => ReadsKeepsGrounded(m, w, facts, rules, criteria);
    case Looks(w) => LooksKeepsGrounded(m, w);
    case Writes(w) => WritesKeepsGrounded(m, w);
    case Recovers(w) => RecoversKeepsGrounded(m, w);
  }

  lemma {:induction false} ExecutionKeepsGrounded(m: Machine, steps: seq<Step>)
    requires MachineInv(m) && AllGrounded(m)
    ensures AllGrounded(Execution(m, steps))
    decreases |steps|
  {
    if steps != [] {
      NextKeepsMachine(m, steps[0]);
      NextKeepsGrounded(m, steps[0]);
      ExecutionKeepsGrounded(Next(m, steps[0]), steps[1..]);
    }
  }

  lemma ReachableIsGrounded(m: Machine)
    requires Reachable(m)
    ensures MachineInv(m) && AllGrounded(m)
  {
    var students, opportunities, steps :| Execution(Initial(students, opportunities), steps) == m;
    ExecutionKeepsMachine(Initial(students, opportunities), steps);
    ExecutionKeepsGrounded(Initial(students, opportunities), steps);
  }

  // ---------- the exact conditions ----------

  /** The decision has as many requirement reasons as there are applicable criteria. */
  predicate CoversCriteria(reasons: seq<Reason>, criteria: seq<Dict>) {
    ReasonsIn(reasons, Requirement) == Applicable(criteria, Requirement)
  }

  lemma GroundedAgreesIff(db: Db, d: Decision)
    requires Grounded(db, d)
    ensures AgreesNow(db, d) <==> CoversCriteria(d.reasons, RequirementRows(db, d.requirement))
  {
    var rows := RequirementRows(db, d.requirement);
    var n :| 0 <= n <= |rows| && DecidedAt(db, d, n);
    assert rows[..|rows|] == rows;
    FirstPartsAgreeIff(Snapshot(d.snapshot), PolicyRows(db, d.policy), rows, n, |rows|, Decided(d.verdict, d.reasons));
  }

  lemma StoredIsGrounded(m: Machine, d: Decision)
    requires Reachable(m) && d in m.db.decisions
    ensures Grounded(m.db, d)
  {
    ReachableIsGrounded(m);
  }

  /**
   * The present: a stored decision, taken on a draft or not, agrees with the tables if and only if it has as many
   * requirement reasons as its requirement version has applicable criteria now.
   */
  lemma AgreesNowIff(m: Machine, d: Decision)
    requires Reachable(m) && d in m.db.decisions
    ensures AgreesNow(m.db, d) <==> CoversCriteria(d.reasons, RequirementRows(m.db, d.requirement))
  {
    StoredIsGrounded(m, d);
    GroundedAgreesIff(m.db, d);
  }

  lemma AnswerAgreesIff(db: Db, i: Inputs, d: Decision)
    requires InputsSound(db, i) && ReadAt(db, i.request.requirement, i.criteria) && Grounded(db, d)
    requires d.snapshot == i.facts && d.policy == i.policy && d.requirement == i.request.requirement
    ensures SameDecided(Evaluate(Snapshot(i.facts), i.rules, i.criteria), Returned(Decided(d.verdict, d.reasons))) <==>
              CoversCriteria(d.reasons, i.criteria)
  {
    var rows := RequirementRows(db, d.requirement);
    var n :| 0 <= n <= |rows| && DecidedAt(db, d, n);
    var k :| 0 <= k <= |rows| && multiset(i.criteria) == multiset(rows[..k]);
    FirstPartsAgreeIff(Snapshot(d.snapshot), PolicyRows(db, d.policy), rows, n, k, Decided(d.verdict, d.reasons));
    RowOrderIrrelevant(Snapshot(i.facts), i.rules, PolicyRows(db, i.policy), i.criteria, rows[..k]);
    ApplicablePermutation(i.criteria, rows[..k], Requirement);
  }

  lemma {:induction false} ApplicablePermutation(a: seq<Dict>, b: seq<Dict>, domain: Domain)
    requires multiset(a) == multiset(b)
    ensures Applicable(a, domain) == Applicable(b, domain)
  {
    if a == [] {
      assert |multiset(b)| == 0;
    } else {
      var i := FirstInPermutation(a, b);
      ApplicablePermutation(a[1..], b[..i] + b[i + 1..], domain);
      ApplicableConcat(b[..i], b[i + 1..], domain);
      ApplicableConcat(b[..i], [b[i]] + b[i + 1..], domain);
      assert b == b[..i] + ([b[i]] + b[i + 1..]);
      assert ([b[i]] + b[i + 1..])[1..] == b[i + 1..];
    }
  }

  /**
   * An answer, inserted, looked up or recovered, is what this evaluation would have computed from the rows it
   * read, if and only if the decision has as many requirement reasons as those rows have applicable criteria.
   */
  lemma AnswerIsFreshIff(m: Machine, w: nat)
    requires Reachable(m) && w in m.evaluations && m.evaluations[w].Done?
    ensures var Done(i, d) := m.evaluations[w];
            SameDecided(Evaluate(Snapshot(i.facts), i.rules, i.criteria), Returned(Decided(d.verdict, d.reasons))) <==>
              CoversCriteria(d.reasons, i.criteria)
  {
    AnswerIsGrounded(m, w);
    var Done(i, d) := m.evaluations[w];
    AnswerAgreesIff(m.db, i, d);
  }

  lemma AnswerIsGrounded(m: Machine, w: nat)
    requires Reachable(m) && w in m.evaluations && m.evaluations[w].Done?
    ensures var Done(i, d) := m.evaluations[w];
            InputsSound(m.db, i) && ReadAt(m.db, i.request.requirement, i.criteria) && Grounded(m.db, d) &&
            d.snapshot == i.facts && d.policy == i.policy && d.requirement == i.request.requirement
  {
    ReachableIsGrounded(m);
    AnswerIsSound(m, w);
    assert EvaluationGrounded(m.db, m.evaluations[w]) && Grounded(m.db, m.evaluations[w].decision);
  }

  lemma AddedCriterionShows(snapshot: Dict, rules: seq<Dict>, criteria: seq<Dict>, extra: Dict)
    requires Evaluate(snapshot, rules, criteria).Returned? && Applies(extra, Requirement)
    ensures var after := Evaluate(snapshot, rules, criteria + [extra]);
            after.Returned? ==> |after.value.reasons| == |Evaluate(snapshot, rules, criteria).value.reasons| + 1
  {
    DomainReasonsConcat(criteria, [extra], snapshot, Requirement);
    assert [extra][1..] == [];
  }

  lemma AddedCriterionDisagrees(snapshot: Dict, rules: seq<Dict>, criteria: seq<Dict>, extra: Dict, decided: Decided)
    requires SameDecided(Evaluate(snapshot, rules, criteria), Returned(decided)) && Applies(extra, Requirement)
    ensures !SameDecided(Evaluate(snapshot, rules, criteria + [extra]), Returned(decided))
  {
    AddedCriterionShows(snapshot, rules, criteria, extra);
    var before, after := Evaluate(snapshot, rules, criteria), Evaluate(snapshot, rules, criteria + [extra]);
    assert |multiset(before.value.reasons)| == |multiset(decided.reasons)|;
    assert after.Returned? ==> |multiset(after.value.reasons)| == |before.value.reasons| + 1;
  }

  lemma AddedCriterionRow(db: Db, tenant: Tenant, c: Criterion)
    requires c.requirementVersion in db.requirements && db.requirements[c.requirementVersion] == RequirementVersion(tenant, None)
    requires CriterionAllowed(db.criteria, c)
    ensures var db' := AddRequirementCriterion(db, tenant, c).0;
            db'.rules == db.rules &&
            RequirementRows(db', c.requirementVersion) == RequirementRows(db, c.requirementVersion) + [CriterionDict(c)]
  {
  }

  lemma CriterionOvertakes(db: Db, d: Decision, c: Criterion)
    requires AgreesNow(db, d) && c.requirementVersion == d.requirement && c.applicability == "REQUIRED"
    requires d.requirement in db.requirements && db.requirements[d.requirement] == RequirementVersion(d.tenant, None)
    requires CriterionAllowed(db.criteria, c)
    ensures !AgreesNow(AddRequirementCriterion(db, d.tenant, c).0, d)
  {
    AddedCriterionRow(db, d.tenant, c);
    AddedCriterionDisagrees(Snapshot(d.snapshot), PolicyRows(db, d.policy), RequirementRows(db, d.requirement),
                            CriterionDict(c), Decided(d.verdict, d.reasons));
  }

  lemma RunOneCriterion(db: Db, tenant: Tenant, c: Criterion)
    ensures Run(db, [AddCriterion(tenant, c)]) == AddRequirementCriterion(db, tenant, c).0
  {
  }

  lemma PublishedAgreesForever(db: Db, d: Decision, commands: seq<PolicyRecords.Command>)
    requires Inv(db) && AgreesNow(db, d) && DecisionSound(db, d) && IsPublished(db, d.requirement)
    ensures AgreesNow(Run(db, commands), d)
  {
    RunKeepsInv(db, commands);
    CommandKeepsDecision(db, Run(db, commands), d);
  }

  lemma StoredDecisionIsSound(m: Machine, d: Decision)
    requires Reachable(m) && d in m.db.decisions
    ensures Inv(m.db) && DecisionSound(m.db, d)
  {
    ReachableIsSound(m);
  }

  lemma UnusedCodeIsAllowed(criteria: seq<Criterion>, c: Criterion)
    requires c.applicability == "REQUIRED" && c.operator == Some("IN") && c.operand == Obj(map[])
    requires forall x | x in criteria :: x.requirementVersion == c.requirementVersion ==> x.code != c.code
    ensures CriterionAllowed(criteria, c)
  {
  }

  lemma SameTables(db: Db, db': Db, d: Decision)
    requires db == db'
    ensures AgreesNow(db, d) <==> AgreesNow(db', d)
  {
  }

  lemma {:induction false} UnusedCode(criteria: seq<Criterion>) returns (code: string)
    ensures forall c | c in criteria :: |c.code| < |code|
  {
    if criteria == [] {
      code := "";
    } else {
      var shorter := UnusedCode(criteria[1..]);
      code := shorter + criteria[0].code + "x";
      assert criteria == [criteria[0]] + criteria[1..];
    }
  }

  lemma DraftDecisionCanBeOvertaken(db: Db, d: Decision) returns (commands: seq<PolicyRecords.Command>)
    requires AgreesNow(db, d) && DecisionSound(db, d) && !IsPublished(db, d.requirement)
    ensures !AgreesNow(Run(db, commands), d)
  {
    var unusedCode := UnusedCode(db.criteria);
    var c := Criterion(d.requirement, unusedCode, "REQUIRED", Some("IN"), Obj(map[]));
    UnusedCodeIsAllowed(db.criteria, c);
    commands := [AddCriterion(d.tenant, c)];
    RunOneCriterion(db, d.tenant, c);
    CriterionOvertakes(db, d, c);
    SameTables(AddRequirementCriterion(db, d.tenant, c).0, Run(db, commands), d);
  }

  /**
   * The future: a decision that agrees with the tables now will agree after every further run of commands if and
   * only if its requirement version is published.
   */
  lemma AgreesForeverIffPublished(m: Machine, d: Decision)
    requires Reachable(m) && d in m.db.decisions && AgreesNow(m.db, d)
    ensures (forall commands :: AgreesNow(Run(m.db, commands), d)) <==> IsPublished(m.db, d.requirement)
  {
    StoredDecisionIsSound(m, d);
    if IsPublished(m.db, d.requirement) {
      forall commands ensures AgreesNow(Run(m.db, commands), d) {
        PublishedAgreesForever(m.db, d, commands);
      }
    } else {
      var commands := DraftDecisionCanBeOvertaken(m.db, d);
    }
  }

  lemma NothingMore(db: Db, d: Decision) returns (commands: seq<PolicyRecords.Command>)
    ensures AgreesNow(Run(db, commands), d) == AgreesNow(db, d)
  {
    commands := [];
    SameTables(db, Run(db, commands), d);
  }

  /** Present and future together, with nothing taken for granted about the decision. */
  lemma AgreesForeverIff(m: Machine, d: Decision)
    requires Reachable(m) && d in m.db.decisions
    ensures (forall commands :: AgreesNow(Run(m.db, commands), d)) <==>
              IsPublished(m.db, d.requirement) && CoversCriteria(d.reasons, RequirementRows(m.db, d.requirement))
  {
    AgreesNowIff(m, d);
    if AgreesNow(m.db, d) {
      AgreesForeverIffPublished(m, d);
    } else {
      var commands := NothingMore(m.db, d);
    }
  }
}

/** A decision taken on a draft requirement version is answered again after criteria were added and published. */
module DraftDecisionExample {
  import opened Common
  import opened Json
  import opened Evaluator
  import opened EvaluatorProperties
  import opened EvaluationKey
  import opened PolicyRecords
  import opened PolicyLifecycle
  import opened DecisionCache
  import opened DecisionReplay

  function NoFacts(id: Uuid): Facts {
    Facts(id, id, None, 0, 0)
  }

  function AskedFor(id: Uuid): Request {
    Request(1, id, id, id)
  }

  function NoBacklogs(id: Uuid): Criterion {
    Criterion(id, "academic.backlogs", "REQUIRED", Some("="), Obj(map["value" := Num(0.0)]))
  }

  lemma {:induction false} ExecutionAppend(m: Machine, steps: seq<Step>, s: Step)
    ensures Execution(m, steps + [s]) == Next(Execution(m, steps), s)
    decreases |steps|
  {
    if steps == [] {
      assert [] + [s] == [s] && [s][1..] == [];
    } else {
      assert (steps + [s])[1..] == steps[1..] + [s];
      ExecutionAppend(Next(m, steps[0]), steps[1..], s);
    }
  }

  lemma ReachableNext(m: Machine, s: Step)
    requires Reachable(m)
    ensures Reachable(Next(m, s))
  {
    var students, opportunities, steps :| Execution(Initial(students, opportunities), steps) == m;
    ExecutionAppend(Initial(students, opportunities), steps, s);
    ReachedBy(students, opportunities, steps + [s], Next(m, s));
  }

  lemma ReachedBy(students: map<Uuid, Tenant>, opportunities: map<Uuid, Opportunity>, steps: seq<Step>, m: Machine)
    requires Execution(Initial(students, opportunities), steps) == m
    ensures Reachable(m)
  {
  }

  function Versions(id: Uuid, status: Status): map<Uuid, PolicyVersion> {
    map[id := PolicyVersion(1, 0, SCOPE, status)]
  }

  /** One active policy without rules, and one draft requirement version without criteria. */
  lemma Setup(id: Uuid) returns (m: Machine)
    ensures Reachable(m) && m.evaluations == map[] && m.db.decisions == []
    ensures Ready(m, id, RequirementVersion(1, None), [])
  {
    m := Initial(map[id := 1], map[id := Opportunity(1, 0)]);
    assert Execution(m, []) == m;
    ReachableNext(m, Command(CreateVersion(1, id, 0, SCOPE)));
    m := Next(m, Command(CreateVersion(1, id, 0, SCOPE)));
    m := MoveOn(m, id, Draft, Processing);
    m := MoveOn(m, id, Processing, Review);
    m := MoveOn(m, id, Review, Approved);
    m := OpenForBusiness(m, id);
  }

  lemma Activates(db: Db, id: Uuid)
    requires db.versions == Versions(id, Approved) && db.activations == []
    ensures var db' := Apply(db, Activate(1, Staff, id, 0, None)).0;
            db'.versions == Versions(id, Active) && db'.activations == [Activation(1, id, 0, SCOPE, 0, None)] &&
            db' == db.(versions := db'.versions, events := db'.events, activations := db'.activations)
  {
  }

  lemma Initializes(db: Db, id: Uuid)
    requires db.requirements == map[]
    ensures Apply(db, CreateRequirement(1, id)).0 == db.(requirements := map[id := RequirementVersion(1, None)])
  {
  }

  lemma OpenForBusiness(m: Machine, id: Uuid) returns (m': Machine)
    requires Reachable(m) && m.db.versions == Versions(id, Approved) && m.db.activations == [] && m.db.requirements == map[]
    ensures Reachable(m') && m'.db.versions == Versions(id, Active)
    ensures m'.db.activations == [Activation(1, id, 0, SCOPE, 0, None)]
    ensures m'.db.requirements == map[id := RequirementVersion(1, None)]
    ensures m' == m.(db := m.db.(versions := m'.db.versions, events := m'.db.events,
                                 activations := m'.db.activations, requirements := m'.db.requirements))
  {
    Activates(m.db, id);
    ReachableNext(m, Command(Activate(1, Staff, id, 0, None)));
    m' := Next(m, Command(Activate(1, Staff, id, 0, None)));
    Initializes(m'.db, id);
    ReachableNext(m', Command(CreateRequirement(1, id)));
    m' := Next(m', Command(CreateRequirement(1, id)));
  }

  lemma MoveOn(m: Machine, id: Uuid, from: Status, target: Status) returns (m': Machine)
    requires Reachable(m) && m.db.versions == Versions(id, from)
    requires Successor(from) == Some(target) && target in {Processing, Review, Approved}
    ensures Reachable(m') && m'.db.versions == Versions(id, target)
    ensures m' == m.(db := m'.db) && m'.db == m.db.(versions := m'.db.versions, events := m'.db.events)
  {
    ReachableNext(m, Command(Advance(1, Staff, id, target)));
    m' := Next(m, Command(Advance(1, Staff, id, target)));
  }

  lemma OneActivePolicy(db: Db, id: Uuid)
    requires db.opportunities == map[id := Opportunity(1, 0)] && db.versions == Versions(id, Active)
    requires db.activations == [Activation(1, id, 0, SCOPE, 0, None)]
    ensures Choose(db, AskedFor(id), 0) == Chosen(AskedFor(id), id)
  {
    assert ActiveRows(db, 0, 1, 0, SCOPE, 0) == [];
    assert ActiveRow(db, db.activations[0], 1, 0, SCOPE, 0);
    assert ActiveRows(db, 1, 1, 0, SCOPE, 0) == [id];
  }

  function WhatIsRead(db: Db, id: Uuid): Inputs {
    Inputs(AskedFor(id), id, NoFacts(id), [], RequirementRows(db, id), IsPublished(db, id))
  }

  lemma RowsAreReturned(db: Db, id: Uuid)
    requires db.rules == [] && db.students == map[id := 1]
    ensures var e, criteria := Chosen(AskedFor(id), id), RequirementRows(db, id);
            RowsReturned(db, e, NoFacts(id), [], criteria) && Load(db, e, NoFacts(id), [], criteria) == Loaded(WhatIsRead(db, id))
  {
    assert PolicyRows(db, id) == [];
  }

  lemma ChooseFirst(m: Machine, id: Uuid, w: nat) returns (m': Machine)
    requires Reachable(m) && w !in m.evaluations && Choose(m.db, AskedFor(id), 0) == Chosen(AskedFor(id), id)
    ensures Reachable(m') && m' == Become(m, w, Chosen(AskedFor(id), id))
  {
    ReachableNext(m, Begins(w, AskedFor(id), 0));
    m' := Next(m, Begins(w, AskedFor(id), 0));
  }

  lemma LoadFirst(m: Machine, id: Uuid, w: nat, i: Inputs) returns (m': Machine)
    requires Reachable(m) && w in m.evaluations && m.evaluations[w] == Chosen(AskedFor(id), id)
    requires RowsReturned(m.db, m.evaluations[w], i.facts, i.rules, i.criteria)
    requires Load(m.db, m.evaluations[w], i.facts, i.rules, i.criteria) == Loaded(i)
    ensures Reachable(m') && m' == Become(m, w, Loaded(i))
  {
    ReachableNext(m, Reads(w, i.facts, i.rules, i.criteria));
    m' := Next(m, Reads(w, i.facts, i.rules, i.criteria));
  }

  /** Choosing the policy and reading the rows, as one evaluation does on this policy. */
  lemma ChooseAndLoad(m: Machine, id: Uuid, w: nat, i: Inputs) returns (m': Machine)
    requires Reachable(m) && w !in m.evaluations && Choose(m.db, AskedFor(id), 0) == Chosen(AskedFor(id), id)
    requires RowsReturned(m.db, Chosen(AskedFor(id), id), i.facts, i.rules, i.criteria)
    requires Load(m.db, Chosen(AskedFor(id), id), i.facts, i.rules, i.criteria) == Loaded(i)
    ensures Reachable(m') && m' == m.(evaluations := m.evaluations[w := Loaded(i)])
  {
    m' := ChooseFirst(m, id, w);
    m' := LoadFirst(m', id, w, i);
    assert m'.evaluations == m.evaluations[w := Loaded(i)];
  }

  /** Nothing is required before the criterion exists, and its operator "=" can never pass. */
  lemma FreshVerdicts(id: Uuid)
    ensures Evaluate(Snapshot(NoFacts(id)), [], []) == Returned(Decided(Eligible, []))
    ensures !SameDecided(Evaluate(Snapshot(NoFacts(id)), [], [CriterionDict(NoBacklogs(id))]), Returned(Decided(Eligible, [])))
  {
    var none: seq<Reason> := [];
    assert none + none == none;
    UnsupportedOperatorBlocksEligibility(Snapshot(NoFacts(id)), [], [CriterionDict(NoBacklogs(id))], 0);
  }

  /** The state after Setup, and after one evaluation of the draft version has inserted a decision. */
  predicate Ready(m: Machine, id: Uuid, requirement: RequirementVersion, criteria: seq<Criterion>) {
    m.db.students == map[id := 1] && m.db.opportunities == map[id := Opportunity(1, 0)] &&
    m.db.versions == Versions(id, Active) && m.db.rules == [] &&
    m.db.activations == [Activation(1, id, 0, SCOPE, 0, None)] &&
    m.db.requirements == map[id := requirement] && m.db.criteria == criteria
  }

  lemma DecideOnDraft(m: Machine, id: Uuid) returns (m': Machine, i: Inputs)
    requires Reachable(m) && m.evaluations == map[] && m.db.decisions == []
    requires Ready(m, id, RequirementVersion(1, None), [])
    ensures Reachable(m') && Ready(m', id, RequirementVersion(1, None), [])
    ensures i.request == AskedFor(id) && i.policy == id && i.facts == NoFacts(id)
    ensures m'.evaluations.Keys == {0} && m'.db.decisions == [NewDecision(i, Decided(Eligible, []))]
  {
    OneActivePolicy(m.db, id);
    RowsAreReturned(m.db, id);
    i := WhatIsRead(m.db, id);
    m' := ChooseAndLoad(m, id, 0, i);
    m' := DecideOnLoaded(m', id, i);
  }

  lemma DecideOnLoaded(m: Machine, id: Uuid, i: Inputs) returns (m': Machine)
    requires Reachable(m) && m.evaluations == map[0 := Loaded(i)] && m.db.decisions == []
    requires i.request == AskedFor(id) && i.facts == NoFacts(id) && i.rules == [] && i.criteria == []
    requires id in m.db.requirements && m.db.requirements[id].tenant == 1
    ensures Reachable(m') && m'.evaluations.Keys == {0}
    ensures m'.db == m.db.(decisions := [NewDecision(i, Decided(Eligible, []))])
  {
    FreshVerdicts(id);
    m' := MissFirst(m, 0, i);
    m' := InsertFirst(m', 0, i, NewDecision(i, Decided(Eligible, [])));
  }

  lemma MissFirst(m: Machine, w: nat, i: Inputs) returns (m': Machine)
    requires Reachable(m) && w in m.evaluations && m.evaluations[w] == Loaded(i) && m.db.decisions == []
    requires Evaluate(Snapshot(i.facts), i.rules, i.criteria) == Returned(Decided(Eligible, []))
    ensures Reachable(m') && m' == m.(evaluations := m.evaluations[w := Missed(i, NewDecision(i, Decided(Eligible, [])))])
  {
    ReachableNext(m, Looks(w));
    m' := Next(m, Looks(w));
  }

  lemma InsertFirst(m: Machine, w: nat, i: Inputs, d: Decision) returns (m': Machine)
    requires Reachable(m) && w in m.evaluations && m.evaluations[w] == Missed(i, d) && m.db.decisions == []
    requires d.requirement in m.db.requirements && m.db.requirements[d.requirement].tenant == d.tenant
    ensures Reachable(m') && m'.db == m.db.(decisions := [d]) && m'.evaluations.Keys == m.evaluations.Keys
  {
    ReachableNext(m, Writes(w));
    m' := Next(m, Writes(w));
  }

  lemma AddsCriterion(db: Db, id: Uuid)
    requires db.requirements == map[id := RequirementVersion(1, None)] && db.criteria == []
    ensures Apply(db, AddCriterion(1, NoBacklogs(id))).0 == db.(criteria := [NoBacklogs(id)])
  {
  }

  lemma Publishes(db: Db, id: Uuid)
    requires db.requirements == map[id := RequirementVersion(1, None)]
    ensures Apply(db, Publish(1, id, 0)).0 == db.(requirements := map[id := RequirementVersion(1, Some(0))])
  {
  }

  lemma AddAndPublish(m: Machine, id: Uuid) returns (m': Machine)
    requires Reachable(m) && Ready(m, id, RequirementVersion(1, None), [])
    ensures Reachable(m') && Ready(m', id, RequirementVersion(1, Some(0)), [NoBacklogs(id)])
    ensures m'.evaluations == m.evaluations && m'.db.decisions == m.db.decisions
  {
    AddsCriterion(m.db, id);
    ReachableNext(m, Command(AddCriterion(1, NoBacklogs(id))));
    m' := Next(m, Command(AddCriterion(1, NoBacklogs(id))));
    Publishes(m'.db, id);
    ReachableNext(m', Command(Publish(1, id, 0)));
    m' := Next(m', Command(Publish(1, id, 0)));
  }

  lemma AnswerFromCache(m: Machine, id: Uuid, i: Inputs) returns (m': Machine, j: Inputs)
    requires Reachable(m) && 1 !in m.evaluations && Ready(m, id, RequirementVersion(1, Some(0)), [NoBacklogs(id)])
    requires i.request == AskedFor(id) && i.policy == id && i.facts == NoFacts(id)
    requires m.db.decisions == [NewDecision(i, Decided(Eligible, []))]
    ensures Reachable(m') && 1 in m'.evaluations && m'.evaluations[1] == Done(j, NewDecision(i, Decided(Eligible, [])))
    ensures j == Inputs(AskedFor(id), id, NoFacts(id), [], [CriterionDict(NoBacklogs(id))], true)
  {
    var d := NewDecision(i, Decided(Eligible, []));
    OneCriterion(m.db, id);
    OneActivePolicy(m.db, id);
    RowsAreReturned(m.db, id);
    j := WhatIsRead(m.db, id);
    m' := ChooseAndLoad(m, id, 1, j);
    m' := HitOne(m', 1, j, d);
  }

  lemma OneCriterion(db: Db, id: Uuid)
    requires db.criteria == [NoBacklogs(id)]
    ensures RequirementRows(db, id) == [CriterionDict(NoBacklogs(id))]
  {
    assert CriteriaOf([], id) == [] && CriteriaOf([NoBacklogs(id)], id) == [NoBacklogs(id)];
  }

  lemma HitOne(m: Machine, w: nat, i: Inputs, d: Decision) returns (m': Machine)
    requires Reachable(m) && w in m.evaluations && m.evaluations[w] == Loaded(i) && m.db.decisions == [d]
    requires d.tenant == i.request.tenant && d.key == KeyOf(i)
    ensures Reachable(m') && m' == Become(m, w, Done(i, d))
  {
    assert WithKey([], d.tenant, d.key) == [] && WithKey([d], d.tenant, d.key) == [d];
    ReachableNext(m, Looks(w));
    m' := Next(m, Looks(w));
  }

  /**
   * Without the agent's publication check the replay claim fails: an evaluation that itself read a published
   * version is answered with a decision that was taken on the draft, before the criterion existed.
   */
  lemma DraftDecisionGoesStale(id: Uuid) returns (m: Machine)
    ensures Reachable(m) && 1 in m.evaluations && m.evaluations[1].Done? && m.evaluations[1].inputs.published
    ensures var Done(i, d) := m.evaluations[1];
            !SameDecided(Evaluate(Snapshot(i.facts), i.rules, i.criteria), Returned(Decided(d.verdict, d.reasons)))
  {
    m := Setup(id);
    var i, j: Inputs;
    m, i := DecideOnDraft(m, id);
    m := AddAndPublish(m, id);
    m, j := AnswerFromCache(m, id, i);
    FreshVerdicts(id);
  }
}
