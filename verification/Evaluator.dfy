/** The deterministic rule evaluator: three-valued rule results over a snapshot of facts. */
module Evaluator {
  import opened Common
  import opened Json

  datatype Tri = PASS | FAIL | UNKNOWN

  datatype Verdict = Eligible | NotEligible | Undetermined

  datatype Domain = Requirement | Policy

  datatype Reason = Reason(description: string, actual: Json, result: Tri, domain: Domain)

  /** What a Python call gives back: a value, or an exception that leaves the evaluator. */
  datatype Outcome<+T> = Returned(value: T) | Raised

  /** The operators a criterion may be stored with. */
  const SCHEMA_OPERATORS: set<string> := {">", ">=", "<", "<=", "=", "!=", "IN", "NOT_IN", "BETWEEN"}

  datatype Decided = Decided(verdict: Verdict, reasons: seq<Reason>)

  // ---------- one rule ----------

  function FromBool(b: bool): Tri {
    if b then PASS else FAIL
  }

  /** The caught TypeError of an ordering between unorderable values is UNKNOWN. */
  function FromOrder(o: Order, accepted: set<Order>): Tri {
    if o.Unorderable? then UNKNOWN else FromBool(o in accepted)
  }

  function FromMembership(o: Option<bool>, wanted: bool): Tri {
    match o
    case None => UNKNOWN
    case Some(found) => FromBool(found == wanted)
  }

  function EvaluateOperator(operator: Json, expected: Json, actual: Json): Tri {
    if actual.Null? || !operator.Str? then UNKNOWN
    else match operator.s
      case "==" => FromBool(PyEq(actual, expected))
      case "!=" => FromBool(!PyEq(actual, expected))
      case ">" => FromOrder(Compare(actual, expected), {Greater})
      case ">=" => FromOrder(Compare(actual, expected), {Greater, Same})
      case "<" => FromOrder(Compare(actual, expected), {Less})
      case "<=" => FromOrder(Compare(actual, expected), {Less, Same})
      case "IN" => FromMembership(Contains(expected, actual), true)
      case "NOT_IN" => FromMembership(Contains(expected, actual), false)
      case _ => UNKNOWN
  }

  /** str.split(".") */
  function Split(path: string): (keys: seq<string>)
    ensures |keys| > 0
  {
    if path == "" then [""]
    else
      var rest := Split(path[1..]);
      if path[0] == '.' then [""] + rest else [[path[0]] + rest[0]] + rest[1..]
  }

  function Join(keys: seq<string>): string
    requires |keys| > 0
  {
    if |keys| == 1 then keys[0] else keys[0] + "." + Join(keys[1..])
  }

  function Follow(current: Json, keys: seq<string>): Json {
    if keys == [] then current
    else if current.Obj? && keys[0] in current.fields then Follow(current.fields[keys[0]], keys[1..])
    else Null
  }

  function Resolve(snapshot: Dict, path: string): Json {
    Follow(Obj(snapshot), Split(path))
  }

  method ResolveFieldPath(snapshot: Dict, path: string) returns (found: Json)
    ensures found == Resolve(snapshot, path)
  {
    var keys := Split(path);
    var current := Obj(snapshot);
    for i := 0 to |keys|
      invariant Follow(current, keys[i..]) == Resolve(snapshot, path)
    {
      if !current.Obj? || keys[i] !in current.fields {
        return Null;
      }
      current := current.fields[keys[i]];
    }
    found := current;
  }

  /** The path of a rule is its "field", or its "code" when that is falsy; only a string can be split. */
  function FieldPath(rule: Dict): Outcome<string> {
    var field := Get(rule, "field");
    var chosen := if Truthy(field) then field else Get(rule, "code");
    if chosen.Str? then Returned(chosen.s) else Raised
  }

  /** The "value" of a policy rule, else what the operand object of a criterion holds. */
  function Expected(rule: Dict): Outcome<Json> {
    if "value" in rule then Returned(rule["value"])
    else if "operand" in rule && Truthy(rule["operand"]) then
      match rule["operand"]
      case Obj(operand) => Returned(if "value" in operand then operand["value"] else rule["operand"])
      case _ => Raised
    else Returned(Null)
  }

  function EvaluateRule(rule: Dict, snapshot: Dict, domain: Domain): Outcome<Reason> {
    var path := FieldPath(rule);
    var expected := Expected(rule);
    if path.Raised? || expected.Raised? then Raised
    else
      var actual := Resolve(snapshot, path.value);
      Returned(Reason(path.value, actual, EvaluateOperator(Get(rule, "operator"), expected.value, actual), domain))
  }

  // ---------- a list of rules ----------

  predicate Applies(row: Dict, domain: Domain) {
    domain.Policy? || Get(row, "applicability") in {Str("REQUIRED"), Str("OPTIONAL")}
  }

  /** What one row adds to the reasons. */
  function RowReasons(row: Dict, snapshot: Dict, domain: Domain): Outcome<seq<Reason>> {
    if !Applies(row, domain) then Returned([])
    else
      match EvaluateRule(row, snapshot, domain)
      case Raised => Raised
      case Returned(reason) => Returned([reason])
  }

  function Append(a: Outcome<seq<Reason>>, b: Outcome<seq<Reason>>): (r: Outcome<seq<Reason>>)
    ensures a == Returned([]) ==> r == b
    ensures b == Returned([]) ==> r == a
  {
    if a.Raised? || b.Raised? then Raised
    else
      assert a.value == [] ==> a.value + b.value == b.value;
      assert b.value == [] ==> a.value + b.value == a.value;
      Returned(a.value + b.value)
  }

  function DomainReasons(rows: seq<Dict>, snapshot: Dict, domain: Domain): Outcome<seq<Reason>> {
    if rows == [] then Returned([])
    else Append(RowReasons(rows[0], snapshot, domain), DomainReasons(rows[1..], snapshot, domain))
  }

  /** FAIL is worse than UNKNOWN, which is worse than PASS. */
  function Worse(a: Tri, b: Tri): Tri {
    if a.FAIL? || b.FAIL? then FAIL else if a.UNKNOWN? || b.UNKNOWN? then UNKNOWN else PASS
  }

  function Worst(reasons: seq<Reason>): Tri {
    if reasons == [] then PASS else Worse(reasons[0].result, Worst(reasons[1..]))
  }

  function VerdictOf(t: Tri): Verdict {
    match t
    case PASS => Eligible
    case FAIL => NotEligible
    case UNKNOWN => Undetermined
  }

  /** The meaning of a full evaluation: the worst result over both domains, and every reason. */
  function Evaluate(snapshot: Dict, rules: seq<Dict>, criteria: seq<Dict>): Outcome<Decided> {
    var required := DomainReasons(criteria, snapshot, Requirement);
    var policy := DomainReasons(rules, snapshot, Policy);
    if required.Raised? || policy.Raised? then Raised
    else
      Returned(Decided(VerdictOf(Worst(required.value + policy.value)), required.value + policy.value))
  }

  // ---------- the loops of the source ----------

  method AggregateResults(results: seq<Reason>) returns (t: Tri)
    ensures t == Worst(results)
  {
    var hasUnknown := false;
    for i := 0 to |results|
      invariant Worst(results) == Worse(if hasUnknown then UNKNOWN else PASS, Worst(results[i..]))
    {
      assert results[i..][1..] == results[i + 1..];
      if results[i].result.FAIL? {
        return FAIL;
      } else if results[i].result.UNKNOWN? {
        hasUnknown := true;
      }
    }
    if hasUnknown {
      return UNKNOWN;
    }
    return PASS;
  }

  method CollectDomain(rows: seq<Dict>, snapshot: Dict, domain: Domain) returns (collected: Outcome<seq<Reason>>)
    ensures collected == DomainReasons(rows, snapshot, domain)
  {
    var results: seq<Reason> := [];
    for i := 0 to |rows|
      invariant DomainReasons(rows, snapshot, domain) ==
                Append(Returned(results), DomainReasons(rows[i..], snapshot, domain))
    {
      assert rows[i..][1..] == rows[i + 1..];
      if !Applies(rows[i], domain) {
        continue;
      }
      var res := EvaluateRule(rows[i], snapshot, domain);
      if res.Raised? {
        return Raised;
      }
      AppendAssociates(Returned(results), Returned([res.value]), DomainReasons(rows[i + 1..], snapshot, domain));
      results := results + [res.value];
    }
    collected := Returned(results);
  }

  /** The row compares a number among the facts with a number. */
  predicate NumericLimit(row: Dict, snapshot: Dict) {
    FieldPath(row).Returned? && Expected(row).Returned? && Expected(row).value.Num? &&
    Resolve(snapshot, FieldPath(row).value).Num? &&
    Get(row, "operator") in {Str(">"), Str(">="), Str("<"), Str("<="), Str("=="), Str("!=")}
  }

  /** The number keeps the limit. */
  predicate Within(row: Dict, snapshot: Dict)
    requires NumericLimit(row, snapshot)
  {
    var x, limit := Resolve(snapshot, FieldPath(row).value).n, Expected(row).value.n;
    match Get(row, "operator").s
    case ">" => x > limit
    case ">=" => x >= limit
    case "<" => x < limit
    case "<=" => x <= limit
    case "==" => x == limit
    case _ => x != limit
  }

  lemma LimitResult(row: Dict, snapshot: Dict, domain: Domain)
    requires NumericLimit(row, snapshot)
    ensures EvaluateRule(row, snapshot, domain).Returned?
    ensures EvaluateRule(row, snapshot, domain).value.result == if Within(row, snapshot) then PASS else FAIL
  {
  }

  predicate AllLimits(rows: seq<Dict>, snapshot: Dict, domain: Domain) {
    forall row | row in rows && Applies(row, domain) :: NumericLimit(row, snapshot)
  }

  /** Some applicable row has a limit that the fact does not keep. */
  predicate SomeBeyond(rows: seq<Dict>, snapshot: Dict, domain: Domain) {
    exists row | row in rows && Applies(row, domain) && NumericLimit(row, snapshot) :: !Within(row, snapshot)
  }

  lemma {:induction false} LimitsDecide(rows: seq<Dict>, snapshot: Dict, domain: Domain)
    ensures AllLimits(rows, snapshot, domain) ==>
              DomainReasons(rows, snapshot, domain).Returned? &&
              (!SomeBeyond(rows, snapshot, domain) ==> Worst(DomainReasons(rows, snapshot, domain).value) == PASS)
    ensures SomeBeyond(rows, snapshot, domain) && DomainReasons(rows, snapshot, domain).Returned? ==>
              Worst(DomainReasons(rows, snapshot, domain).value) == FAIL
  {
    if rows != [] {
      LimitsDecide(rows[1..], snapshot, domain);
      assert rows == [rows[0]] + rows[1..];
      WorstOfRow(rows, snapshot, domain);
      if Applies(rows[0], domain) && NumericLimit(rows[0], snapshot) {
        LimitResult(rows[0], snapshot, domain);
      }
    }
  }

  lemma WorstOfRow(rows: seq<Dict>, snapshot: Dict, domain: Domain)
    requires rows != []
    ensures var all, rest := DomainReasons(rows, snapshot, domain), DomainReasons(rows[1..], snapshot, domain);
            if !Applies(rows[0], domain) then all == rest
            else
              (all.Returned? <==> EvaluateRule(rows[0], snapshot, domain).Returned? && rest.Returned?) &&
              (all.Returned? ==>
                 Worst(all.value) == Worse(EvaluateRule(rows[0], snapshot, domain).value.result, Worst(rest.value)))
  {
    if Applies(rows[0], domain) && DomainReasons(rows, snapshot, domain).Returned? {
      var first, rest := EvaluateRule(rows[0], snapshot, domain).value, DomainReasons(rows[1..], snapshot, domain).value;
      assert ([first] + rest)[1..] == rest;
    }
  }

  /**
   * With the values themselves: a number beyond its limit is NotEligible whatever else holds, and where all rows are
   * numeric limits the verdict is Eligible exactly when every number keeps its limit.
   */
  method EvaluateSnapshot(snapshot: Dict, rules: seq<Dict>, criteria: seq<Dict>) returns (r: Outcome<Decided>)
    ensures r == Evaluate(snapshot, rules, criteria)
    ensures r.Returned? && (SomeBeyond(rules, snapshot, Policy) || SomeBeyond(criteria, snapshot, Requirement)) ==>
              r.value.verdict == NotEligible
    ensures AllLimits(rules, snapshot, Policy) && AllLimits(criteria, snapshot, Requirement) ==>
              r.Returned? &&
              (r.value.verdict == Eligible <==>
                 !SomeBeyond(rules, snapshot, Policy) && !SomeBeyond(criteria, snapshot, Requirement))
  {
    LimitsDecide(rules, snapshot, Policy);
    LimitsDecide(criteria, snapshot, Requirement);
    var required := CollectDomain(criteria, snapshot, Requirement);
    if required.Raised? {
      return Raised;
    }
    var requirementResult := AggregateResults(required.value);
    var policy := CollectDomain(rules, snapshot, Policy);
    if policy.Raised? {
      return Raised;
    }
    var policyResult := AggregateResults(policy.value);
    WorstConcat(required.value, policy.value);
    var verdict;
    if requirementResult.FAIL? || policyResult.FAIL? {
      verdict := NotEligible;
    } else if requirementResult.UNKNOWN? || policyResult.UNKNOWN? {
      verdict := Undetermined;
    } else {
      verdict := Eligible;
    }
    r := Returned(Decided(verdict, required.value + policy.value));
  }

  /** Aggregating a concatenation is the worse of the two aggregations. */
  lemma {:induction false} WorstConcat(a: seq<Reason>, b: seq<Reason>)
    ensures Worst(a + b) == Worse(Worst(a), Worst(b))
  {
    if a == [] {
      assert a + b == b;
    } else {
      WorstConcat(a[1..], b);
      assert (a + b)[1..] == a[1..] + b;
    }
  }

  lemma AppendAssociates(a: Outcome<seq<Reason>>, b: Outcome<seq<Reason>>, c: Outcome<seq<Reason>>)
    ensures Append(Append(a, b), c) == Append(a, Append(b, c))
  {
    if a.Returned? && b.Returned? && c.Returned? {
      assert (a.value + b.value) + c.value == a.value + (b.value + c.value);
    }
  }
}

/** What the evaluator promises: row order, absent facts and added facts. */
module EvaluatorProperties {
  import opened Common
  import opened Json
  import opened Evaluator

  /** Splitting a path loses nothing, and no key holds a dot. */
  lemma {:induction false} SplitRoundTrip(path: string)
    ensures Join(Split(path)) == path
    ensures forall i | 0 <= i < |Split(path)| :: '.' !in Split(path)[i]
  {
    if path != "" {
      SplitRoundTrip(path[1..]);
      var rest := Split(path[1..]);
      if path[0] != '.' {
        assert Split(path)[1..] == rest[1..];
      } else {
        assert Split(path)[1..] == rest;
      }
    }
  }

  /** FAIL exactly when something fails; UNKNOWN exactly when nothing fails and something is unknown. */
  lemma {:induction false} WorstMeaning(reasons: seq<Reason>)
    ensures Worst(reasons) == FAIL <==> exists r | r in reasons :: r.result == FAIL
    ensures Worst(reasons) == PASS <==> forall r | r in reasons :: r.result == PASS
  {
    if reasons != [] {
      WorstMeaning(reasons[1..]);
      assert reasons == [reasons[0]] + reasons[1..];
    }
  }

  // ---------- the order of rows does not matter ----------

  lemma {:induction false} DomainReasonsConcat(a: seq<Dict>, b: seq<Dict>, snapshot: Dict, domain: Domain)
    ensures DomainReasons(a + b, snapshot, domain) ==
            Append(DomainReasons(a, snapshot, domain), DomainReasons(b, snapshot, domain))
  {
    if a == [] {
      assert a + b == b;
      assert DomainReasons(a, snapshot, domain) == Returned([]);
    } else {
      DomainReasonsConcat(a[1..], b, snapshot, domain);
      assert (a + b)[1..] == a[1..] + b;
      AppendAssociates(RowReasons(a[0], snapshot, domain), DomainReasons(a[1..], snapshot, domain),
                       DomainReasons(b, snapshot, domain));
    }
  }

  /** Two outcomes that raise together, or give the same reasons up to order. */
  predicate SameReasons(a: Outcome<seq<Reason>>, b: Outcome<seq<Reason>>) {
    a.Returned? == b.Returned? && (a.Returned? ==> multiset(a.value) == multiset(b.value))
  }

  lemma RemoveAt<T>(a: seq<T>, i: nat)
    requires i < |a|
    ensures multiset(a[..i] + a[i + 1..]) == multiset(a) - multiset{a[i]}
  {
    assert a == a[..i] + ([a[i]] + a[i + 1..]);
  }

  lemma RemoveFirst<T>(a: seq<T>)
    requires a != []
    ensures multiset(a[1..]) == multiset(a) - multiset{a[0]}
  {
    assert a == [a[0]] + a[1..];
  }

  /** Where the first element of a list sits in a permutation of the list. */
  lemma FirstInPermutation<T>(a: seq<T>, b: seq<T>) returns (i: nat)
    requires a != [] && multiset(a) == multiset(b)
    ensures i < |b| && b[i] == a[0] && multiset(a[1..]) == multiset(b[..i] + b[i + 1..])
  {
    assert a[0] in multiset(a);
    i :| 0 <= i < |b| && b[i] == a[0];
    RemoveFirst(a);
    RemoveAt(b, i);
  }

  /** Moving a row to the front changes no reason but their order. */
  lemma MoveToFront(before: seq<Dict>, row: Dict, after: seq<Dict>, snapshot: Dict, domain: Domain)
    ensures SameReasons(DomainReasons(before + [row] + after, snapshot, domain),
                        Append(RowReasons(row, snapshot, domain), DomainReasons(before + after, snapshot, domain)))
  {
    DomainReasonsConcat(before + [row], after, snapshot, domain);
    DomainReasonsConcat(before, [row], snapshot, domain);
    DomainReasonsConcat(before, after, snapshot, domain);
    assert [row][1..] == [];
  }

  lemma {:induction false} DomainReasonsPermutation(a: seq<Dict>, b: seq<Dict>, snapshot: Dict, domain: Domain)
    requires multiset(a) == multiset(b)
    ensures SameReasons(DomainReasons(a, snapshot, domain), DomainReasons(b, snapshot, domain))
  {
    if a == [] {
      assert |multiset(b)| == 0;
    } else {
      var i := FirstInPermutation(a, b);
      DomainReasonsPermutation(a[1..], b[..i] + b[i + 1..], snapshot, domain);
      MoveToFront(b[..i], b[i], b[i + 1..], snapshot, domain);
      assert b == b[..i] + [b[i]] + b[i + 1..];
    }
  }

  predicate SameDecided(a: Outcome<Decided>, b: Outcome<Decided>) {
    a.Returned? == b.Returned? &&
    (a.Returned? ==>
       a.value.verdict == b.value.verdict && multiset(a.value.reasons) == multiset(b.value.reasons))
  }

  lemma WorstPermutation(a: seq<Reason>, b: seq<Reason>)
    requires multiset(a) == multiset(b)
    ensures Worst(a) == Worst(b)
  {
    WorstMeaning(a);
    WorstMeaning(b);
    assert forall r :: r in a <==> r in multiset(a);
    assert forall r :: r in b <==> r in multiset(b);
  }

  /** The queries for rules and criteria have no ORDER BY; the decision does not notice. */
  lemma RowOrderIrrelevant(snapshot: Dict, rules: seq<Dict>, rules': seq<Dict>, criteria: seq<Dict>, criteria': seq<Dict>)
    requires multiset(rules) == multiset(rules') && multiset(criteria) == multiset(criteria')
    ensures SameDecided(Evaluate(snapshot, rules, criteria), Evaluate(snapshot, rules', criteria'))
  {
    DomainReasonsPermutation(rules, rules', snapshot, Policy);
    DomainReasonsPermutation(criteria, criteria', snapshot, Requirement);
    var o, o' := Evaluate(snapshot, rules, criteria), Evaluate(snapshot, rules', criteria');
    if o.Returned? {
      WorstPermutation(o.value.reasons, o'.value.reasons);
    }
  }

  // ---------- more information never overturns a verdict ----------

  /** Every fact of a is still in b: nulls may be filled in and keys added, the rest is unchanged. */
  predicate Refines(a: Json, b: Json)
    decreases a
  {
    match a
    case Null => true
    case Obj(fields) =>
      b.Obj? && forall k | k in fields :: k in b.fields && Refines(fields[k], b.fields[k])
    case _ => a == b
  }

  lemma {:induction false} FollowRefines(a: Json, b: Json, keys: seq<string>)
    requires Refines(a, b)
    ensures Refines(Follow(a, keys), Follow(b, keys))
  {
    if keys != [] && a.Obj? && keys[0] in a.fields {
      FollowRefines(a.fields[keys[0]], b.fields[keys[0]], keys[1..]);
    }
  }

  /** No applicable row of the list names a whole object of the snapshot. */
  predicate ReadsNoObject(rows: seq<Dict>, snapshot: Dict, domain: Domain) {
    forall row | row in rows && Applies(row, domain) && FieldPath(row).Returned? ::
      !Resolve(snapshot, FieldPath(row).value).Obj?
  }

  /** Reason by reason, a result is either as before or was UNKNOWN. */
  predicate OnlyUnknownChanged(old': seq<Reason>, new': seq<Reason>) {
    |old'| == |new'| &&
    forall i | 0 <= i < |old'| :: old'[i].result == new'[i].result || old'[i].result == UNKNOWN
  }

  lemma ConcatRefines(old1: seq<Reason>, new1: seq<Reason>, old2: seq<Reason>, new2: seq<Reason>)
    requires OnlyUnknownChanged(old1, new1) && OnlyUnknownChanged(old2, new2)
    ensures OnlyUnknownChanged(old1 + old2, new1 + new2)
  {
  }

  lemma RowReasonsRefine(row: Dict, a: Dict, b: Dict, domain: Domain)
    requires Refines(Obj(a), Obj(b))
    requires Applies(row, domain) && FieldPath(row).Returned? ==> !Resolve(a, FieldPath(row).value).Obj?
    ensures RowReasons(row, a, domain).Returned? == RowReasons(row, b, domain).Returned?
    ensures RowReasons(row, a, domain).Returned? ==>
              OnlyUnknownChanged(RowReasons(row, a, domain).value, RowReasons(row, b, domain).value)
  {
    if Applies(row, domain) && FieldPath(row).Returned? {
      FollowRefines(Obj(a), Obj(b), Split(FieldPath(row).value));
    }
  }

  lemma {:induction false} DomainReasonsRefine(rows: seq<Dict>, a: Dict, b: Dict, domain: Domain)
    requires Refines(Obj(a), Obj(b)) && ReadsNoObject(rows, a, domain)
    ensures DomainReasons(rows, a, domain).Returned? == DomainReasons(rows, b, domain).Returned?
    ensures DomainReasons(rows, a, domain).Returned? ==>
              OnlyUnknownChanged(DomainReasons(rows, a, domain).value, DomainReasons(rows, b, domain).value)
  {
    if rows != [] {
      RowReasonsRefine(rows[0], a, b, domain);
      DomainReasonsRefine(rows[1..], a, b, domain);
      var r, r' := RowReasons(rows[0], a, domain), RowReasons(rows[0], b, domain);
      var s, s' := DomainReasons(rows[1..], a, domain), DomainReasons(rows[1..], b, domain);
      if r.Returned? && s.Returned? {
        ConcatRefines(r.value, r'.value, s.value, s'.value);
      }
    }
  }

  lemma WorstRefines(old': seq<Reason>, new': seq<Reason>)
    requires OnlyUnknownChanged(old', new') && Worst(old') != UNKNOWN
    ensures Worst(new') == Worst(old')
  {
  }

  /** Learning more about a student can only settle an undetermined verdict, never overturn a settled one. */
  lemma InformationMonotone(a: Dict, b: Dict, rules: seq<Dict>, criteria: seq<Dict>)
    requires Refines(Obj(a), Obj(b))
    requires ReadsNoObject(rules, a, Policy) && ReadsNoObject(criteria, a, Requirement)
    ensures Evaluate(a, rules, criteria).Returned? == Evaluate(b, rules, criteria).Returned?
    ensures Evaluate(a, rules, criteria).Returned? && Evaluate(a, rules, criteria).value.verdict != Undetermined ==>
              Evaluate(b, rules, criteria).value.verdict == Evaluate(a, rules, criteria).value.verdict
  {
    DomainReasonsRefine(rules, a, b, Policy);
    DomainReasonsRefine(criteria, a, b, Requirement);
    var r, p := DomainReasons(criteria, a, Requirement), DomainReasons(rules, a, Policy);
    var r', p' := DomainReasons(criteria, b, Requirement), DomainReasons(rules, b, Policy);
    if r.Returned? && p.Returned? {
      ConcatRefines(r.value, r'.value, p.value, p'.value);
      if Worst(r.value + p.value) != UNKNOWN {
        WorstRefines(r.value + p.value, r'.value + p'.value);
      }
    }
  }

  lemma OneRule(s: Dict, rule: Dict)
    requires EvaluateRule(rule, s, Policy).Returned?
    ensures var r := EvaluateRule(rule, s, Policy).value; Evaluate(s, [rule], []) == Returned(Decided(VerdictOf(r.result), [r]))
  {
    var r := EvaluateRule(rule, s, Policy).value;
    assert [rule][1..] == [] && [] + [r] == [r] && [r][1..] == [];
    assert DomainReasons([], s, Requirement) == Returned([]) && DomainReasons([], s, Policy) == Returned([]);
    assert DomainReasons([rule], s, Policy) == RowReasons(rule, s, Policy) == Returned([r]);
    assert Worst([r]) == r.result;
  }

  function EqualTo(v: Json): Dict {
    map["field" := Str("x"), "operator" := Str("=="), "value" := v]
  }

  /** A rule on the top-level field x. */
  lemma EqualToReads(v: Json, s: Dict)
    requires "x" in s && !s["x"].Null?
    ensures EvaluateRule(EqualTo(v), s, Policy) == Returned(Reason("x", s["x"], FromBool(PyEq(s["x"], v)), Policy))
    ensures FieldPath(EqualTo(v)) == Returned("x") && Expected(EqualTo(v)) == Returned(v) && Resolve(s, "x") == s["x"]
  {
    assert "x"[1..] == "" && ['x'] + "" == "x" && [""][1..] == [];
    assert Split("x") == ["x"] && ["x"][1..] == [];
    assert Follow(Obj(s), ["x"]) == Follow(s["x"], []);
  }

  /** A rule that reads a whole object is overturned by a key added inside it. */
  lemma ReadingAnObjectIsNotMonotone() returns (a: Dict, b: Dict, rule: Dict)
    ensures Refines(Obj(a), Obj(b))
    ensures Evaluate(a, [rule], []) == Returned(Decided(Eligible, [Reason("x", Obj(map[]), PASS, Policy)]))
    ensures Evaluate(b, [rule], []).Returned? && Evaluate(b, [rule], []).value.verdict == NotEligible
  {
    var small, large := Obj(map[]), Obj(map["k" := Null]);
    a, b, rule := map["x" := small], map["x" := large], EqualTo(small);
    assert "k" in large.fields;
    EqualToReads(small, a);
    EqualToReads(small, b);
    OneRule(a, rule);
    OneRule(b, rule);
  }

  // ---------- unknown facts and unknown operators ----------

  const OPERATORS: set<string> := {"==", "!=", ">", ">=", "<", "<=", "IN", "NOT_IN"}

  function Opposite(t: Tri): Tri {
    match t
    case PASS => FAIL
    case FAIL => PASS
    case UNKNOWN => UNKNOWN
  }

  function By(operator: string, expected: Json, actual: Json): Tri {
    EvaluateOperator(Str(operator), expected, actual)
  }

  /** Each operator has its opposite. */
  lemma OperatorsAreDual(expected: Json, actual: Json)
    ensures By("!=", expected, actual) == Opposite(By("==", expected, actual))
    ensures By("<=", expected, actual) == Opposite(By(">", expected, actual))
    ensures By("<", expected, actual) == Opposite(By(">=", expected, actual))
    ensures By("NOT_IN", expected, actual) == Opposite(By("IN", expected, actual))
  {
  }

  /** Swapping both sides of an ordering turns it around. */
  lemma OrderingsMirror(expected: Json, actual: Json)
    requires !expected.Null? && !actual.Null?
    ensures By(">", expected, actual) == By("<", actual, expected)
    ensures By(">=", expected, actual) == By("<=", actual, expected)
  {
    CompareMirrors(actual, expected);
  }

  /** Among values that can be ordered, exactly one of less, equal and greater passes. */
  lemma OrderIsTotal(expected: Json, actual: Json)
    requires !actual.Null? && By("<", expected, actual) != UNKNOWN
    ensures By("<", expected, actual) == PASS <==> By(">=", expected, actual) == FAIL
    ensures By("==", expected, actual) == PASS <==> By(">=", expected, actual) == PASS && By("<=", expected, actual) == PASS
    ensures By(">", expected, actual) == PASS <==> By(">=", expected, actual) == PASS && By("!=", expected, actual) == PASS
  {
    CompareSame(actual, expected);
  }

  /** A missing fact, or an operator the evaluator has no branch for, is never a silent PASS or FAIL. */
  lemma UnknownIsNeverSilent(row: Dict, snapshot: Dict, domain: Domain)
    requires EvaluateRule(row, snapshot, domain).Returned?
    ensures var r := EvaluateRule(row, snapshot, domain).value;
            (r.actual.Null? || !Get(row, "operator").Str? || Get(row, "operator").s !in OPERATORS) ==>
              r.result == UNKNOWN
  {
  }

  lemma {:induction false} RowIsInDomain(rows: seq<Dict>, i: nat, snapshot: Dict, domain: Domain)
    requires i < |rows| && Applies(rows[i], domain) && DomainReasons(rows, snapshot, domain).Returned?
    ensures EvaluateRule(rows[i], snapshot, domain).Returned?
    ensures EvaluateRule(rows[i], snapshot, domain).value in DomainReasons(rows, snapshot, domain).value
  {
    if i > 0 {
      RowIsInDomain(rows[1..], i - 1, snapshot, domain);
    }
  }

  /**
   * The schema stores equality criteria as "=" and ranges as "BETWEEN"; the evaluator knows neither.
   * Whoever the student is, a requirement holding such an applicable criterion never finds them eligible.
   */
  lemma UnsupportedOperatorBlocksEligibility(snapshot: Dict, rules: seq<Dict>, criteria: seq<Dict>, i: nat)
    requires i < |criteria| && Applies(criteria[i], Requirement)
    requires Get(criteria[i], "operator") in {Str("="), Str("BETWEEN")}
    ensures Evaluate(snapshot, rules, criteria).Returned? ==>
              Evaluate(snapshot, rules, criteria).value.verdict != Eligible
  {
    var o := Evaluate(snapshot, rules, criteria);
    if o.Returned? {
      RowIsInDomain(criteria, i, snapshot, Requirement);
      UnknownIsNeverSilent(criteria[i], snapshot, Requirement);
      WorstMeaning(o.value.reasons);
    }
  }

  lemma Passing(op: string, expected: Json, actual: Json)
    requires By(op, expected, actual) == PASS
    ensures exists e, a :: By(op, e, a) == PASS
  {
  }

  /** Of the operators the schema admits, exactly these two can never pass. */
  lemma SchemaOperatorPassesIff(op: string)
    requires op in SCHEMA_OPERATORS
    ensures (exists expected, actual :: By(op, expected, actual) == PASS) <==> op !in {"=", "BETWEEN"}
  {
    match op
    case ">" => Passing(op, Num(0.0), Num(1.0));
    case "<" => Passing(op, Num(1.0), Num(0.0));
    case ">=" => Passing(op, Num(0.0), Num(0.0));
    case "<=" => Passing(op, Num(0.0), Num(0.0));
    case "!=" => Passing(op, Num(0.0), Num(1.0));
    case "IN" =>
      assert PyEq([Num(0.0)][0], Num(0.0));
      Passing(op, Arr([Num(0.0)]), Num(0.0));
    case "NOT_IN" => Passing(op, Arr([]), Num(0.0));
    case _ =>
  }
}
