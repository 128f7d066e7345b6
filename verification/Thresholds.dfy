/** What the operators decide about the values themselves, and what stored thresholds decide about a student. */
module Thresholds {
  import opened Common
  import opened Json
  import opened Evaluator
  import opened EvaluatorProperties
  import opened EvaluationKey
  import opened PolicyRecords
  import opened DecisionCache

  predicate Decides(t: Tri, b: bool) {
    t == if b then PASS else FAIL
  }

  // ---------- the operators on values ----------

  /** A fact x against a limit e is compared as the numbers are. */
  lemma NumbersByOrder(x: real, e: real)
    ensures Decides(By(">", Num(e), Num(x)), x > e) && Decides(By(">=", Num(e), Num(x)), x >= e)
    ensures Decides(By("<", Num(e), Num(x)), x < e) && Decides(By("<=", Num(e), Num(x)), x <= e)
    ensures Decides(By("==", Num(e), Num(x)), x == e) && Decides(By("!=", Num(e), Num(x)), x != e)
  {
  }

  function AsNumber(b: bool): Json {
    Num(if b then 1.0 else 0.0)
  }

  lemma BooleanCompares(b: bool, v: Json)
    ensures PyEq(Bool(b), v) == PyEq(AsNumber(b), v) && PyEq(v, Bool(b)) == PyEq(v, AsNumber(b))
    ensures Compare(Bool(b), v) == Compare(AsNumber(b), v) && Compare(v, Bool(b)) == Compare(v, AsNumber(b))
  {
  }

  /** True is one and false is zero, on either side of every operator. */
  lemma BooleansAreNumbers(op: string, b: bool, v: Json)
    ensures By(op, v, Bool(b)) == By(op, v, AsNumber(b))
    ensures By(op, Bool(b), v) == By(op, AsNumber(b), v)
  {
    BooleanCompares(b, v);
    BooleanContained(b, v);
  }

  lemma BooleanContained(b: bool, v: Json)
    ensures Contains(v, Bool(b)) == Contains(v, AsNumber(b))
  {
    if v.Arr? {
      forall i | 0 <= i < |v.items| ensures PyEq(v.items[i], Bool(b)) == PyEq(v.items[i], AsNumber(b)) {
        BooleanCompares(b, v.items[i]);
      }
    }
  }

  /** Up to i the texts agree, and not beyond. */
  predicate DifferAt(s: string, t: string, i: nat) {
    i <= |s| && i <= |t| && s[..i] == t[..i] && (i == |s| || i == |t| || s[i] != t[i])
  }

  lemma {:induction false} FirstDifference(s: string, t: string) returns (i: nat)
    ensures DifferAt(s, t, i)
  {
    if s == "" || t == "" || s[0] != t[0] {
      i := 0;
    } else {
      var k := FirstDifference(s[1..], t[1..]);
      i := k + 1;
      assert s[..i] == [s[0]] + s[1..][..k] && t[..i] == [t[0]] + t[1..][..k];
    }
  }

  function ByLength(m: int, n: int): Order {
    if m < n then Less else if m == n then Same else Greater
  }

  lemma {:induction false} TextOrderAt(s: string, t: string, i: nat)
    requires DifferAt(s, t, i)
    ensures TextOrder(s, t) == if i < |s| && i < |t| then (if s[i] < t[i] then Less else Greater) else ByLength(|s|, |t|)
  {
    if i > 0 {
      assert s[0] == s[..i][0] == t[..i][0] == t[0];
      assert s[1..][..i - 1] == s[..i][1..] && t[1..][..i - 1] == t[..i][1..];
      TextOrderAt(s[1..], t[1..], i - 1);
    }
  }

  /** Texts are compared at their first difference; a proper beginning is less. */
  lemma TextsByFirstDifference(s: string, t: string, i: nat)
    requires DifferAt(s, t, i)
    ensures var less := i < |t| && (i == |s| || s[i] < t[i]);
            var same := i == |s| && i == |t|;
            Decides(By("<", Str(t), Str(s)), less) && Decides(By("<=", Str(t), Str(s)), less || same) &&
            Decides(By(">", Str(t), Str(s)), !less && !same) && Decides(By(">=", Str(t), Str(s)), !less) &&
            Decides(By("==", Str(t), Str(s)), same)
  {
    TextOrderAt(s, t, i);
    assert i < |s| && i < |t| ==> s != t;
    assert i == |s| == |t| ==> s == s[..i] && t == t[..i];
  }

  /** The items before i are equal, those at i are not, or there are none. */
  predicate ListsDifferAt(a: seq<Json>, b: seq<Json>, i: nat) {
    i <= |a| && i <= |b| && (forall k | 0 <= k < i :: PyEq(a[k], b[k])) && (i == |a| || i == |b| || !PyEq(a[i], b[i]))
  }

  lemma {:induction false} ItemsOrderAt(a: seq<Json>, b: seq<Json>, i: nat)
    requires ListsDifferAt(a, b, i)
    ensures CompareItems(a, b) == if i < |a| && i < |b| then Compare(a[i], b[i]) else ByLength(|a|, |b|)
  {
    if i > 0 {
      forall k | 0 <= k < i - 1 ensures PyEq(a[1..][k], b[1..][k]) {
        assert PyEq(a[k + 1], b[k + 1]);
      }
      ItemsOrderAt(a[1..], b[1..], i - 1);
    }
  }

  /** Lists are compared as the items at their first difference are; without one the shorter is less. */
  lemma ListsByFirstDifference(a: seq<Json>, b: seq<Json>, i: nat)
    requires ListsDifferAt(a, b, i)
    ensures i < |a| && i < |b| ==> forall op | op in {">", ">=", "<", "<="} :: By(op, Arr(b), Arr(a)) == By(op, b[i], a[i])
    ensures i == |a| || i == |b| ==>
              Decides(By("<", Arr(b), Arr(a)), |a| < |b|) && Decides(By("<=", Arr(b), Arr(a)), |a| <= |b|) &&
              Decides(By(">", Arr(b), Arr(a)), |a| > |b|) && Decides(By(">=", Arr(b), Arr(a)), |a| >= |b|)
  {
    ItemsOrderAt(a, b, i);
  }

  /** Nothing else can be ordered: objects, null, and values of different kinds. */
  lemma OtherKindsAreUnknown(op: string, e: Json, x: Json)
    requires op in {">", ">=", "<", "<="}
    requires !((x.Num? || x.Bool?) && (e.Num? || e.Bool?)) && !(x.Str? && e.Str?) && !(x.Arr? && e.Arr?)
    ensures By(op, e, x) == UNKNOWN
  {
  }

  /** Membership is an equal item of a list, a part of a text, or a key of an object. */
  lemma MembershipMeans(items: seq<Json>, x: Json, hay: string, needle: string, fields: Dict)
    ensures !x.Null? ==> Decides(By("IN", Arr(items), x), exists i | 0 <= i < |items| :: By("==", items[i], x) == PASS)
    ensures Decides(By("IN", Str(hay), Str(needle)), exists i, j | 0 <= i <= j <= |hay| :: hay[i..j] == needle)
    ensures Decides(By("IN", Obj(fields), Str(needle)), needle in fields)
  {
    if !x.Null? {
      forall i | 0 <= i < |items| ensures PyEq(items[i], x) <==> By("==", items[i], x) == PASS {
        PyEqSymmetric(items[i], x);
      }
    }
    SubstringMeans(hay, needle);
  }

  lemma SubstringMeans(hay: string, needle: string)
    ensures IsSubstring(needle, hay) <==> exists i, j | 0 <= i <= j <= |hay| :: hay[i..j] == needle
  {
    if IsSubstring(needle, hay) {
      var i :| 0 <= i <= |hay| && needle <= hay[i..];
      assert hay[i..i + |needle|] == hay[i..][..|needle|] == needle;
    }
    if i, j :| 0 <= i <= j <= |hay| && hay[i..j] == needle {
      assert hay[i..][..|needle|] == needle;
      assert needle <= hay[i..];
    }
  }

  /** Lists and objects are equal part by part; values of different kinds are not equal. */
  lemma EqualityMeans(a: seq<Json>, b: seq<Json>, f: Dict, g: Dict)
    ensures Decides(By("==", Arr(b), Arr(a)), |a| == |b| && forall i | 0 <= i < |a| :: PyEq(a[i], b[i]))
    ensures Decides(By("==", Obj(g), Obj(f)), f.Keys == g.Keys && forall k | k in f :: PyEq(f[k], g[k]))
  {
  }

  // ---------- what the columns of a stored row mean ----------

  /** A criterion as the schema admits one with an operator: the operand is an object. */
  function Against(c: Criterion): Json
    requires c.operand.Obj?
  {
    if c.operand.fields == map[] then Null
    else if "value" in c.operand.fields then c.operand.fields["value"]
    else c.operand
  }

  /** The fact under its code is compared with what its operand holds under "value", else with the whole operand. */
  lemma CriterionCompares(c: Criterion, s: Dict)
    requires c.code != "" && c.operator.Some? && c.operand.Obj?
    ensures var fact := Resolve(s, c.code);
            EvaluateRule(CriterionDict(c), s, Requirement) ==
              Returned(Reason(c.code, fact, By(c.operator.value, Against(c), fact), Requirement))
  {
    var row := CriterionDict(c);
    assert row["operand"] == c.operand && row["operator"] == Str(c.operator.value) && row["field"] == Str(c.code);
    CriterionHasNoValue(c);
  }

  lemma CriterionHasNoValue(c: Criterion)
    ensures "value" !in CriterionDict(c)
  {
    assert |"value"| == 5 && |"field"| == 5 && "value"[0] == 'v' && "field"[0] == 'f';
    assert |"operator"| == 8 && |"operand"| == 7 && |"applicability"| == 13;
  }

  /** A criterion that is neither required nor optional leaves every evaluation as it would be without it. */
  lemma SkippedCriterion(c: Criterion, s: Dict, rules: seq<Dict>, before: seq<Dict>, after: seq<Dict>)
    requires c.applicability != "REQUIRED" && c.applicability != "OPTIONAL"
    ensures Evaluate(s, rules, before + [CriterionDict(c)] + after) == Evaluate(s, rules, before + after)
  {
    var row := CriterionDict(c);
    assert row["applicability"] == Str(c.applicability);
    assert before + [row] + after == before + ([row] + after);
    assert ([row] + after)[1..] == after;
    DomainReasonsConcat(before, [row] + after, s, Requirement);
    DomainReasonsConcat(before, after, s, Requirement);
  }

  /** An optional criterion counts as much as a required one. */
  lemma AppliedCriterion(c: Criterion, s: Dict)
    requires c.applicability == "OPTIONAL" || c.applicability == "REQUIRED"
    requires c.code != "" && c.operator.Some? && c.operand.Obj?
    ensures var fact := Resolve(s, c.code);
            RowReasons(CriterionDict(c), s, Requirement) ==
              Returned([Reason(c.code, fact, By(c.operator.value, Against(c), fact), Requirement)])
  {
    CriterionCompares(c, s);
    assert CriterionDict(c)["applicability"] == Str(c.applicability);
  }

  /** A policy rule is read at its own code, unless its definition names a field, and the definition says against what. */
  lemma RuleCompares(r: PolicyRule, s: Dict, path: string, operator: string, limit: Json)
    requires path != "" && Get(r.definition, "operator") == Str(operator) && "value" in r.definition && r.definition["value"] == limit
    requires if "field" in r.definition then r.definition["field"] == Str(path) else r.code == path
    ensures var fact := Resolve(s, path);
            RowReasons(RuleDict(r), s, Policy) == Returned([Reason(path, fact, By(operator, limit, fact), Policy)])
  {
    var row := RuleDict(r);
    assert row["value"] == limit && row["operator"] == Str(operator) && row["field"] == Str(path);
  }

  /** A field that Python takes for false is passed over for the code, and an operand like that stands for no value. */
  lemma FalsyIsPassedOver(row: Dict, v: Json)
    requires v in {Null, Bool(false), Num(0.0), Str(""), Arr([]), Obj(map[])}
    ensures Get(row, "field") == v ==>
              FieldPath(row) == if Get(row, "code").Str? then Returned(Get(row, "code").s) else Raised
    ensures "value" !in row && Get(row, "operand") == v ==> Expected(row) == Returned(Null)
    ensures forall w: Json | w !in {Null, Bool(false), Num(0.0), Str(""), Arr([]), Obj(map[])} && Get(row, "field") == w ::
              FieldPath(row) == if w.Str? then Returned(w.s) else Raised
  {
  }

  // ---------- from stored rows and facts to the verdict ----------

  lemma {:induction false} SplitWhole(key: string)
    requires '.' !in key
    ensures Split(key) == [key]
  {
    if key != "" {
      SplitWhole(key[1..]);
      assert [key[0]] + key[1..] == key;
    }
  }

  lemma {:induction false} SplitFirst(key: string, rest: string)
    requires '.' !in key
    ensures Split(key + ("." + rest)) == [key] + Split(rest)
  {
    var path := key + ("." + rest);
    if key == "" {
      assert path[1..] == rest;
    } else {
      assert path[1..] == key[1..] + ("." + rest);
      SplitFirst(key[1..], rest);
      assert Split(path) == [[key[0]] + key[1..]] + Split(rest);
      assert [key[0]] + key[1..] == key;
    }
  }

  /** The path of a field inside a field. */
  function Dotted(outer: string, inner: string): string {
    outer + ("." + inner)
  }

  lemma NestedFact(s: Dict, outer: string, inner: string)
    requires '.' !in outer && '.' !in inner && outer in s && s[outer].Obj? && inner in s[outer].fields
    ensures Resolve(s, Dotted(outer, inner)) == s[outer].fields[inner]
  {
    SplitFirst(outer, inner);
    SplitWhole(inner);
    assert [outer] + [inner] == [outer, inner] && [outer, inner][1..] == [inner] && [inner][1..] == [];
    assert Follow(Obj(s), [outer, inner]) == Follow(s[outer], [inner]) == Follow(s[outer].fields[inner], []);
  }

  lemma SnapshotFields(f: Facts)
    ensures var s := Snapshot(f);
            "academic" in s && s["academic"] == Obj(map["cgpa" := CgpaValue(f.cgpa), "backlogs" := Num(f.backlogs as real)]) &&
            "placement_history" in s && s["placement_history"] == Obj(map["active_offer_count" := Num(f.offers as real)])
  {
  }

  lemma KeysHaveNoDot()
    ensures '.' !in "academic" && '.' !in "cgpa" && '.' !in "backlogs"
    ensures '.' !in "placement_history" && '.' !in "active_offer_count"
  {
  }

  lemma AcademicPaths(f: Facts)
    ensures Resolve(Snapshot(f), Dotted("academic", "cgpa")) == CgpaValue(f.cgpa)
    ensures Resolve(Snapshot(f), Dotted("academic", "backlogs")) == Num(f.backlogs as real)
  {
    KeysHaveNoDot();
    SnapshotFields(f);
    NestedFact(Snapshot(f), "academic", "cgpa");
    NestedFact(Snapshot(f), "academic", "backlogs");
  }

  lemma OffersPath(f: Facts)
    ensures Resolve(Snapshot(f), Dotted("placement_history", "active_offer_count")) == Num(f.offers as real)
  {
    KeysHaveNoDot();
    SnapshotFields(f);
    NestedFact(Snapshot(f), "placement_history", "active_offer_count");
  }

  /** Where the three facts of a snapshot are found. */
  lemma FactPaths(f: Facts)
    ensures Resolve(Snapshot(f), Dotted("academic", "cgpa")) ==
              match f.cgpa case None => Null case Some(c) => Num(c.whole as real + c.micros as real / 1_000_000.0)
    ensures Resolve(Snapshot(f), Dotted("academic", "backlogs")) == Num(f.backlogs as real)
    ensures Resolve(Snapshot(f), Dotted("placement_history", "active_offer_count")) == Num(f.offers as real)
  {
    AcademicPaths(f);
    OffersPath(f);
  }

  /** A limit on a numeric fact. */
  datatype Threshold = Threshold(path: string, operator: string, limit: real)

  predicate WellFormed(t: Threshold) {
    t.path != "" && t.operator in {">", ">=", "<", "<=", "!="}
  }

  predicate Meets(t: Threshold, x: real) {
    match t.operator
    case ">" => x > t.limit
    case ">=" => x >= t.limit
    case "<" => x < t.limit
    case "<=" => x <= t.limit
    case _ => x != t.limit
  }

  /** The policy rule that stores a threshold. */
  function AsRule(version: Uuid, t: Threshold): PolicyRule {
    PolicyRule(version, t.path, map["operator" := Str(t.operator), "value" := Num(t.limit)])
  }

  /** The criterion that stores a threshold. */
  function AsCriterion(version: Uuid, t: Threshold): Criterion {
    Criterion(version, t.path, "REQUIRED", Some(t.operator), Obj(map["value" := Num(t.limit)]))
  }

  function Result(t: Threshold, fact: Json): Tri
    requires fact.Null? || fact.Num?
  {
    if fact.Null? then UNKNOWN else if Meets(t, fact.n) then PASS else FAIL
  }

  lemma OperatorResult(t: Threshold, fact: Json)
    requires WellFormed(t) && (fact.Null? || fact.Num?)
    ensures EvaluateOperator(Str(t.operator), Num(t.limit), fact) == Result(t, fact)
  {
    if fact.Num? {
      NumbersByOrder(fact.n, t.limit);
    }
  }

  lemma RuleReads(version: Uuid, t: Threshold)
    requires WellFormed(t)
    ensures var row := RuleDict(AsRule(version, t));
            FieldPath(row) == Returned(t.path) && Expected(row) == Returned(Num(t.limit)) &&
            Get(row, "operator") == Str(t.operator) && Applies(row, Policy)
  {
  }

  lemma CriterionReads(version: Uuid, t: Threshold)
    requires WellFormed(t)
    ensures var row := CriterionDict(AsCriterion(version, t));
            FieldPath(row) == Returned(t.path) && Expected(row) == Returned(Num(t.limit)) &&
            Get(row, "operator") == Str(t.operator) && Applies(row, Requirement)
  {
    var row := CriterionDict(AsCriterion(version, t));
    assert row["operand"] == Obj(map["value" := Num(t.limit)]) && "value" in row["operand"].fields;
  }

  /** The row of a threshold, in either domain. */
  predicate Stores(row: Dict, t: Threshold, domain: Domain) {
    FieldPath(row) == Returned(t.path) && Expected(row) == Returned(Num(t.limit)) &&
    Get(row, "operator") == Str(t.operator) && Applies(row, domain)
  }

  lemma StoredResult(row: Dict, t: Threshold, s: Dict, domain: Domain)
    requires WellFormed(t) && Stores(row, t, domain) && (Resolve(s, t.path).Null? || Resolve(s, t.path).Num?)
    ensures EvaluateRule(row, s, domain).Returned? && EvaluateRule(row, s, domain).value.result == Result(t, Resolve(s, t.path))
  {
    OperatorResult(t, Resolve(s, t.path));
  }

  function RulesFor(version: Uuid, ts: seq<Threshold>): seq<PolicyRule> {
    seq(|ts|, i requires 0 <= i < |ts| => AsRule(version, ts[i]))
  }

  function CriteriaFor(version: Uuid, ts: seq<Threshold>): seq<Criterion> {
    seq(|ts|, i requires 0 <= i < |ts| => AsCriterion(version, ts[i]))
  }

  /** Every threshold is one of ours, on a fact that is a number or not known. */
  predicate Readable(ts: seq<Threshold>, s: Dict) {
    forall t | t in ts :: WellFormed(t) && (Resolve(s, t.path).Null? || Resolve(s, t.path).Num?)
  }

  predicate Missed(ts: seq<Threshold>, s: Dict) {
    exists t | t in ts :: Resolve(s, t.path).Num? && !Meets(t, Resolve(s, t.path).n)
  }

  predicate SomeUnknown(ts: seq<Threshold>, s: Dict) {
    exists t | t in ts :: Resolve(s, t.path).Null?
  }

  function WorstOf(ts: seq<Threshold>, s: Dict): Tri
    requires Readable(ts, s)
  {
    if ts == [] then PASS
    else
      assert ts == [ts[0]] + ts[1..];
      Worse(Result(ts[0], Resolve(s, ts[0].path)), WorstOf(ts[1..], s))
  }

  lemma {:induction false} WorstOfMeans(ts: seq<Threshold>, s: Dict)
    requires Readable(ts, s)
    ensures WorstOf(ts, s) == if Missed(ts, s) then FAIL else if SomeUnknown(ts, s) then UNKNOWN else PASS
  {
    if ts != [] {
      assert ts == [ts[0]] + ts[1..];
      WorstOfMeans(ts[1..], s);
      assert forall t :: t in ts <==> t == ts[0] || t in ts[1..];
    }
  }

  predicate AllStore(rows: seq<Dict>, ts: seq<Threshold>, domain: Domain) {
    |rows| == |ts| && forall i | 0 <= i < |ts| :: Stores(rows[i], ts[i], domain)
  }

  lemma RestStores(rows: seq<Dict>, ts: seq<Threshold>, s: Dict, domain: Domain)
    requires AllStore(rows, ts, domain) && Readable(ts, s) && rows != []
    ensures AllStore(rows[1..], ts[1..], domain) && Readable(ts[1..], s) && WellFormed(ts[0])
    ensures Resolve(s, ts[0].path).Null? || Resolve(s, ts[0].path).Num?
  {
    assert ts == [ts[0]] + ts[1..];
    forall i | 0 <= i < |ts| - 1 ensures Stores(rows[1..][i], ts[1..][i], domain) {
      assert Stores(rows[i + 1], ts[i + 1], domain);
    }
  }

  lemma FirstStored(rows: seq<Dict>, t: Threshold, s: Dict, domain: Domain)
    requires rows != [] && Stores(rows[0], t, domain) && WellFormed(t) && (Resolve(s, t.path).Null? || Resolve(s, t.path).Num?)
    ensures var all, rest := DomainReasons(rows, s, domain), DomainReasons(rows[1..], s, domain);
            rest.Returned? ==> all.Returned? && Worst(all.value) == Worse(Result(t, Resolve(s, t.path)), Worst(rest.value))
  {
    StoredResult(rows[0], t, s, domain);
    WorstOfRow(rows, s, domain);
  }

  lemma {:induction false} DomainWorst(rows: seq<Dict>, ts: seq<Threshold>, s: Dict, domain: Domain)
    requires AllStore(rows, ts, domain) && Readable(ts, s)
    ensures DomainReasons(rows, s, domain).Returned? && Worst(DomainReasons(rows, s, domain).value) == WorstOf(ts, s)
    decreases |rows|
  {
    if rows != [] {
      RestStores(rows, ts, s, domain);
      DomainWorst(rows[1..], ts[1..], s, domain);
      FirstStored(rows, ts[0], s, domain);
    }
  }

  lemma RulesStore(version: Uuid, ts: seq<Threshold>, s: Dict)
    requires Readable(ts, s)
    ensures AllStore(RuleDicts(RulesFor(version, ts)), ts, Policy)
  {
    forall i | 0 <= i < |ts| ensures Stores(RuleDicts(RulesFor(version, ts))[i], ts[i], Policy) {
      RuleReads(version, ts[i]);
    }
  }

  lemma CriteriaStore(version: Uuid, ts: seq<Threshold>, s: Dict)
    requires Readable(ts, s)
    ensures AllStore(CriterionDicts(CriteriaFor(version, ts)), ts, Requirement)
  {
    forall i | 0 <= i < |ts| ensures Stores(CriterionDicts(CriteriaFor(version, ts))[i], ts[i], Requirement) {
      CriterionReads(version, ts[i]);
    }
  }

  /**
   * The verdict on thresholds, from the rows as they are stored: NOT_ELIGIBLE iff a known fact misses its limit,
   * ELIGIBLE iff all facts are known and meet theirs, and UNKNOWN otherwise.
   */
  lemma ThresholdsDecide(s: Dict, policy: Uuid, requirement: Uuid, ts: seq<Threshold>, us: seq<Threshold>)
    requires Readable(ts, s) && Readable(us, s)
    ensures var o := Evaluate(s, RuleDicts(RulesFor(policy, ts)), CriterionDicts(CriteriaFor(requirement, us)));
            o.Returned? &&
            o.value.verdict ==
              if Missed(ts, s) || Missed(us, s) then NotEligible
              else if SomeUnknown(ts, s) || SomeUnknown(us, s) then Undetermined
              else Eligible
  {
    RulesStore(policy, ts, s);
    CriteriaStore(requirement, us, s);
    DomainWorst(RuleDicts(RulesFor(policy, ts)), ts, s, Policy);
    DomainWorst(CriterionDicts(CriteriaFor(requirement, us)), us, s, Requirement);
    WorstOfMeans(ts, s);
    WorstOfMeans(us, s);
    VerdictOfBoth(s, RuleDicts(RulesFor(policy, ts)), CriterionDicts(CriteriaFor(requirement, us)));
  }

  lemma VerdictOfBoth(s: Dict, rules: seq<Dict>, criteria: seq<Dict>)
    requires DomainReasons(rules, s, Policy).Returned? && DomainReasons(criteria, s, Requirement).Returned?
    ensures var p, r := Worst(DomainReasons(rules, s, Policy).value), Worst(DomainReasons(criteria, s, Requirement).value);
            var o := Evaluate(s, rules, criteria);
            o.Returned? &&
            o.value.verdict ==
              if p == FAIL || r == FAIL then NotEligible else if p == UNKNOWN || r == UNKNOWN then Undetermined else Eligible
  {
    WorstConcat(DomainReasons(criteria, s, Requirement).value, DomainReasons(rules, s, Policy).value);
  }

  lemma OneThreshold(s: Dict, policy: Uuid, requirement: Uuid, t: Threshold)
    requires WellFormed(t) && (Resolve(s, t.path).Null? || Resolve(s, t.path).Num?)
    ensures var o := Evaluate(s, RuleDicts(RulesFor(policy, [t])), CriterionDicts(CriteriaFor(requirement, [])));
            o.Returned? &&
            o.value.verdict ==
              if Resolve(s, t.path).Null? then Undetermined
              else if Meets(t, Resolve(s, t.path).n) then Eligible
              else NotEligible
  {
    ThresholdsDecide(s, policy, requirement, [t], []);
    assert forall u :: u in [t] <==> u == t;
  }

  /** A policy whose only rule is a minimum grade. */
  lemma MinimumGrade(f: Facts, policy: Uuid, requirement: Uuid, t: Threshold)
    requires t.path == Dotted("academic", "cgpa") && t.operator == ">="
    ensures var o := Evaluate(Snapshot(f), RuleDicts(RulesFor(policy, [t])), CriterionDicts(CriteriaFor(requirement, [])));
            o.Returned? &&
            o.value.verdict ==
              match f.cgpa
              case None => Undetermined
              case Some(c) =>
                if c.whole as real + c.micros as real / 1_000_000.0 >= t.limit then Eligible else NotEligible
  {
    FactPaths(f);
    assert |t.path| > 0;
    OneThreshold(Snapshot(f), policy, requirement, t);
  }
}
