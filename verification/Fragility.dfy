/** Which results and verdicts survive whatever may still become known about a student. */
module Fragility {
  import opened Common
  import opened Json
  import opened Evaluator
  import opened EvaluatorProperties

  // ---------- what a value can become ----------

  /** Filling in nulls and adding keys can make the first value equal to the second. */
  predicate CanBecome(a: Json, e: Json)
    decreases a
  {
    match a
    case Null => true
    case Obj(fields) => e.Obj? && fields.Keys <= e.fields.Keys && forall k | k in fields :: CanBecome(fields[k], e.fields[k])
    case _ => PyEq(a, e)
  }

  lemma {:induction false} PyEqReflexive(a: Json)
    ensures PyEq(a, a)
    decreases a
  {
    match a
    case Arr(items) =>
      forall i | 0 <= i < |items| ensures PyEq(items[i], items[i]) {
        PyEqReflexive(items[i]);
      }
    case Obj(fields) =>
      forall k | k in fields ensures PyEq(fields[k], fields[k]) {
        PyEqReflexive(fields[k]);
      }
    case _ =>
  }

  lemma {:induction false} RefinesReflexive(a: Json)
    ensures Refines(a, a)
    decreases a
  {
    if a.Obj? {
      forall k | k in a.fields ensures Refines(a.fields[k], a.fields[k]) {
        RefinesReflexive(a.fields[k]);
      }
    }
  }

  lemma {:induction false} BecameCan(a: Json, b: Json, e: Json)
    requires Refines(a, b) && PyEq(b, e)
    ensures CanBecome(a, e)
    decreases a
  {
    if a.Obj? {
      forall k | k in a.fields ensures k in e.fields && CanBecome(a.fields[k], e.fields[k]) {
        assert k in b.fields;
        BecameCan(a.fields[k], b.fields[k], e.fields[k]);
      }
    }
  }

  function Becoming(a: Json, e: Json): Json
    requires CanBecome(a, e)
    decreases a
  {
    match a
    case Null => e
    case Obj(fields) =>
      Obj(map k | k in e.fields :: if k in fields then Becoming(fields[k], e.fields[k]) else e.fields[k])
    case _ => a
  }

  lemma {:induction false} BecomingBecomes(a: Json, e: Json)
    requires CanBecome(a, e)
    ensures Refines(a, Becoming(a, e)) && PyEq(Becoming(a, e), e)
    decreases a
  {
    PyEqReflexive(e);
    if a.Obj? {
      var b := Becoming(a, e);
      forall k | k in a.fields ensures Refines(a.fields[k], b.fields[k]) {
        BecomingBecomes(a.fields[k], e.fields[k]);
      }
      forall k | k in b.fields ensures PyEq(b.fields[k], e.fields[k]) {
        if k in a.fields {
          BecomingBecomes(a.fields[k], e.fields[k]);
        }
      }
    }
  }

  /** CanBecome means what it says. */
  lemma CanBecomeIff(a: Json, e: Json)
    ensures CanBecome(a, e) <==> exists b :: Refines(a, b) && PyEq(b, e)
  {
    if CanBecome(a, e) {
      BecomingBecomes(a, e);
      var b := Becoming(a, e);
      assert Refines(a, b) && PyEq(b, e);
    }
    if exists b :: Refines(a, b) && PyEq(b, e) {
      var b :| Refines(a, b) && PyEq(b, e);
      BecameCan(a, b, e);
    }
  }

  // ---------- one operator on an object ----------

  function KeysOf(v: Json): set<string> {
    if v.Obj? then v.fields.Keys else {}
  }

  function KeysOfAll(items: seq<Json>): set<string> {
    if items == [] then {} else KeysOf(items[0]) + KeysOfAll(items[1..])
  }

  lemma {:induction false} KeysOfItem(items: seq<Json>, i: nat)
    requires i < |items|
    ensures KeysOf(items[i]) <= KeysOfAll(items)
  {
    if i > 0 {
      KeysOfItem(items[1..], i - 1);
    }
  }

  lemma {:induction false} FreshKey(keys: set<string>) returns (unused: string)
    ensures forall k | k in keys :: |k| < |unused|
    decreases |keys|
  {
    if keys == {} {
      unused := "";
    } else {
      var k :| k in keys;
      var shorter := FreshKey(keys - {k});
      unused := shorter + k + "x";
      forall j | j in keys ensures |j| < |unused| {
        assert j == k || j in keys - {k};
      }
    }
  }

  /** A new key makes an object different from every value that does not have it. */
  lemma Grown(o: Json, avoid: set<string>) returns (o': Json)
    requires o.Obj?
    ensures Refines(o, o') && o'.Obj?
    ensures forall v: Json | KeysOf(v) <= avoid :: !PyEq(v, o') && !PyEq(o', v)
  {
    var unused := FreshKey(o.fields.Keys + avoid);
    assert unused !in o.fields.Keys + avoid;
    o' := Obj(o.fields[unused := Null]);
    RefinesReflexive(o);
    forall v: Json | KeysOf(v) <= avoid ensures !PyEq(v, o') && !PyEq(o', v) {
      assert unused in o'.fields.Keys && unused !in KeysOf(v);
    }
  }

  /** The operator passes on this object but fails on something the object can become. */
  predicate FragileOn(operator: Json, expected: Json, o: Json) {
    o.Obj? &&
    match operator
    case Str("==") => true
    case Str("IN") => true
    case Str("!=") => CanBecome(o, expected)
    case Str("NOT_IN") => expected.Arr? && exists i | 0 <= i < |expected.items| :: CanBecome(o, expected.items[i])
    case _ => false
  }

  lemma EqualityBreaks(expected: Json, o: Json) returns (o': Json)
    requires o.Obj?
    ensures Refines(o, o') && EvaluateOperator(Str("=="), expected, o') == FAIL
  {
    o' := Grown(o, KeysOf(expected));
  }

  lemma MembershipBreaks(expected: Json, o: Json) returns (o': Json)
    requires o.Obj? && EvaluateOperator(Str("IN"), expected, o) == PASS
    ensures Refines(o, o') && EvaluateOperator(Str("IN"), expected, o') == FAIL
  {
    var items := expected.items;
    o' := Grown(o, KeysOfAll(items));
    forall i | 0 <= i < |items| ensures !PyEq(items[i], o') {
      KeysOfItem(items, i);
    }
  }

  lemma ExclusionBreaks(expected: Json, o: Json) returns (o': Json)
    requires FragileOn(Str("NOT_IN"), expected, o)
    ensures Refines(o, o') && EvaluateOperator(Str("NOT_IN"), expected, o') == FAIL
  {
    var i :| 0 <= i < |expected.items| && CanBecome(o, expected.items[i]);
    BecomingBecomes(o, expected.items[i]);
    o' := Becoming(o, expected.items[i]);
    PyEqSymmetric(o', expected.items[i]);
  }

  lemma FragileBreaks(operator: Json, expected: Json, o: Json) returns (o': Json)
    requires FragileOn(operator, expected, o) && EvaluateOperator(operator, expected, o) == PASS
    ensures Refines(o, o') && EvaluateOperator(operator, expected, o') == FAIL
  {
    if operator == Str("==") {
      o' := EqualityBreaks(expected, o);
    } else if operator == Str("IN") {
      o' := MembershipBreaks(expected, o);
    } else if operator == Str("!=") {
      BecomingBecomes(o, expected);
      o' := Becoming(o, expected);
    } else {
      o' := ExclusionBreaks(expected, o);
    }
  }

  lemma SturdyHolds(operator: Json, expected: Json, o: Json, o': Json)
    requires o.Obj? && !FragileOn(operator, expected, o) && EvaluateOperator(operator, expected, o) == PASS && Refines(o, o')
    ensures EvaluateOperator(operator, expected, o') == PASS
  {
    if operator == Str("!=") && PyEq(o', expected) {
      BecameCan(o, o', expected);
    } else if operator == Str("NOT_IN") {
      forall i | 0 <= i < |expected.items| ensures !PyEq(expected.items[i], o') {
        if PyEq(expected.items[i], o') {
          PyEqSymmetric(expected.items[i], o');
          BecameCan(o, o', expected.items[i]);
        }
      }
    }
  }

  // ---------- one row ----------

  /** The row reads an object that can become something on which it fails. */
  predicate Fragile(row: Dict, snapshot: Dict) {
    FieldPath(row).Returned? && Expected(row).Returned? &&
    FragileOn(Get(row, "operator"), Expected(row).value, Resolve(snapshot, FieldPath(row).value))
  }

  predicate Passes(row: Dict, snapshot: Dict, domain: Domain) {
    EvaluateRule(row, snapshot, domain).Returned? && EvaluateRule(row, snapshot, domain).value.result == PASS
  }

  /** The value with another put in place of what the keys lead to. */
  function Put(current: Json, keys: seq<string>, v: Json): Json {
    if keys == [] then v
    else if current.Obj? && keys[0] in current.fields
    then Obj(current.fields[keys[0] := Put(current.fields[keys[0]], keys[1..], v)])
    else current
  }

  lemma {:induction false} PutRefines(current: Json, keys: seq<string>, v: Json)
    requires Follow(current, keys).Obj? && Refines(Follow(current, keys), v)
    ensures Refines(current, Put(current, keys, v)) && Follow(Put(current, keys, v), keys) == v
    ensures current.Obj? ==> Put(current, keys, v).Obj?
  {
    if keys != [] {
      PutRefines(current.fields[keys[0]], keys[1..], v);
      RefinesReflexive(current);
    }
  }

  lemma SturdyRowPasses(row: Dict, a: Dict, b: Dict, domain: Domain)
    requires Refines(Obj(a), Obj(b)) && Passes(row, a, domain) && !Fragile(row, a)
    ensures Passes(row, b, domain)
  {
    var keys := Split(FieldPath(row).value);
    FollowRefines(Obj(a), Obj(b), keys);
    if Follow(Obj(a), keys).Obj? {
      SturdyHolds(Get(row, "operator"), Expected(row).value, Follow(Obj(a), keys), Follow(Obj(b), keys));
    }
  }

  lemma FragileRowFails(row: Dict, a: Dict, domain: Domain) returns (b: Dict)
    requires Passes(row, a, domain) && Fragile(row, a)
    ensures Refines(Obj(a), Obj(b))
    ensures EvaluateRule(row, b, domain).Returned? && EvaluateRule(row, b, domain).value.result == FAIL
  {
    var keys := Split(FieldPath(row).value);
    var o' := FragileBreaks(Get(row, "operator"), Expected(row).value, Follow(Obj(a), keys));
    PutRefines(Obj(a), keys, o');
    b := Put(Obj(a), keys, o').fields;
  }

  // ---------- all rows ----------

  predicate AllPass(rows: seq<Dict>, snapshot: Dict, domain: Domain) {
    forall row | row in rows && Applies(row, domain) :: Passes(row, snapshot, domain)
  }

  lemma {:induction false} AllPassIff(rows: seq<Dict>, snapshot: Dict, domain: Domain)
    ensures AllPass(rows, snapshot, domain) <==>
              DomainReasons(rows, snapshot, domain).Returned? &&
              forall r | r in DomainReasons(rows, snapshot, domain).value :: r.result == PASS
  {
    if rows != [] {
      AllPassIff(rows[1..], snapshot, domain);
      assert rows == [rows[0]] + rows[1..];
      assert AllPass(rows, snapshot, domain) <==>
          (Applies(rows[0], domain) ==> Passes(rows[0], snapshot, domain)) && AllPass(rows[1..], snapshot, domain);
    }
  }

  predicate EligibleOn(snapshot: Dict, rules: seq<Dict>, criteria: seq<Dict>) {
    Evaluate(snapshot, rules, criteria).Returned? && Evaluate(snapshot, rules, criteria).value.verdict == Eligible
  }

  lemma EligibleIffAllPass(snapshot: Dict, rules: seq<Dict>, criteria: seq<Dict>)
    ensures EligibleOn(snapshot, rules, criteria) <==>
              AllPass(rules, snapshot, Policy) && AllPass(criteria, snapshot, Requirement)
  {
    AllPassIff(rules, snapshot, Policy);
    AllPassIff(criteria, snapshot, Requirement);
    var r, p := DomainReasons(criteria, snapshot, Requirement), DomainReasons(rules, snapshot, Policy);
    if r.Returned? && p.Returned? {
      WorstMeaning(r.value + p.value);
      assert forall x :: x in r.value + p.value <==> x in r.value || x in p.value;
    }
  }

  lemma {:induction false} RaisesAlike(rows: seq<Dict>, a: Dict, b: Dict, domain: Domain)
    ensures DomainReasons(rows, a, domain).Returned? == DomainReasons(rows, b, domain).Returned?
  {
    if rows != [] {
      RaisesAlike(rows[1..], a, b, domain);
    }
  }

  lemma FailingRowDecides(rows: seq<Dict>, i: nat, snapshot: Dict, rules: seq<Dict>, criteria: seq<Dict>, domain: Domain)
    requires rows == (if domain.Policy? then rules else criteria) && i < |rows| && Applies(rows[i], domain)
    requires Evaluate(snapshot, rules, criteria).Returned?
    requires EvaluateRule(rows[i], snapshot, domain).Returned? && EvaluateRule(rows[i], snapshot, domain).value.result == FAIL
    ensures Evaluate(snapshot, rules, criteria).value.verdict == NotEligible
  {
    RowIsInDomain(rows, i, snapshot, domain);
    var reasons := Evaluate(snapshot, rules, criteria).value.reasons;
    assert EvaluateRule(rows[i], snapshot, domain).value in reasons;
    WorstMeaning(reasons);
  }

  predicate SomeFragile(rows: seq<Dict>, snapshot: Dict, domain: Domain) {
    exists row | row in rows :: Applies(row, domain) && Fragile(row, snapshot)
  }

  lemma FailingRowSettles(row: Dict, a: Dict, b: Dict, rules: seq<Dict>, criteria: seq<Dict>, domain: Domain)
    requires row in (if domain.Policy? then rules else criteria) && Applies(row, domain)
    requires Evaluate(a, rules, criteria).Returned?
    requires EvaluateRule(row, b, domain).Returned? && EvaluateRule(row, b, domain).value.result == FAIL
    ensures Evaluate(b, rules, criteria).Returned? && Evaluate(b, rules, criteria).value.verdict == NotEligible
  {
    var rows := if domain.Policy? then rules else criteria;
    var i :| 0 <= i < |rows| && rows[i] == row;
    RaisesAlike(rules, a, b, Policy);
    RaisesAlike(criteria, a, b, Requirement);
    FailingRowDecides(rows, i, b, rules, criteria, domain);
  }

  lemma FragileRowOverturns(a: Dict, rules: seq<Dict>, criteria: seq<Dict>, domain: Domain) returns (b: Dict)
    requires EligibleOn(a, rules, criteria) && SomeFragile(if domain.Policy? then rules else criteria, a, domain)
    ensures Refines(Obj(a), Obj(b))
    ensures Evaluate(b, rules, criteria).Returned? && Evaluate(b, rules, criteria).value.verdict == NotEligible
  {
    var rows := if domain.Policy? then rules else criteria;
    var row :| row in rows && Applies(row, domain) && Fragile(row, a);
    EligibleIffAllPass(a, rules, criteria);
    assert AllPass(rows, a, domain);
    b := FragileRowFails(row, a, domain);
    FailingRowSettles(row, a, b, rules, criteria, domain);
  }

  lemma SturdyStaysEligible(a: Dict, b: Dict, rules: seq<Dict>, criteria: seq<Dict>)
    requires EligibleOn(a, rules, criteria) && Refines(Obj(a), Obj(b))
    requires !SomeFragile(rules, a, Policy) && !SomeFragile(criteria, a, Requirement)
    ensures EligibleOn(b, rules, criteria)
  {
    EligibleIffAllPass(a, rules, criteria);
    EligibleIffAllPass(b, rules, criteria);
    forall row | row in rules && Applies(row, Policy) ensures Passes(row, b, Policy) {
      SturdyRowPasses(row, a, b, Policy);
    }
    forall row | row in criteria && Applies(row, Requirement) ensures Passes(row, b, Requirement) {
      SturdyRowPasses(row, a, b, Requirement);
    }
  }

  /**
   * The exact condition for ELIGIBLE: it survives whatever may become known if and only if no applicable row is
   * fragile; a fragile row can always be brought to turn it into NOT_ELIGIBLE.
   */
  lemma EligibleSurvivesIff(a: Dict, rules: seq<Dict>, criteria: seq<Dict>)
    requires EligibleOn(a, rules, criteria)
    ensures (forall b | Refines(Obj(a), Obj(b)) :: EligibleOn(b, rules, criteria)) <==>
              !SomeFragile(rules, a, Policy) && !SomeFragile(criteria, a, Requirement)
  {
    if SomeFragile(rules, a, Policy) {
      var b := FragileRowOverturns(a, rules, criteria, Policy);
    } else if SomeFragile(criteria, a, Requirement) {
      var b := FragileRowOverturns(a, rules, criteria, Requirement);
    } else {
      forall b | Refines(Obj(a), Obj(b)) ensures EligibleOn(b, rules, criteria) {
        SturdyStaysEligible(a, b, rules, criteria);
      }
    }
  }

  // ---------- rows that fail ----------

  predicate Fails(row: Dict, snapshot: Dict, domain: Domain) {
    EvaluateRule(row, snapshot, domain).Returned? && EvaluateRule(row, snapshot, domain).value.result == FAIL
  }

  /** The operator fails on this object but passes on something the object can become. */
  predicate MendableOn(operator: Json, expected: Json, o: Json) {
    o.Obj? &&
    match operator
    case Str("!=") => true
    case Str("NOT_IN") => true
    case Str("==") => CanBecome(o, expected)
    case Str("IN") => expected.Arr? && exists i | 0 <= i < |expected.items| :: CanBecome(o, expected.items[i])
    case _ => false
  }

  /** The row reads an object that can become something on which it passes. */
  predicate Mendable(row: Dict, snapshot: Dict) {
    FieldPath(row).Returned? && Expected(row).Returned? &&
    MendableOn(Get(row, "operator"), Expected(row).value, Resolve(snapshot, FieldPath(row).value))
  }

  function NegatedName(operator: string): string {
    match operator
    case "==" => "!="
    case "!=" => "=="
    case ">" => "<="
    case "<=" => ">"
    case "<" => ">="
    case ">=" => "<"
    case "IN" => "NOT_IN"
    case "NOT_IN" => "IN"
    case _ => operator
  }

  function Negated(operator: Json): Json {
    if operator.Str? then Str(NegatedName(operator.s)) else operator
  }

  function Turned(row: Dict): Dict {
    row["operator" := Negated(Get(row, "operator"))]
  }

  lemma NegatedNameIsOpposite(op: string, expected: Json, actual: Json)
    requires op in OPERATORS
    ensures By(NegatedName(op), expected, actual) == Opposite(By(op, expected, actual))
  {
    OperatorsAreDual(expected, actual);
  }

  lemma NegatedIsOpposite(operator: Json, expected: Json, actual: Json)
    ensures EvaluateOperator(Negated(operator), expected, actual) == Opposite(EvaluateOperator(operator, expected, actual))
  {
    if operator.Str? && operator.s in OPERATORS {
      NegatedNameIsOpposite(operator.s, expected, actual);
    } else if operator.Str? {
      assert NegatedName(operator.s) == operator.s;
    }
  }

  lemma NegatedIsFragile(operator: Json, expected: Json, o: Json)
    ensures FragileOn(Negated(operator), expected, o) <==> MendableOn(operator, expected, o)
  {
  }

  lemma TurnedReads(row: Dict)
    ensures FieldPath(Turned(row)) == FieldPath(row) && Expected(Turned(row)) == Expected(row)
    ensures Get(Turned(row), "operator") == Negated(Get(row, "operator"))
  {
  }

  /** With the opposite operator a row passes where it failed, and is fragile where it was mendable. */
  lemma TurnedIsOpposite(row: Dict, snapshot: Dict, domain: Domain)
    ensures Passes(Turned(row), snapshot, domain) <==> Fails(row, snapshot, domain)
    ensures Fails(Turned(row), snapshot, domain) <==> Passes(row, snapshot, domain)
    ensures Fragile(Turned(row), snapshot) <==> Mendable(row, snapshot)
  {
    TurnedReads(row);
    if FieldPath(row).Returned? && Expected(row).Returned? {
      NegatedIsOpposite(Get(row, "operator"), Expected(row).value, Resolve(snapshot, FieldPath(row).value));
      NegatedIsFragile(Get(row, "operator"), Expected(row).value, Resolve(snapshot, FieldPath(row).value));
    }
  }

  lemma UnmendableRowFails(row: Dict, a: Dict, b: Dict, domain: Domain)
    requires Refines(Obj(a), Obj(b)) && Fails(row, a, domain) && !Mendable(row, a)
    ensures Fails(row, b, domain)
  {
    TurnedIsOpposite(row, a, domain);
    TurnedIsOpposite(row, b, domain);
    SturdyRowPasses(Turned(row), a, b, domain);
  }

  /** The exact condition for one row: its FAIL survives whatever may become known iff the row is not mendable. */
  lemma FailSurvivesIff(row: Dict, a: Dict, domain: Domain)
    requires Fails(row, a, domain)
    ensures (forall b | Refines(Obj(a), Obj(b)) :: Fails(row, b, domain)) <==> !Mendable(row, a)
    ensures Mendable(row, a) ==> exists b :: Refines(Obj(a), Obj(b)) && Passes(row, b, domain)
  {
    if Mendable(row, a) {
      TurnedIsOpposite(row, a, domain);
      var b := FragileRowFails(Turned(row), a, domain);
      TurnedIsOpposite(row, b, domain);
      assert Refines(Obj(a), Obj(b)) && Passes(row, b, domain) && !Fails(row, b, domain);
    } else {
      forall b | Refines(Obj(a), Obj(b)) ensures Fails(row, b, domain) {
        UnmendableRowFails(row, a, b, domain);
      }
    }
  }

  predicate NotEligibleOn(snapshot: Dict, rules: seq<Dict>, criteria: seq<Dict>) {
    Evaluate(snapshot, rules, criteria).Returned? && Evaluate(snapshot, rules, criteria).value.verdict == NotEligible
  }

  predicate SomeUnmendable(rows: seq<Dict>, snapshot: Dict, domain: Domain) {
    exists row | row in rows :: Applies(row, domain) && Fails(row, snapshot, domain) && !Mendable(row, snapshot)
  }

  /** One applicable row that fails and is not mendable settles NOT_ELIGIBLE, whatever objects the other rows read. */
  lemma NotEligibleSurvives(a: Dict, b: Dict, rules: seq<Dict>, criteria: seq<Dict>, domain: Domain)
    requires Evaluate(a, rules, criteria).Returned? && Refines(Obj(a), Obj(b))
    requires SomeUnmendable(if domain.Policy? then rules else criteria, a, domain)
    ensures NotEligibleOn(a, rules, criteria) && NotEligibleOn(b, rules, criteria)
  {
    var rows := if domain.Policy? then rules else criteria;
    var row :| row in rows && Applies(row, domain) && Fails(row, a, domain) && !Mendable(row, a);
    FailingRowSettles(row, a, a, rules, criteria, domain);
    UnmendableRowFails(row, a, b, domain);
    FailingRowSettles(row, a, b, rules, criteria, domain);
  }

  lemma TwoRules(s: Dict, r0: Dict, r1: Dict)
    requires FieldPath(r0).Returned? && Expected(r0).Returned? && FieldPath(r1).Returned? && Expected(r1).Returned?
    requires Fails(r0, s, Policy) || Fails(r1, s, Policy)
    ensures NotEligibleOn(s, [r0, r1], [])
  {
    assert [r0, r1][1..] == [r1] && [r1][1..] == [];
    assert DomainReasons([r1], s, Policy).Returned? && DomainReasons([], s, Requirement).Returned?;
    if Fails(r0, s, Policy) {
      FailingRowDecides([r0, r1], 0, s, [r0, r1], [], Policy);
    } else {
      FailingRowDecides([r0, r1], 1, s, [r0, r1], [], Policy);
    }
  }

  function Wants(n: real): Dict {
    EqualTo(Obj(map["k" := Num(n)]))
  }

  lemma WantsReads(n: real, s: Dict)
    requires "x" in s && s["x"].Obj?
    ensures FieldPath(Wants(n)).Returned? && Expected(Wants(n)).Returned?
    ensures Fails(Wants(n), s, Policy) <==> !PyEq(s["x"], Obj(map["k" := Num(n)]))
    ensures Mendable(Wants(n), s) <==> CanBecome(s["x"], Obj(map["k" := Num(n)]))
  {
    EqualToReads(Obj(map["k" := Num(n)]), s);
  }

  lemma DifferentObjects(v: Json, m: real, n: real)
    requires m != n
    ensures !PyEq(v, Obj(map["k" := Num(m)])) || !PyEq(v, Obj(map["k" := Num(n)]))
    ensures !PyEq(Obj(map[]), Obj(map["k" := Num(m)])) && !PyEq(Obj(map[]), Obj(map["k" := Num(n)]))
  {
    assert "k" in map["k" := Num(m)] && "k" in map["k" := Num(n)];
  }

  /** Rows that are mendable one by one need not be so together: no object equals two different ones. */
  lemma MendableRowsMayConflict() returns (a: Dict, rules: seq<Dict>)
    ensures forall row | row in rules :: Fails(row, a, Policy) && Mendable(row, a)
    ensures forall b | Refines(Obj(a), Obj(b)) :: NotEligibleOn(b, rules, [])
  {
    a, rules := map["x" := Obj(map[])], [Wants(1.0), Wants(2.0)];
    WantsReads(1.0, a);
    WantsReads(2.0, a);
    DifferentObjects(a["x"], 1.0, 2.0);
    forall b: Dict | Refines(Obj(a), Obj(b)) ensures NotEligibleOn(b, rules, []) {
      assert "x" in Obj(a).fields;
      WantsReads(1.0, b);
      WantsReads(2.0, b);
      DifferentObjects(b["x"], 1.0, 2.0);
      TwoRules(b, Wants(1.0), Wants(2.0));
    }
  }
}
