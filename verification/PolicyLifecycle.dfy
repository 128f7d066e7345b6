/** What every run of commands keeps: the lifecycle log, the freeze of definitions, and one active policy. */
module PolicyLifecycle {
  import opened Common
  import opened Json
  import opened EvaluationKey
  import opened PolicyRecords

  function Rank(s: Status): nat {
    match s
    case Draft => 0
    case Processing => 1
    case Review => 2
    case Approved => 3
    case Active => 4
    case Archived => 5
  }

  // ---------- the invariant ----------

  /** The events are numbered from 1, walk through the lifecycle in order, and end at the given status. */
  predicate LifecycleLog(log: seq<PolicyEvent>, status: Status) {
    |log| == Rank(status) + 1 &&
    forall i | 0 <= i < |log| :: log[i].version == i + 1 && Rank(log[i].status) == i
  }

  predicate Logged(versions: map<Uuid, PolicyVersion>, events: seq<PolicyEvent>) {
    forall id | id in versions :: LifecycleLog(EventsOf(events, id), versions[id].status)
  }

  predicate EventsOwned(versions: map<Uuid, PolicyVersion>, events: seq<PolicyEvent>) {
    forall e | e in events :: e.policyVersion in versions
  }

  predicate LogsMatch(versions: map<Uuid, PolicyVersion>, events: seq<PolicyEvent>) {
    Logged(versions, events) && EventsOwned(versions, events)
  }

  predicate Placed(versions: map<Uuid, PolicyVersion>, a: Activation) {
    a.policyVersion in versions &&
    var v := versions[a.policyVersion];
    v.tenant == a.tenant && v.year == a.year && v.scope == a.scope && v.status in {Active, Archived} && ValidInterval(a)
  }

  predicate Apart(a: Activation, b: Activation) {
    a.policyVersion != b.policyVersion && (SamePlace(a, b) ==> Disjoint(a, b))
  }

  predicate AllApart(activations: seq<Activation>) {
    forall i, j | 0 <= i < j < |activations| :: Apart(activations[i], activations[j])
  }

  predicate HasActivation(activations: seq<Activation>, id: Uuid) {
    exists i | 0 <= i < |activations| :: activations[i].policyVersion == id
  }

  predicate ActivationsMatch(versions: map<Uuid, PolicyVersion>, activations: seq<Activation>) {
    (forall a | a in activations :: Placed(versions, a)) &&
    AllApart(activations) &&
    (forall id | id in versions && versions[id].status in {Active, Archived} :: HasActivation(activations, id))
  }

  predicate Inv(db: Db) {
    LogsMatch(db.versions, db.events) && ActivationsMatch(db.versions, db.activations)
  }

  // ---------- the log ----------

  lemma EventsOfAppend(events: seq<PolicyEvent>, e: PolicyEvent, id: Uuid)
    ensures EventsOf(events + [e], id) == if e.policyVersion == id then EventsOf(events, id) + [e] else EventsOf(events, id)
  {
  }

  lemma {:induction false} NoEvents(events: seq<PolicyEvent>, id: Uuid)
    requires forall e | e in events :: e.policyVersion != id
    ensures EventsOf(events, id) == [] && LatestEvent(events, id) == 0
  {
    if events != [] {
      NoEvents(events[..|events| - 1], id);
    }
  }

  predicate Numbered(log: seq<PolicyEvent>) {
    forall i | 0 <= i < |log| :: log[i].version == i + 1
  }

  /** When the events are numbered 1..n, the highest number is their count. */
  lemma {:induction false} LatestIsCount(events: seq<PolicyEvent>, id: Uuid)
    requires Numbered(EventsOf(events, id))
    ensures LatestEvent(events, id) == |EventsOf(events, id)|
  {
    if events != [] {
      var front, last := events[..|events| - 1], events[|events| - 1];
      var log := EventsOf(events, id);
      if last.policyVersion == id {
        assert EventsOf(front, id) == log[..|log| - 1];
        assert log[|log| - 1] == last;
      }
      LatestIsCount(front, id);
    }
  }

  predicate NextFor(versions: map<Uuid, PolicyVersion>, id: Uuid, status: Status) {
    if id in versions then Rank(status) == Rank(versions[id].status) + 1 else status == Draft
  }

  lemma LongerLog(log: seq<PolicyEvent>, e: PolicyEvent, status: Status)
    requires |log| == Rank(status) && e.status == status && e.version == |log| + 1
    requires forall i | 0 <= i < |log| :: log[i].version == i + 1 && Rank(log[i].status) == i
    ensures LifecycleLog(log + [e], status)
  {
  }

  lemma RecordedLog(events: seq<PolicyEvent>, id: Uuid, current: Option<Status>, status: Status)
    requires current.Some? ==> LifecycleLog(EventsOf(events, id), current.value) && Rank(status) == Rank(current.value) + 1
    requires current.None? ==> EventsOf(events, id) == [] && LatestEvent(events, id) == 0 && status == Draft
    ensures LifecycleLog(EventsOf(events + [NewEvent(events, id, status)], id), status)
  {
    var e := NewEvent(events, id, status);
    EventsOfAppend(events, e, id);
    LatestIsCount(events, id);
    LongerLog(EventsOf(events, id), e, status);
  }

  lemma RecordKeepsLogged(
      versions: map<Uuid, PolicyVersion>, events: seq<PolicyEvent>, id: Uuid, v: PolicyVersion, e: PolicyEvent)
    requires Logged(versions, events) && e.policyVersion == id && LifecycleLog(EventsOf(events + [e], id), v.status)
    ensures Logged(versions[id := v], events + [e])
  {
    forall k | k in versions && k != id ensures LifecycleLog(EventsOf(events + [e], k), versions[k].status) {
      EventsOfAppend(events, e, k);
    }
  }

  /** Recording the next status of one version keeps every log. */
  lemma RecordKeepsLogs(versions: map<Uuid, PolicyVersion>, events: seq<PolicyEvent>, id: Uuid, v: PolicyVersion)
    requires LogsMatch(versions, events) && NextFor(versions, id, v.status)
    ensures LogsMatch(versions[id := v], events + [NewEvent(events, id, v.status)])
  {
    if id !in versions {
      NoEvents(events, id);
    }
    RecordedLog(events, id, if id in versions then Some(versions[id].status) else None, v.status);
    RecordKeepsLogged(versions, events, id, v, NewEvent(events, id, v.status));
  }

  // ---------- activations ----------

  lemma ActivateKeepsActivations(versions: map<Uuid, PolicyVersion>, activations: seq<Activation>, a: Activation)
    requires ActivationsMatch(versions, activations) && ActivationAllowed(activations, a)
    requires a.policyVersion in versions
    requires var v := versions[a.policyVersion]; v.status == Approved && v.tenant == a.tenant && v.year == a.year && v.scope == a.scope
    ensures ActivationsMatch(versions[a.policyVersion := versions[a.policyVersion].(status := Active)], activations + [a])
  {
    var versions' := versions[a.policyVersion := versions[a.policyVersion].(status := Active)];
    var activations' := activations + [a];
    forall b | b in activations' ensures Placed(versions', b) {
      if b in activations {
        assert Placed(versions, b);
      }
    }
    forall i, j | 0 <= i < j < |activations'| ensures Apart(activations'[i], activations'[j]) {
      assert activations'[i] == activations[i] && activations[i] in activations;
      assert Placed(versions, activations[i]);
      if j < |activations| {
        assert Apart(activations[i], activations[j]);
      }
    }
    forall k | k in versions' && versions'[k].status in {Active, Archived} ensures HasActivation(activations', k) {
      if k == a.policyVersion {
        assert activations'[|activations|].policyVersion == k;
      } else {
        assert HasActivation(activations, k);
        var i :| 0 <= i < |activations| && activations[i].policyVersion == k;
        assert activations'[i].policyVersion == k;
      }
    }
  }

  lemma {:induction false} NoneOpen(activations: seq<Activation>, id: Uuid)
    requires forall a | a in activations :: a.policyVersion != id
    ensures OpenActivations(activations, id) == []
  {
    if activations != [] {
      NoneOpen(activations[..|activations| - 1], id);
    }
  }

  /** A version owns one activation, so at most one of them is open; it is the one to be closed. */
  lemma {:induction false} OpenAtMostOne(activations: seq<Activation>, id: Uuid)
    requires AllApart(activations)
    ensures |OpenActivations(activations, id)| <= 1
    ensures forall a | a in activations && a.policyVersion == id && a.endsAt.None? :: OpenActivations(activations, id) == [a]
  {
    if activations != [] {
      var n := |activations| - 1;
      var front := activations[..n];
      assert activations == front + [activations[n]];
      OpenAtMostOne(front, id);
      if activations[n].policyVersion == id {
        forall a | a in front ensures a.policyVersion != id {
          var i :| 0 <= i < n && front[i] == a;
          assert Apart(activations[i], activations[n]);
        }
        NoneOpen(front, id);
      }
    }
  }

  /** Closing an activation that has begun only shortens its interval. */
  lemma CloseShortens(a: Activation, b: Activation, a': Activation, b': Activation)
    requires Apart(a, b) && Shortened(a, a') && Shortened(b, b')
    ensures Apart(a', b')
  {
  }

  predicate Shortened(a: Activation, a': Activation) {
    a' == a || (a.endsAt.None? && a'.endsAt.Some? && a'.endsAt.value > a.startsAt && a' == a.(endsAt := a'.endsAt))
  }

  lemma ArchiveKeepsActivations(versions: map<Uuid, PolicyVersion>, activations: seq<Activation>, id: Uuid, now: int)
    requires ActivationsMatch(versions, activations) && id in versions && versions[id].status == Active
    requires var open := OpenActivations(activations, id); |open| == 1 ==> now > open[0].startsAt
    ensures ActivationsMatch(versions[id := versions[id].(status := Archived)], CloseActivations(activations, id, now))
  {
    var old', new' := activations, CloseActivations(activations, id, now);
    var versions' := versions[id := versions[id].(status := Archived)];
    OpenAtMostOne(old', id);
    forall i | 0 <= i < |new'| ensures Shortened(old'[i], new'[i]) && Placed(versions', new'[i]) {
      assert old'[i] in old';
      assert Placed(versions, old'[i]);
    }
    forall i, j | 0 <= i < j < |new'| ensures Apart(new'[i], new'[j]) {
      assert Apart(old'[i], old'[j]);
      CloseShortens(old'[i], old'[j], new'[i], new'[j]);
    }
    forall k | k in versions' && versions'[k].status in {Active, Archived} ensures HasActivation(new', k) {
      assert HasActivation(old', k);
      var i :| 0 <= i < |old'| && old'[i].policyVersion == k;
      assert new'[i].policyVersion == k;
    }
  }

  // ---------- one command ----------

  lemma TransitionKeepsLogs(db: Db, tenant: Tenant, role: Role, id: Uuid, target: Status)
    requires LogsMatch(db.versions, db.events)
    ensures var moved := TransitionStatus(db, tenant, role, id, target).0; LogsMatch(moved.versions, moved.events)
  {
    if TransitionStatus(db, tenant, role, id, target).1 == Ok {
      RecordKeepsLogs(db.versions, db.events, id, db.versions[id].(status := target));
    } else {
      assert TransitionStatus(db, tenant, role, id, target).0 == db;
    }
  }

  lemma CreateKeepsLogs(db: Db, tenant: Tenant, id: Uuid, year: int, scope: string)
    requires LogsMatch(db.versions, db.events)
    ensures var made := CreatePolicyVersion(db, tenant, id, year, scope).0; LogsMatch(made.versions, made.events)
  {
    if id !in db.versions {
      RecordKeepsLogs(db.versions, db.events, id, PolicyVersion(tenant, year, scope, Draft));
    }
  }

  lemma CreateKeepsActivations(db: Db, tenant: Tenant, id: Uuid, year: int, scope: string)
    requires ActivationsMatch(db.versions, db.activations)
    ensures var made := CreatePolicyVersion(db, tenant, id, year, scope).0; ActivationsMatch(made.versions, made.activations)
  {
  }

  lemma CreateKeepsInv(db: Db, tenant: Tenant, id: Uuid, year: int, scope: string)
    requires Inv(db)
    ensures Inv(CreatePolicyVersion(db, tenant, id, year, scope).0)
  {
    CreateKeepsLogs(db, tenant, id, year, scope);
    CreateKeepsActivations(db, tenant, id, year, scope);
  }

  lemma AdvanceKeepsActivations(db: Db, tenant: Tenant, role: Role, id: Uuid, target: Status)
    requires ActivationsMatch(db.versions, db.activations) && target in {Processing, Review, Approved}
    ensures var moved := TransitionStatus(db, tenant, role, id, target).0; ActivationsMatch(moved.versions, moved.activations)
  {
  }

  lemma AdvanceKeepsInv(db: Db, tenant: Tenant, role: Role, id: Uuid, target: Status)
    requires Inv(db) && target in {Processing, Review, Approved}
    ensures Inv(TransitionStatus(db, tenant, role, id, target).0)
  {
    TransitionKeepsLogs(db, tenant, role, id, target);
    AdvanceKeepsActivations(db, tenant, role, id, target);
  }

  lemma ActivateKeepsInv(db: Db, tenant: Tenant, role: Role, id: Uuid, startsAt: int, endsAt: Option<int>)
    requires Inv(db)
    ensures Inv(ActivatePolicy(db, tenant, role, id, startsAt, endsAt).0)
  {
    TransitionKeepsLogs(db, tenant, role, id, Active);
    if ActivatePolicy(db, tenant, role, id, startsAt, endsAt).1 == Ok {
      var v := db.versions[id];
      ActivateKeepsActivations(db.versions, db.activations, Activation(tenant, id, v.year, v.scope, startsAt, endsAt));
    }
  }

  lemma ArchiveKeepsInv(db: Db, tenant: Tenant, id: Uuid, now: int)
    requires Inv(db)
    ensures Inv(ArchivePolicy(db, tenant, id, now).0)
  {
    TransitionKeepsLogs(db, tenant, Other, id, Archived);
    if ArchivePolicy(db, tenant, id, now).1 == Ok {
      ArchiveKeepsActivations(db.versions, db.activations, id, now);
    }
  }

  /** Every command keeps the log, the placement and the separation of activations. */
  lemma ApplyKeepsInv(db: Db, c: Command)
    requires Inv(db)
    ensures Inv(Apply(db, c).0)
  {
    match c
    case CreateVersion(tenant, id, year, scope) => CreateKeepsInv(db, tenant, id, year, scope);
    case Advance(tenant, role, id, target) =>
      if target in {Processing, Review, Approved} {
        AdvanceKeepsInv(db, tenant, role, id, target);
      }
    case Activate(tenant, role, id, startsAt, endsAt) => ActivateKeepsInv(db, tenant, role, id, startsAt, endsAt);
    case Archive(tenant, id, now) => ArchiveKeepsInv(db, tenant, id, now);
    case _ =>
  }

  // ---------- what is frozen ----------

  predicate VersionGrows(v: PolicyVersion, v': PolicyVersion) {
    v' == v.(status := v'.status) && Rank(v.status) <= Rank(v'.status)
  }

  /** Versions only move forward, and from Review on their rules stay as they are. */
  predicate VersionsGrow(
      versions: map<Uuid, PolicyVersion>, rules: seq<PolicyRule>, versions': map<Uuid, PolicyVersion>, rules': seq<PolicyRule>)
  {
    forall id | id in versions ::
      id in versions' && VersionGrows(versions[id], versions'[id]) &&
      (Rank(versions[id].status) >= Rank(Review) ==> RulesOf(rules', id) == RulesOf(rules, id))
  }

  /** A published requirement version and its criteria stay as they are. */
  predicate RequirementsGrow(
      requirements: map<Uuid, RequirementVersion>, criteria: seq<Criterion>,
      requirements': map<Uuid, RequirementVersion>, criteria': seq<Criterion>)
  {
    forall id | id in requirements ::
      id in requirements' && requirements'[id].tenant == requirements[id].tenant &&
      (requirements[id].publishedAt.Some? ==>
         requirements'[id] == requirements[id] && CriteriaOf(criteria', id) == CriteriaOf(criteria, id))
  }

  predicate Grows(db: Db, db': Db) {
    db'.students == db.students && db'.opportunities == db.opportunities && db'.decisions == db.decisions &&
    VersionsGrow(db.versions, db.rules, db'.versions, db'.rules) &&
    RequirementsGrow(db.requirements, db.criteria, db'.requirements, db'.criteria)
  }

  lemma RulesOfAppend(rules: seq<PolicyRule>, r: PolicyRule, id: Uuid)
    ensures RulesOf(rules + [r], id) == RulesOf(rules, id) + (if r.policyVersion == id then [r] else [])
  {
  }

  lemma CriteriaOfAppend(criteria: seq<Criterion>, c: Criterion, id: Uuid)
    ensures CriteriaOf(criteria + [c], id) == CriteriaOf(criteria, id) + (if c.requirementVersion == id then [c] else [])
  {
  }

  lemma NewRuleGrows(versions: map<Uuid, PolicyVersion>, rules: seq<PolicyRule>, r: PolicyRule)
    requires r.policyVersion in versions && Rank(versions[r.policyVersion].status) < Rank(Review)
    ensures VersionsGrow(versions, rules, versions, rules + [r])
  {
  }

  lemma NewCriterionGrows(requirements: map<Uuid, RequirementVersion>, criteria: seq<Criterion>, c: Criterion)
    requires c.requirementVersion in requirements && requirements[c.requirementVersion].publishedAt.None?
    ensures RequirementsGrow(requirements, criteria, requirements, criteria + [c])
  {
  }

  lemma AddRuleGrows(db: Db, tenant: Tenant, id: Uuid, code: string, definition: Dict)
    ensures Grows(db, AddPolicyRule(db, tenant, id, code, definition).0)
  {
    if AddPolicyRule(db, tenant, id, code, definition).1 == Ok {
      NewRuleGrows(db.versions, db.rules, PolicyRule(id, code, definition));
    }
  }

  lemma AddCriterionGrows(db: Db, tenant: Tenant, criterion: Criterion)
    ensures Grows(db, AddRequirementCriterion(db, tenant, criterion).0)
  {
    if AddRequirementCriterion(db, tenant, criterion).1 == Ok {
      NewCriterionGrows(db.requirements, db.criteria, criterion);
    }
  }

  lemma MoveGrows(versions: map<Uuid, PolicyVersion>, rules: seq<PolicyRule>, id: Uuid, target: Status)
    requires id in versions && Successor(versions[id].status) == Some(target)
    ensures VersionsGrow(versions, rules, versions[id := versions[id].(status := target)], rules)
  {
  }

  lemma TransitionGrows(db: Db, tenant: Tenant, role: Role, id: Uuid, target: Status)
    ensures Grows(db, TransitionStatus(db, tenant, role, id, target).0)
  {
    if TransitionStatus(db, tenant, role, id, target).1 == Ok {
      MoveGrows(db.versions, db.rules, id, target);
    }
  }

  lemma CreateGrows(db: Db, tenant: Tenant, id: Uuid, year: int, scope: string)
    ensures Grows(db, CreatePolicyVersion(db, tenant, id, year, scope).0)
  {
  }

  lemma ActivateGrows(db: Db, tenant: Tenant, role: Role, id: Uuid, startsAt: int, endsAt: Option<int>)
    ensures Grows(db, ActivatePolicy(db, tenant, role, id, startsAt, endsAt).0)
  {
    TransitionGrows(db, tenant, role, id, Active);
  }

  lemma ArchiveGrows(db: Db, tenant: Tenant, id: Uuid, now: int)
    ensures Grows(db, ArchivePolicy(db, tenant, id, now).0)
  {
    TransitionGrows(db, tenant, Other, id, Archived);
  }

  lemma InitializeGrows(db: Db, tenant: Tenant, id: Uuid)
    ensures Grows(db, InitializeRequirement(db, tenant, id).0)
  {
  }

  lemma PublishGrows(db: Db, tenant: Tenant, id: Uuid, now: int)
    ensures Grows(db, PublishRequirement(db, tenant, id, now).0)
  {
  }

  /** Every command leaves frozen definitions, statuses passed and decisions taken as they are. */
  lemma ApplyGrows(db: Db, c: Command)
    ensures Grows(db, Apply(db, c).0)
  {
    match c
    case CreateVersion(tenant, id, year, scope) => CreateGrows(db, tenant, id, year, scope);
    case AddRule(tenant, id, code, definition) => AddRuleGrows(db, tenant, id, code, definition);
    case Advance(tenant, role, id, target) => TransitionGrows(db, tenant, role, id, target);
    case Activate(tenant, role, id, startsAt, endsAt) => ActivateGrows(db, tenant, role, id, startsAt, endsAt);
    case Archive(tenant, id, now) => ArchiveGrows(db, tenant, id, now);
    case CreateRequirement(tenant, id) => InitializeGrows(db, tenant, id);
    case AddCriterion(tenant, criterion) => AddCriterionGrows(db, tenant, criterion);
    case Publish(tenant, id, now) => PublishGrows(db, tenant, id, now);
  }

  lemma GrowsTransitive(a: Db, b: Db, c: Db)
    requires Grows(a, b) && Grows(b, c)
    ensures Grows(a, c)
  {
  }

  // ---------- whole runs ----------

  function Run(db: Db, commands: seq<Command>): Db
    decreases |commands|
  {
    if commands == [] then db else Run(Apply(db, commands[0]).0, commands[1..])
  }

  function Empty(students: map<Uuid, Tenant>, opportunities: map<Uuid, Opportunity>): Db {
    Db(students, opportunities, map[], [], [], [], map[], [], [])
  }

  lemma {:induction false} RunKeepsInv(db: Db, commands: seq<Command>)
    requires Inv(db)
    ensures Inv(Run(db, commands)) && Grows(db, Run(db, commands))
    decreases |commands|
  {
    if commands != [] {
      var next := Apply(db, commands[0]).0;
      ApplyKeepsInv(db, commands[0]);
      ApplyGrows(db, commands[0]);
      RunKeepsInv(next, commands[1..]);
      GrowsTransitive(db, next, Run(db, commands));
    }
  }

  /** In every run each version's events are 1..n over the first n statuses, the last being its current one. */
  lemma LogOfEveryRun(students: map<Uuid, Tenant>, opportunities: map<Uuid, Opportunity>, commands: seq<Command>, id: Uuid)
    requires id in Run(Empty(students, opportunities), commands).versions
    ensures var db := Run(Empty(students, opportunities), commands);
            var log := EventsOf(db.events, id);
            |log| == Rank(db.versions[id].status) + 1 && log[|log| - 1].status == db.versions[id].status &&
            forall i | 0 <= i < |log| :: log[i].version == i + 1 && Rank(log[i].status) == i
  {
    RunKeepsInv(Empty(students, opportunities), commands);
  }

  /** Once a version is in Review its rules never change again, whatever is commanded later. */
  lemma RulesFreezeInReview(db: Db, commands: seq<Command>, id: Uuid)
    requires Inv(db) && id in db.versions && Rank(db.versions[id].status) >= Rank(Review)
    ensures RulesOf(Run(db, commands).rules, id) == RulesOf(db.rules, id)
  {
    RunKeepsInv(db, commands);
  }

  // ---------- the active policy ----------

  predicate Covers(a: Activation, time: int) {
    a.startsAt <= time && (a.endsAt.None? || a.endsAt.value > time)
  }

  predicate ActiveRow(db: Db, a: Activation, tenant: Tenant, year: int, scope: string, time: int) {
    a.tenant == tenant && a.year == year && a.scope == scope && Covers(a, time) &&
    a.policyVersion in db.versions && db.versions[a.policyVersion].status == Active
  }

  /** The rows the active-policy query finds among the first n activations. */
  function ActiveRows(db: Db, n: nat, tenant: Tenant, year: int, scope: string, time: int): seq<Uuid>
    requires n <= |db.activations|
  {
    if n == 0 then []
    else
      var front := ActiveRows(db, n - 1, tenant, year, scope, time);
      var a := db.activations[n - 1];
      if ActiveRow(db, a, tenant, year, scope, time) then front + [a.policyVersion] else front
  }

  lemma {:induction false} ActiveRowsMeaning(db: Db, n: nat, tenant: Tenant, year: int, scope: string, time: int)
    requires n <= |db.activations|
    ensures forall id :: id in ActiveRows(db, n, tenant, year, scope, time) <==>
              exists i | 0 <= i < n :: ActiveRow(db, db.activations[i], tenant, year, scope, time) &&
                                       db.activations[i].policyVersion == id
  {
    if n > 0 {
      ActiveRowsMeaning(db, n - 1, tenant, year, scope, time);
    }
  }

  lemma {:induction false} NoActiveRows(db: Db, n: nat, tenant: Tenant, year: int, scope: string, time: int)
    requires n <= |db.activations|
    requires forall i | 0 <= i < n :: !ActiveRow(db, db.activations[i], tenant, year, scope, time)
    ensures ActiveRows(db, n, tenant, year, scope, time) == []
  {
    if n > 0 {
      NoActiveRows(db, n - 1, tenant, year, scope, time);
    }
  }

  /** The active-policy query never finds two rows. */
  lemma {:induction false} NoPolicyAmbiguity(db: Db, n: nat, tenant: Tenant, year: int, scope: string, time: int)
    requires AllApart(db.activations) && n <= |db.activations|
    ensures |ActiveRows(db, n, tenant, year, scope, time)| <= 1
  {
    if n > 0 {
      NoPolicyAmbiguity(db, n - 1, tenant, year, scope, time);
      if ActiveRow(db, db.activations[n - 1], tenant, year, scope, time) {
        forall i | 0 <= i < n - 1 ensures !ActiveRow(db, db.activations[i], tenant, year, scope, time) {
          assert Apart(db.activations[i], db.activations[n - 1]);
        }
        NoActiveRows(db, n - 1, tenant, year, scope, time);
      }
    }
  }

  /** A version has exactly one activation if it has reached Active, and none before. */
  lemma OneActivationPerActivatedVersion(db: Db, id: Uuid)
    requires ActivationsMatch(db.versions, db.activations) && id in db.versions
    ensures HasActivation(db.activations, id) <==> Rank(db.versions[id].status) >= Rank(Active)
    ensures forall i, j | 0 <= i < j < |db.activations| ::
              db.activations[i].policyVersion == id ==> db.activations[j].policyVersion != id
  {
    if HasActivation(db.activations, id) {
      var i :| 0 <= i < |db.activations| && db.activations[i].policyVersion == id;
      assert db.activations[i] in db.activations;
      assert Placed(db.versions, db.activations[i]);
    }
    forall i, j | 0 <= i < j < |db.activations| && db.activations[i].policyVersion == id
      ensures db.activations[j].policyVersion != id
    {
      assert Apart(db.activations[i], db.activations[j]);
    }
  }

  lemma ArchiveNeverAmbiguous(db: Db, c: Command)
    requires AllApart(db.activations)
    ensures Apply(db, c).1 != Ambiguity
  {
    if c.Archive? {
      OpenAtMostOne(db.activations, c.id);
    }
  }

  /** In no run does archiving find two open activations, or the active-policy query two versions. */
  lemma NeverAmbiguous(
      students: map<Uuid, Tenant>, opportunities: map<Uuid, Opportunity>, commands: seq<Command>, c: Command,
      tenant: Tenant, year: int, scope: string, time: int)
    ensures var db := Run(Empty(students, opportunities), commands);
            Apply(db, c).1 != Ambiguity &&
            |ActiveRows(db, |db.activations|, tenant, year, scope, time)| <= 1
  {
    var db := Run(Empty(students, opportunities), commands);
    RunKeepsInv(Empty(students, opportunities), commands);
    ArchiveNeverAmbiguous(db, c);
    NoPolicyAmbiguity(db, |db.activations|, tenant, year, scope, time);
  }

  // ---------- whose rows a command touches ----------

  /** The rows of a version and of its logs are as they were. */
  predicate VersionUntouched(db: Db, db': Db, id: Uuid)
    requires id in db.versions
  {
    id in db'.versions && db'.versions[id] == db.versions[id] &&
    EventsOf(db'.events, id) == EventsOf(db.events, id) && RulesOf(db'.rules, id) == RulesOf(db.rules, id)
  }

  predicate RequirementUntouched(db: Db, db': Db, id: Uuid)
    requires id in db.requirements
  {
    id in db'.requirements && db'.requirements[id] == db.requirements[id] &&
    CriteriaOf(db'.criteria, id) == CriteriaOf(db.criteria, id)
  }

  lemma EventElsewhere(db: Db, other: Uuid, status: Status, id: Uuid)
    requires other != id
    ensures EventsOf(WithEvent(db, other, status).events, id) == EventsOf(db.events, id)
  {
  }

  lemma TransitionTouches(db: Db, tenant: Tenant, role: Role, id: Uuid, target: Status, other: Uuid)
    requires other in db.versions && db.versions[other].tenant != tenant
    ensures VersionUntouched(db, TransitionStatus(db, tenant, role, id, target).0, other)
  {
    if Owns(tenant, db.versions, id) {
      EventElsewhere(db.(versions := db.versions[id := db.versions[id].(status := target)]), id, target, other);
    }
  }

  lemma RuleTouches(db: Db, tenant: Tenant, id: Uuid, code: string, definition: Dict, other: Uuid)
    requires other in db.versions && db.versions[other].tenant != tenant
    ensures VersionUntouched(db, AddPolicyRule(db, tenant, id, code, definition).0, other)
  {
    if Owns(tenant, db.versions, id) {
      RulesOfAppend(db.rules, PolicyRule(id, code, definition), other);
      assert RulesOf(db.rules, other) + [] == RulesOf(db.rules, other);
    }
  }

  lemma CreateTouches(db: Db, tenant: Tenant, id: Uuid, year: int, scope: string, other: Uuid)
    requires other in db.versions
    ensures VersionUntouched(db, CreatePolicyVersion(db, tenant, id, year, scope).0, other)
  {
  }

  lemma ActivateTouches(db: Db, tenant: Tenant, role: Role, id: Uuid, startsAt: int, endsAt: Option<int>, other: Uuid)
    requires other in db.versions && db.versions[other].tenant != tenant
    ensures VersionUntouched(db, ActivatePolicy(db, tenant, role, id, startsAt, endsAt).0, other)
  {
    TransitionTouches(db, tenant, role, id, Active, other);
  }

  lemma ArchiveTouches(db: Db, tenant: Tenant, id: Uuid, now: int, other: Uuid)
    requires other in db.versions && db.versions[other].tenant != tenant
    ensures VersionUntouched(db, ArchivePolicy(db, tenant, id, now).0, other)
  {
    TransitionTouches(db, tenant, Other, id, Archived, other);
  }

  lemma VersionsOfOthers(db: Db, c: Command, other: Uuid)
    requires other in db.versions && db.versions[other].tenant != c.tenant
    ensures VersionUntouched(db, Apply(db, c).0, other)
  {
    match c
    case CreateVersion(tenant, id, year, scope) => CreateTouches(db, tenant, id, year, scope, other);
    case AddRule(tenant, id, code, definition) => RuleTouches(db, tenant, id, code, definition, other);
    case Advance(tenant, role, id, target) => TransitionTouches(db, tenant, role, id, target, other);
    case Activate(tenant, role, id, startsAt, endsAt) => ActivateTouches(db, tenant, role, id, startsAt, endsAt, other);
    case Archive(tenant, id, now) => ArchiveTouches(db, tenant, id, now, other);
    case _ =>
  }

  lemma CriterionTouches(db: Db, tenant: Tenant, c: Criterion, other: Uuid)
    requires other in db.requirements && db.requirements[other].tenant != tenant
    ensures RequirementUntouched(db, AddRequirementCriterion(db, tenant, c).0, other)
  {
  }

  lemma PublishTouches(db: Db, tenant: Tenant, id: Uuid, now: int, other: Uuid)
    requires other in db.requirements && db.requirements[other].tenant != tenant
    ensures RequirementUntouched(db, PublishRequirement(db, tenant, id, now).0, other)
    ensures RequirementUntouched(db, InitializeRequirement(db, tenant, id).0, other)
  {
  }

  lemma PolicyCommandsKeepRequirements(db: Db, c: Command)
    requires !c.CreateRequirement? && !c.AddCriterion? && !c.Publish?
    ensures Apply(db, c).0.requirements == db.requirements && Apply(db, c).0.criteria == db.criteria
  {
  }

  lemma RequirementsOfOthers(db: Db, c: Command, other: Uuid)
    requires other in db.requirements && db.requirements[other].tenant != c.tenant
    ensures RequirementUntouched(db, Apply(db, c).0, other)
  {
    match c
    case CreateRequirement(tenant, id) => PublishTouches(db, tenant, id, 0, other);
    case AddCriterion(tenant, criterion) => CriterionTouches(db, tenant, criterion, other);
    case Publish(tenant, id, now) => PublishTouches(db, tenant, id, now, other);
    case _ => PolicyCommandsKeepRequirements(db, c);
  }

  lemma ActivationsOfOthers(db: Db, c: Command, a: Activation)
    requires ActivationsMatch(db.versions, db.activations) && a in db.activations && a.tenant != c.tenant
    ensures a in Apply(db, c).0.activations
  {
  }

  /** After any run, a command changes nothing that belongs to another tenant. */
  lemma OnlyOneTenantIsTouched(
      students: map<Uuid, Tenant>, opportunities: map<Uuid, Opportunity>, commands: seq<Command>, c: Command)
    ensures var db := Run(Empty(students, opportunities), commands);
            var db' := Apply(db, c).0;
            (forall id | id in db.versions && db.versions[id].tenant != c.tenant :: VersionUntouched(db, db', id)) &&
            (forall id | id in db.requirements && db.requirements[id].tenant != c.tenant :: RequirementUntouched(db, db', id)) &&
            (forall a | a in db.activations && a.tenant != c.tenant :: a in db'.activations)
  {
    var db := Run(Empty(students, opportunities), commands);
    RunKeepsInv(Empty(students, opportunities), commands);
    forall id | id in db.versions && db.versions[id].tenant != c.tenant ensures VersionUntouched(db, Apply(db, c).0, id) {
      VersionsOfOthers(db, c, id);
    }
    forall id | id in db.requirements && db.requirements[id].tenant != c.tenant
      ensures RequirementUntouched(db, Apply(db, c).0, id)
    {
      RequirementsOfOthers(db, c, id);
    }
    forall a | a in db.activations && a.tenant != c.tenant ensures a in Apply(db, c).0.activations {
      ActivationsOfOthers(db, c, a);
    }
  }

  /** Only staff takes a version to APPROVED or ACTIVE, and only from the status before it. */
  lemma OnlyStaffApproves(db: Db, c: Command, id: Uuid)
    requires id in db.versions && id in Apply(db, c).0.versions
    requires var v := Apply(db, c).0.versions[id]; v.status in {Approved, Active} && v.status != db.versions[id].status
    ensures (c.Advance? || c.Activate?) && c.role == Staff && c.id == id && c.tenant == db.versions[id].tenant
    ensures Rank(Apply(db, c).0.versions[id].status) == Rank(db.versions[id].status) + 1
  {
  }
}
