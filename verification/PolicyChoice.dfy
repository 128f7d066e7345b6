/** Which policy version an evaluation chooses, said on the rows of the activations. */
module PolicyChoice {
  import opened Common
  import opened EvaluationKey
  import opened PolicyRecords
  import opened PolicyLifecycle
  import opened DecisionCache
  import opened DecisionReplay

  predicate Asked(db: Db, request: Request) {
    request.opportunity in db.opportunities && db.opportunities[request.opportunity].tenant == request.tenant
  }

  /** An activation of the tenant for all students in the year of the opportunity, begun and not over, of an active version. */
  predicate Applies(db: Db, request: Request, time: int, a: Activation)
    requires request.opportunity in db.opportunities
  {
    a.tenant == request.tenant && a.year == db.opportunities[request.opportunity].year && a.scope == "ALL" &&
    a.startsAt <= time && (a.endsAt == None || time < a.endsAt.value) &&
    a.policyVersion in db.versions && db.versions[a.policyVersion].status == Active
  }

  predicate Available(db: Db, request: Request, time: int, policy: Uuid)
    requires Asked(db, request)
  {
    exists a | a in db.activations :: Applies(db, request, time, a) && a.policyVersion == policy
  }

  lemma RowsApply(db: Db, request: Request, time: int)
    requires Inv(db) && Asked(db, request)
    ensures var rows := ActiveRows(db, |db.activations|, request.tenant, db.opportunities[request.opportunity].year, SCOPE, time);
            |rows| <= 1 &&
            forall policy :: policy in rows <==> Available(db, request, time, policy)
  {
    var year, n := db.opportunities[request.opportunity].year, |db.activations|;
    NoPolicyAmbiguity(db, n, request.tenant, year, SCOPE, time);
    ActiveRowsMeaning(db, n, request.tenant, year, SCOPE, time);
    forall i | 0 <= i < n
      ensures ActiveRow(db, db.activations[i], request.tenant, year, SCOPE, time) <==>
                Applies(db, request, time, db.activations[i])
    {
    }
  }

  lemma ChoosesIffApplies(db: Db, request: Request, time: int, policy: Uuid)
    requires Inv(db)
    ensures var e := Choose(db, request, time);
            (e == Failed(OpportunityNotFound) <==> !Asked(db, request)) && e != Failed(PolicyAmbiguity) &&
            (e == Chosen(request, policy) <==> Asked(db, request) && Available(db, request, time, policy)) &&
            (e == Failed(NoActivePolicy) <==>
               Asked(db, request) && forall a | a in db.activations :: !Applies(db, request, time, a))
  {
    if Asked(db, request) {
      RowsApply(db, request, time);
      NoneIffNone(db, request, time);
    }
  }

  lemma NoneIffNone(db: Db, request: Request, time: int)
    requires Inv(db) && Asked(db, request)
    ensures Choose(db, request, time) == Failed(NoActivePolicy) <==>
              forall a | a in db.activations :: !Applies(db, request, time, a)
  {
    RowsApply(db, request, time);
    var rows := ActiveRows(db, |db.activations|, request.tenant, db.opportunities[request.opportunity].year, SCOPE, time);
    forall a | a in db.activations && Applies(db, request, time, a) ensures a.policyVersion in rows {
      assert Available(db, request, time, a.policyVersion);
    }
    if rows != [] {
      assert Available(db, request, time, rows[0]);
    }
  }

  /** In every interleaving an evaluation chooses a version exactly when an activation of it applies, and fails otherwise. */
  lemma ChoosesIff(m: Machine, request: Request, time: int, policy: Uuid)
    requires Reachable(m)
    ensures var e := Choose(m.db, request, time);
            (e == Failed(OpportunityNotFound) <==> !Asked(m.db, request)) && e != Failed(PolicyAmbiguity) &&
            (e == Chosen(request, policy) <==> Asked(m.db, request) && Available(m.db, request, time, policy)) &&
            (e == Failed(NoActivePolicy) <==>
               Asked(m.db, request) && forall a | a in m.db.activations :: !Applies(m.db, request, time, a))
  {
    ReachableIsSound(m);
    ChoosesIffApplies(m.db, request, time, policy);
  }

  /** What an accepted activation writes. */
  lemma ActivationWrites(db: Db, tenant: Tenant, role: Role, id: Uuid, startsAt: int, endsAt: Option<int>)
    requires ActivatePolicy(db, tenant, role, id, startsAt, endsAt).1 == Ok
    ensures var db' := ActivatePolicy(db, tenant, role, id, startsAt, endsAt).0;
            id in db.versions && db.versions[id].tenant == tenant && role == Staff && db.versions[id].status == Approved &&
            db'.versions == db.versions[id := db.versions[id].(status := Active)] && db'.opportunities == db.opportunities &&
            db'.activations == db.activations +
              [Activation(tenant, id, db.versions[id].year, db.versions[id].scope, startsAt, endsAt)] &&
            (endsAt.Some? ==> startsAt < endsAt.value)
  {
  }

  lemma FirstActivation(db: Db, id: Uuid)
    requires Inv(db) && id in db.versions && db.versions[id].status == Approved
    ensures forall a | a in db.activations :: a.policyVersion != id
  {
    OneActivationPerActivatedVersion(db, id);
    forall a | a in db.activations ensures a.policyVersion != id {
      var i :| 0 <= i < |db.activations| && db.activations[i] == a;
    }
  }

  lemma ActivatedApplies(db: Db, activation: Activation, db': Db, request: Request, time: int)
    requires Asked(db', request) && db'.activations == db.activations + [activation]
    requires forall a | a in db.activations :: a.policyVersion != activation.policyVersion
    ensures Available(db', request, time, activation.policyVersion) <==> Applies(db', request, time, activation)
  {
    assert db'.activations[|db.activations|] == activation;
  }

  lemma ChosenAfterActivation(
      db: Db, tenant: Tenant, role: Role, id: Uuid, startsAt: int, endsAt: Option<int>, request: Request, time: int)
    requires Inv(db) && ActivatePolicy(db, tenant, role, id, startsAt, endsAt).1 == Ok && Asked(db, request)
    ensures id in db.versions &&
            var db' := ActivatePolicy(db, tenant, role, id, startsAt, endsAt).0;
            var activation := Activation(tenant, id, db.versions[id].year, db.versions[id].scope, startsAt, endsAt);
            Choose(db', request, time) == Chosen(request, id) <==> Applies(db', request, time, activation)
  {
    ActivationWrites(db, tenant, role, id, startsAt, endsAt);
    ActivateKeepsInv(db, tenant, role, id, startsAt, endsAt);
    FirstActivation(db, id);
    var db' := ActivatePolicy(db, tenant, role, id, startsAt, endsAt).0;
    ChoosesIffApplies(db', request, time, id);
    ActivatedApplies(db, db'.activations[|db.activations|], db', request, time);
  }

  /**
   * After an accepted activation in any interleaving, evaluations of opportunities of the tenant choose the version
   * exactly for the year of the version, from the requested start on and before the requested end.
   */
  lemma ActivatedIsChosenIff(
      m: Machine, tenant: Tenant, role: Role, id: Uuid, startsAt: int, endsAt: Option<int>, request: Request, time: int)
    requires Reachable(m) && ActivatePolicy(m.db, tenant, role, id, startsAt, endsAt).1 == Ok && Asked(m.db, request)
    ensures id in m.db.versions &&
            var m' := Next(m, Command(Activate(tenant, role, id, startsAt, endsAt)));
            Choose(m'.db, request, time) == Chosen(request, id) <==>
              request.tenant == tenant && m.db.versions[id].scope == "ALL" &&
              m.db.opportunities[request.opportunity].year == m.db.versions[id].year &&
              startsAt <= time && (endsAt == None || time < endsAt.value)
  {
    ReachableIsSound(m);
    ActivationWrites(m.db, tenant, role, id, startsAt, endsAt);
    ChosenAfterActivation(m.db, tenant, role, id, startsAt, endsAt, request, time);
  }

  /** A version that is not active, archived for instance, is never chosen. */
  lemma OnlyActiveIsChosen(m: Machine, request: Request, time: int, policy: Uuid)
    requires Reachable(m) && Choose(m.db, request, time) == Chosen(request, policy)
    ensures policy in m.db.versions && m.db.versions[policy].status == Active && m.db.versions[policy].tenant == request.tenant
  {
    ReachableIsSound(m);
    ChoosesIffApplies(m.db, request, time, policy);
    var a :| a in m.db.activations && Applies(m.db, request, time, a) && a.policyVersion == policy;
    assert Placed(m.db.versions, a);
  }
}
