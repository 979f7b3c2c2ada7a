/**
 What the two checks of a provision request let through. Interleaved freely, a step that crosses leads to
 a second succeeded Create of the same instance, and every request can be raced into one. A plan that
 the addon lacks is found missing too late.
 */
module LifecycleRace {
  import opened Values
  import opened Operations
  import opened ReleaseNames
  import opened Lifecycle
  import opened LifecycleInvariant
  import opened LifecycleRuns
  import opened LifecycleReach
  import opened LifecycleCrossing

  /** The first check of a new request, made while the only Create is still in progress. */
  lemma ReachesSecondCheck(s: State, req: ProvisionRequest, o: OperationID) returns (s': State)
    requires s.prov.PIdle? && req.acceptsIncomplete
    requires req.instanceID in s.ops && s.ops[req.instanceID].Keys == {o}
    requires s.ops[req.instanceID][o].state == InProgress
    ensures Reaches(false, s, s') && s' == s.(prov := PCheckInProgress(req))
  {
    var s1 := s.(prov := PCheckProvisioned(req));
    var s2 := s.(prov := PScanProvisioned(req, {o}, false));
    var s3 := s.(prov := PScanProvisioned(req, {}, false));
    s' := s.(prov := PCheckInProgress(req));
    ReachesStep(false, s, ProvisionBegin(req), s1);
    ReachesStep(false, s1, ProvisionReadOps, s2);
    assert {o} - {o} == {};
    ReachesStep(false, s2, ProvisionScan(o), s3);
    ReachesStep(false, s3, ProvisionScanEnd, s');
    ReachesTransitive(false, s, s1, s2);
    ReachesTransitive(false, s, s2, s3);
    ReachesTransitive(false, s, s3, s');
  }

  lemma ReachesFirstLookup(s: State, req: ProvisionRequest) returns (s': State)
    requires Initial(s) && req.acceptsIncomplete
    ensures Reaches(false, s, s') && s' == s.(prov := PGetAddon(req))
  {
    var s1 := s.(prov := PCheckProvisioned(req));
    var s2 := s.(prov := PCheckInProgress(req));
    s' := s.(prov := PGetAddon(req));
    ReachesStep(false, s, ProvisionBegin(req), s1);
    ReachesStep(false, s1, ProvisionReadOps, s2);
    ReachesStep(false, s2, ProvisionReadOps, s');
    ReachesTransitive(false, s, s1, s2);
    ReachesTransitive(false, s, s2, s');
  }

  // ----- after a crossing -----

  /** Scans only look at operations that exist, and say yes only if a Create has succeeded. */
  ghost predicate ScanOK(s: State) {
    match s.prov
    case PScanProvisioned(req, todo, result) =>
      && (forall o | o in todo :: Has(s.ops, req.instanceID, o))
      && (result ==> SomeOpIs(s.ops, req.instanceID, Create, Succeeded))
    case PCompare(req) => SomeOpIs(s.ops, req.instanceID, Create, Succeeded)
    case PScanInProgress(req, todo) => forall o | o in todo :: Has(s.ops, req.instanceID, o)
    case _ => true
  }

  lemma ReadsKeepScan(s: State, a: Action, s': State)
    requires Step(s, a) == Some(s') && ScanOK(s) && (a.ProvisionReadOps? || a.ProvisionScan? || a.ProvisionScanEnd?)
    ensures ScanOK(s')
  {
    if a.ProvisionScan? && s.prov.PScanProvisioned? {
      assert s.ops[s.prov.req.instanceID][a.seen].state == Succeeded ==>
          HasOp(s.ops, s.prov.req.instanceID, a.seen, s.ops[s.prov.req.instanceID][a.seen].kind, Succeeded);
    }
  }

  lemma OthersDoNotScan(s: State, a: Action, s': State)
    requires Step(s, a) == Some(s') && OfProvision(a)
    requires !a.ProvisionReadOps? && !a.ProvisionScan? && !a.ProvisionScanEnd?
    ensures (s'.prov == s.prov && s'.ops == s.ops) ||
            !(s'.prov.PScanProvisioned? || s'.prov.PCompare? || s'.prov.PScanInProgress?)
  {
    hide InsertOp, IsProvisioningAllowed, CreateReleaseName;
  }

  lemma ScanStep(s: State, a: Action, s': State)
    requires Inv(s) && Step(s, a) == Some(s') && ScanOK(s)
    ensures ScanOK(s')
  {
    if a.ProvisionReadOps? || a.ProvisionScan? || a.ProvisionScanEnd? {
      ReadsKeepScan(s, a, s');
    } else if OfProvision(a) {
      OthersDoNotScan(s, a, s');
      hide Step, Inv;
    } else {
      assert s'.prov == s.prov by {
        if OfDeprovision(a) { DeprovisionKeepsStores(s, a, s'); } else { WorkerKeepsStores(s, a, s'); }
      }
      hide Step, Inv;
      if !s.prov.PIdle? {
        ScansSurvive(s, a, s', s.prov.req.instanceID);
      }
    }
  }

  /** Operations are never dropped and a succeeded one stays so. */
  lemma ScansSurvive(s: State, a: Action, s': State, i: InstanceID)
    requires Inv(s) && Step(s, a) == Some(s')
    ensures forall o | Has(s.ops, i, o) :: Has(s'.ops, i, o)
    ensures SomeOpIs(s.ops, i, Create, Succeeded) ==> SomeOpIs(s'.ops, i, Create, Succeeded)
  {
    hide Step, Inv;
    forall o | Has(s.ops, i, o)
      ensures Has(s'.ops, i, o)
      ensures HasOp(s.ops, i, o, Create, Succeeded) ==> HasOp(s'.ops, i, o, Create, Succeeded)
    {
      OperationStep(s, a, s', i, o);
    }
  }

  lemma {:induction false} RunScans(states: seq<State>, actions: seq<Action>, n: nat)
    requires IsRun(states, actions) && n < |states|
    ensures ScanOK(states[n])
  {
    hide Step, Inv;
    if n > 0 {
      RunScans(states, actions, n - 1);
      RunKeeps(states, actions, n - 1);
      assert Step(states[n - 1], actions[n - 1]) == Some(states[n]);
      ScanStep(states[n - 1], actions[n - 1], states[n]);
    }
  }

  /** A request that misses the only succeeded Create gets past both checks once nothing is in progress. */
  lemma ReachesLookupAfterMiss(s: State, req: ProvisionRequest, o: OperationID)
    requires Inv(s) && ScanOK(s) && !s.prov.PIdle? && s.prov.req == req && Misses(s.prov, req.instanceID, o)
    requires forall q :: !Active(s.ops, req.instanceID, q)
    requires forall q | HasOp(s.ops, req.instanceID, q, Create, Succeeded) :: q == o
    requires !Deprovisioned(s.ops, req.instanceID)
    requires s.prov.PScanProvisioned? ==> !s.prov.result
    ensures Reaches(false, s, s.(prov := PGetAddon(req)))
  {
    var i, t, final := req.instanceID, s.(prov := PCheckInProgress(req)), s.(prov := PGetAddon(req));
    assert KeysOK(s.ops);
    match s.prov
    case PScanProvisioned(_, todo, _) =>
      forall q | q in todo
        ensures Has(s.ops, i, q) && s.ops[i][q].state != InProgress &&
                !(s.ops[i][q].state == Succeeded && s.ops[i][q].kind != Undefined)
      {
        assert !Active(s.ops, i, q) && !HasOp(s.ops, i, q, Create, Succeeded) && !HasOp(s.ops, i, q, Remove, Succeeded);
      }
      ReachesScanned(false, s, req, todo);
      ReachesPastChecks(false, t, req);
      ReachesTransitive(false, s, t, final);
    case PCheckInProgress(_) => ReachesPastChecks(false, s, req);
    case PScanInProgress(_, todo) =>
      assert forall q | q in todo :: Has(s.ops, i, q) && !Active(s.ops, i, q);
      ReachesPastScan(false, s, req, todo);
  }

  /** From past both checks a second Create runs to success, and what had succeeded still has. */
  lemma ReachesAnotherCreate(s: State, addon: Addon, first: OperationID, second: OperationID) returns (final: State)
    requires KeysOK(s.ops) && s.prov.PGetAddon? && Allows(s, s.prov.req, addon) && s.prov.req.planID in addon.plans
    requires s.prov.req.instanceID != "" && second != "" && !Has(s.ops, s.prov.req.instanceID, second)
    requires forall o :: !Active(s.ops, s.prov.req.instanceID, o)
    requires HasOp(s.ops, s.prov.req.instanceID, first, Create, Succeeded)
    requires !Deprovisioned(s.ops, s.prov.req.instanceID)
    ensures Reaches(false, s, final)
    ensures HasOp(final.ops, s.prov.req.instanceID, first, Create, Succeeded)
    ensures HasOp(final.ops, s.prov.req.instanceID, second, Create, Succeeded)
    ensures !Deprovisioned(final.ops, s.prov.req.instanceID)
  {
    hide Step, Reaches, Allows, CreateReleaseName, KeysOK;
    final := ReachesFromLookup(false, s, addon, second);
    assert Has(s.ops, s.prov.req.instanceID, first);
    NotRemovedByCreate(s.ops, final.ops, s.prov.req.instanceID, second);
  }

  /**
   Every crossing is fatal: whenever a step of a run crosses, and the request it crosses can be served, the run
   goes on to a second succeeded Create unless there is one already.
   */
  lemma CrossingLeadsToTwoCreates(
    states: seq<State>, actions: seq<Action>, n: nat, i: InstanceID, addon: Addon, second: OperationID)
    returns (final: State, other: OperationID)
    requires IsRun(states, actions) && n < |actions| && Crosses(states[n], actions[n], i)
    requires !Deprovisioned(states[n].ops, i)
    requires Allows(states[n], states[n].prov.req, addon) && states[n].prov.req.planID in addon.plans
    requires second != "" && !Has(states[n].ops, i, second)
    ensures Reaches(false, states[n + 1], final)
    ensures other != actions[n].key.1
    ensures HasOp(final.ops, i, actions[n].key.1, Create, Succeeded)
    ensures HasOp(final.ops, i, other, Create, Succeeded)
    ensures !Deprovisioned(final.ops, i)
  {
    var s, s', o := states[n], states[n + 1], actions[n].key.1;
    assert Step(s, actions[n]) == Some(s');
    RunKeeps(states, actions, n);
    RunKeeps(states, actions, n + 1);
    RunScans(states, actions, n);
    RunScans(states, actions, n + 1);
    AfterCrossing(s, actions[n], s', i, second);
    hide Step, Inv, ScanOK, Reaches, IsRun;
    if q :| q != o && HasOp(s'.ops, i, q, Create, Succeeded) {
      final, other := s', q;
      ReachesSelf(false, s');
    } else {
      ReachesLookupAfterMiss(s', s.prov.req, o);
      var t := s'.(prov := PGetAddon(s.prov.req));
      other := second;
      final := ReachesAnotherCreate(t, addon, o, second);
      ReachesTransitive(false, s', t, final);
    }
  }

  lemma AfterCrossing(s: State, a: Action, s': State, i: InstanceID, second: OperationID)
    requires Inv(s) && ScanOK(s) && Step(s, a) == Some(s') && Crosses(s, a, i) && !Deprovisioned(s.ops, i)
    requires !Has(s.ops, i, second)
    ensures s'.prov == s.prov && s'.instances == s.instances && s'.once == s.once
    ensures Misses(s'.prov, i, a.key.1) && HasOp(s'.ops, i, a.key.1, Create, Succeeded)
    ensures !Deprovisioned(s'.ops, i) && !Has(s'.ops, i, second) && i != "" && KeysOK(s'.ops)
    ensures forall q :: !Active(s'.ops, i, q)
    ensures s'.prov.PScanProvisioned? && s'.prov.result ==>
              exists q :: q != a.key.1 && HasOp(s'.ops, i, q, Create, Succeeded)
  {
    hide Step, Inv, KeysOK, Misses;
    var o := a.key.1;
    InvKeys(s);
    CrossingWrites(s, a, s', i);
    FinishedByOwnWorker(s, a, s', i, o);
    StepKeeps(s, a, s');
    InvKeys(s');
    KeysNotEmpty(s.ops, i, o);
    NotRemovedByCreate(s.ops, s'.ops, i, o);
    MissesOwn(s.prov, i, o);
    if s.prov.PScanProvisioned? && s.prov.result {
      var q :| HasOp(s.ops, i, q, Create, Succeeded);
      assert q != o && HasOp(s'.ops, i, q, Create, Succeeded);
    }
  }

  lemma CrossingWrites(s: State, a: Action, s': State, i: InstanceID)
    requires KeysOK(s.ops) && Step(s, a) == Some(s') && Crosses(s, a, i)
    ensures s'.prov == s.prov && s'.instances == s.instances && s'.once == s.once
    ensures Extends(s.ops, s'.ops, i, a.key.1) && HasOp(s'.ops, i, a.key.1, Create, Succeeded)
  {
    hide Misses;
    UpdateEffect(s.ops, i, a.key.1, Succeeded, Some(a.description));
    hide UpdateOp, KeysOK, Extends;
  }

  lemma MissesOwn(p: ProvisionPhase, i: InstanceID, o: OperationID)
    requires Misses(p, i, o)
    ensures !p.PIdle? && p.req.instanceID == i
  {
  }

  lemma NotRemovedByCreate(ops: Store, ops': Store, i: InstanceID, o: OperationID)
    requires Extends(ops, ops', i, o) && HasOp(ops', i, o, Create, Succeeded) && !Deprovisioned(ops, i)
    ensures !Deprovisioned(ops', i)
  {
    forall q ensures !HasOp(ops', i, q, Remove, Succeeded) {
      assert HasOp(ops', i, q, Remove, Succeeded) ==> HasOp(ops, i, q, Remove, Succeeded);
    }
  }

  // ----- from the beginning -----

  /** Every request can be raced into a second successful Create of the same instance. */
  lemma TwoCreatesCanSucceed(
    s: State, req: ProvisionRequest, addon: Addon, first: OperationID, second: OperationID) returns (final: State)
    requires Initial(s) && req.acceptsIncomplete && req.namespace.Some? && req.instanceID != ""
    requires addon.id == req.serviceID && addon.id !in s.once && !addon.provisionOnlyOnce && req.planID in addon.plans
    requires first != "" && second != "" && first != second
    ensures Reaches(false, s, final)
    ensures HasOp(final.ops, req.instanceID, first, Create, Succeeded)
    ensures HasOp(final.ops, req.instanceID, second, Create, Succeeded)
    ensures !Deprovisioned(final.ops, req.instanceID)
  {
    hide Step, Reaches;
    var t := RaceToSecondLookup(s, req, addon, first);
    final := ReachesAnotherCreate(t, addon, first, second);
    ReachesTransitive(false, s, t, final);
  }

  /** The first half of the race: the second request is past both checks, the first Create has succeeded. */
  lemma RaceToSecondLookup(s: State, req: ProvisionRequest, addon: Addon, first: OperationID) returns (final: State)
    requires Initial(s) && req.acceptsIncomplete && req.namespace.Some? && req.instanceID != ""
    requires addon.id == req.serviceID && addon.id !in s.once && !addon.provisionOnlyOnce && req.planID in addon.plans
    requires first != ""
    ensures Reaches(false, s, final) && final.prov == PGetAddon(req) && final.once == s.once && KeysOK(final.ops)
    ensures HasOp(final.ops, req.instanceID, first, Create, Succeeded)
    ensures forall o | Has(final.ops, req.instanceID, o) :: o == first
  {
    hide Step, Reaches, CreateReleaseName;
    var i := req.instanceID;
    var t := ReachesFirstLookup(s, req);
    var io := NewOperation(i, first, Create, req.parameters);
    InsertEffect(t.ops, io, 0);
    var u, _ := ReachesAccepted(false, t, addon, first);
    ReachesTransitive(false, s, t, u);
    assert u.ops == map[i := map[first := io.(createdAt := 0)]];
    var v := ReachesClosing(false, u, (i, first));
    ReachesTransitive(false, s, u, v);
    var w := ReachesSecondCheck(v, req, first);
    ReachesTransitive(false, s, v, w);
    var x := ReachesClosed(false, w, (i, first));
    ReachesTransitive(false, s, w, x);
    assert forall o | Has(x.ops, i, o) :: o == first;
    assert KeysOK(x.ops);
    ReachesPastChecks(false, x, req);
    final := x.(prov := PGetAddon(req));
    ReachesTransitive(false, s, x, final);
  }

  /**
   A plan the addon lacks is found missing only after the Create was inserted: every such request, sent to a
   broker that has seen nothing yet, is refused and leaves an operation in progress that nobody owns.
   */
  lemma MissingPlanLeavesOrphan(s: State, req: ProvisionRequest, addon: Addon, o: OperationID) returns (final: State)
    requires Initial(s) && req.acceptsIncomplete && req.instanceID != "" && o != ""
    requires Allows(s, req, addon) && req.planID !in addon.plans
    ensures Reaches(false, s, final)
    ensures Orphaned(final, req.instanceID, o) && final.provReply == BadRequest
  {
    hide Reaches;
    var i := req.instanceID;
    var t := ReachesFirstLookup(s, req);
    var io := NewOperation(i, o, Create, req.parameters);
    InsertSucceeds(t.ops, io);
    InsertEffect(t.ops, io, 0);
    var u := ReachesInserted(false, t, addon, o);
    ReachesTransitive(false, s, t, u);
    final := ReplyProvision(u, BadRequest);
    hide InsertOp, Allows;
    ReachesStep(false, u, ProvisionFindPlan, final);
    ReachesTransitive(false, s, u, final);
  }
}
