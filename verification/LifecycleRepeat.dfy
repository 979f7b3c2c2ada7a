/**
 Repeating a Provision. The code keeps the idempotence rules of the section
 "Provisioning" of the Open Service Broker API v2.14 exactly for instances of which a Create has succeeded
 and no Remove ever has; any other instance without an operation in progress gets a new Create.
 */
module LifecycleRepeat {
  import opened Values
  import opened Operations
  import opened ReleaseNames
  import opened Lifecycle
  import opened LifecycleInvariant
  import opened LifecycleRuns
  import opened LifecycleReach
  import opened LifecycleCrossing
  import opened LifecycleAnswers

  // ----- the record carries the parameters of the Create that succeeded -----

  ghost predicate ParametersOK(ops: Store, instances: map<InstanceID, Instance>, i: InstanceID) {
    !Deprovisioned(ops, i) && i in instances ==>
      forall c | HasOp(ops, i, c, Create, Succeeded) :: instances[i].parameters == ops[i][c].parameters
  }

  lemma InsertKeepsParameters(
    ops: Store, ops': Store, instances: map<InstanceID, Instance>, i: InstanceID, o: OperationID, j: InstanceID)
    requires Extends(ops, ops', i, o) && !Has(ops, i, o) && Active(ops', i, o) && ParametersOK(ops, instances, j)
    ensures ParametersOK(ops', instances, j)
  {
    InsertKeepsQueries(ops, ops', i, o, j);
    forall c | HasOp(ops', j, c, Create, Succeeded) ensures HasOp(ops, j, c, Create, Succeeded) {
    }
  }

  lemma InsertsKeepParameters(s: State, a: Action, s': State, i: InstanceID)
    requires Step(s, a) == Some(s') && (a.ProvisionInsert? || a.DeprovisionInsert?)
    requires ParametersOK(s.ops, s.instances, i)
    ensures ParametersOK(s'.ops, s'.instances, i)
  {
    hide InsertOp, ParametersOK;
    if a.DeprovisionInsert? {
      var io := NewOperation(s.deprov.i, s.deprov.op, Remove, RequestParameters(Some(map[])));
      InsertEffect(s.ops, io, a.now);
      if InsertOp(s.ops, io, a.now).0.Ok? {
        InsertKeepsParameters(s.ops, s'.ops, s.instances, io.instanceID, io.operationID, i);
      }
    } else if a.newID.Some? {
      var io := NewOperation(s.prov.req.instanceID, a.newID.value, Create, s.prov.req.parameters);
      InsertEffect(s.ops, io, a.now);
      if InsertOp(s.ops, io, a.now).0.Ok? {
        InsertKeepsParameters(s.ops, s'.ops, s.instances, io.instanceID, io.operationID, i);
      }
    }
  }

  lemma CloseKeepsParameters(s: State, key: WorkerKey, description: string, i: InstanceID)
    requires Inv(s) && StepWorkerClose(s, key, description).Some? && ParametersOK(s.ops, s.instances, i)
    ensures ParametersOK(StepWorkerClose(s, key, description).value.ops, s.instances, i)
  {
    var ops' := StepWorkerClose(s, key, description).value.ops;
    assert WorkerOK(s.ops, s.instances, key, s.workers[key]);
    UpdateEffect(s.ops, key.0, key.1, s.workers[key].outcome, Some(description));
    hide Inv, KeysOK, NamedFor, WorkersOK, PresenceOK, OnceOK, UpdateOp;
    forall q | HasOp(s.ops, i, q, Remove, Succeeded) ensures HasOp(ops', i, q, Remove, Succeeded) {
    }
    forall c | HasOp(ops', i, c, Create, Succeeded) ensures (i, c) == key || HasOp(s.ops, i, c, Create, Succeeded) {
    }
  }

  lemma UpsertKeepsParameters(s: State, i: InstanceID)
    requires Inv(s) && StepProvisionUpsert(s).Some? && SoleCreate(s.ops, i) && ParametersOK(s.ops, s.instances, i)
    ensures ParametersOK(s.ops, StepProvisionUpsert(s).value.instances, i)
  {
    assert RequestOK(s);
    hide Inv, KeysOK, NamedFor, WorkersOK, PresenceOK, OnceOK;
    if i == s.prov.req.instanceID {
      assert LiveCreate(s.ops, i, s.prov.op);
      assert forall c | HasOp(s.ops, i, c, Create, Succeeded) :: LiveCreate(s.ops, i, c);
    }
  }

  /** The worker's own writes keep the parameters, or remove the record. */
  lemma RecordingKeepsParameters(s: State, a: Action, s': State, i: InstanceID)
    requires Inv(s) && Step(s, a) == Some(s') && (a.WorkerRecord? || a.WorkerRemoveRecord?)
    requires ParametersOK(s.ops, s.instances, i)
    ensures ParametersOK(s.ops, s'.instances, i)
  {
    assert WorkerOK(s.ops, s.instances, a.key, s.workers[a.key]);
    hide Inv, HasOp, Deprovisioned;
  }

  lemma ParametersStep(s: State, a: Action, s': State, i: InstanceID)
    requires Inv(s) && Step(s, a) == Some(s') && SoleCreate(s.ops, i) && ParametersOK(s.ops, s.instances, i)
    ensures ParametersOK(s'.ops, s'.instances, i)
  {
    hide Inv, ParametersOK, SoleCreate;
    StoresUntouched(s, a, s');
    match a
    case ProvisionInsert(_, _) => InsertsKeepParameters(s, a, s', i);
    case DeprovisionInsert(_) => InsertsKeepParameters(s, a, s', i);
    case ProvisionUpsert => UpsertKeepsParameters(s, i);
    case WorkerClose(key, description) => CloseKeepsParameters(s, key, description, i);
    case WorkerRecord(_) => RecordingKeepsParameters(s, a, s', i);
    case WorkerRemoveRecord(_) => RecordingKeepsParameters(s, a, s', i);
    case _ =>
      hide Step;
  }

  lemma {:induction false} UncrossedRunKeepsParameters(states: seq<State>, actions: seq<Action>, n: nat, i: InstanceID)
    requires IsRun(states, actions) && n < |states| && Uncrossed(states, actions, n, i)
    ensures ParametersOK(states[n].ops, states[n].instances, i)
  {
    hide Step, Inv, Crosses;
    if n > 0 {
      UncrossedRunKeepsParameters(states, actions, n - 1, i);
      UncrossedRunIsSole(states, actions, n - 1, i);
      RunKeeps(states, actions, n - 1);
      assert Step(states[n - 1], actions[n - 1]) == Some(states[n]);
      hide ParametersOK;
      ParametersStep(states[n - 1], actions[n - 1], states[n], i);
    }
  }

  // ----- a repeated request -----

  /**
   On an instance with nothing in progress an uninterrupted Provision, after any run whatever, is answered as a
   repetition, with the stores untouched, if and only if a Create has succeeded and no Remove ever has.
   */
  lemma RepetitionIff(
    states: seq<State>, actions: seq<Action>, m: nat, n: nat, req: ProvisionRequest, given: Given)
    requires Uninterrupted(states, actions, m, n, req, given)
    requires forall o :: !Active(states[m].ops, req.instanceID, o)
    ensures (states[n].provReply == AlreadyDone || states[n].provReply == Conflict) <==>
            Provisioned(states[m].ops, req.instanceID)
    ensures Provisioned(states[m].ops, req.instanceID) ==> SameStores(states[m], states[n])
  {
    hide Step;
    ProvisionIsAtomic(states, actions, m, n, req, given);
    if Provisioned(states[m].ops, req.instanceID) {
      assert !SomeOpIs(states[m].ops, req.instanceID, Remove, InProgress) by {
        assert forall o :: HasOp(states[m].ops, req.instanceID, o, Remove, InProgress) ==>
            Active(states[m].ops, req.instanceID, o);
      }
      ProvisionedHasRecord(states, actions, m, req.instanceID);
    }
  }

  /**
   ... and otherwise, with the addon allowed and the plan there, it is accepted: a new Create with the request's own
   parameters is in the store, whatever earlier Creates and Removes there were.
   */
  lemma AcceptedOtherwise(
    states: seq<State>, actions: seq<Action>, m: nat, n: nat, req: ProvisionRequest, addon: Addon, o: OperationID)
    requires Uninterrupted(states, actions, m, n, req, Given(Some(addon), Some(o)))
    requires !Provisioned(states[m].ops, req.instanceID) && forall q :: !Active(states[m].ops, req.instanceID, q)
    requires Allows(states[m], req, addon) && req.planID in addon.plans
    requires req.instanceID != "" && o != "" && !Has(states[m].ops, req.instanceID, o)
    ensures states[n].provReply == Accepted(o) && Inserted(states[m].ops, states[n].ops, req, o)
  {
    hide Step, Provisioned, Inserted;
    ProvisionIsAtomic(states, actions, m, n, req, Given(Some(addon), Some(o)));
    AllowedIffFree(states[m], addon, req.namespace.value);
    assert forall kind :: !SomeOpIs(states[m].ops, req.instanceID, kind, InProgress) by {
      assert forall kind, q :: HasOp(states[m].ops, req.instanceID, q, kind, InProgress) ==>
          Active(states[m].ops, req.instanceID, q);
    }
  }

  /**
   A repetition, for a provisioned instance with no Remove in progress and no crossing in its past: accepted exactly
   when its parameters are those of the Create that succeeded, a conflict otherwise.
   */
  lemma RepeatedProvision(
    states: seq<State>, actions: seq<Action>, m: nat, n: nat, req: ProvisionRequest, given: Given, c: OperationID)
    requires Uninterrupted(states, actions, m, n, req, given) && Uncrossed(states, actions, m, req.instanceID)
    requires Provisioned(states[m].ops, req.instanceID)
    requires !SomeOpIs(states[m].ops, req.instanceID, Remove, InProgress)
    requires HasOp(states[m].ops, req.instanceID, c, Create, Succeeded)
    ensures SameStores(states[m], states[n])
    ensures states[n].provReply ==
            if req.parameters == states[m].ops[req.instanceID][c].parameters then AlreadyDone else Conflict
  {
    hide Step, Crosses;
    RecordHasParameters(states, actions, m, req.instanceID, c);
    ProvisionIsAtomic(states, actions, m, n, req, given);
  }

  lemma RecordHasParameters(states: seq<State>, actions: seq<Action>, m: nat, i: InstanceID, c: OperationID)
    requires IsRun(states, actions) && m < |states| && Uncrossed(states, actions, m, i)
    requires Provisioned(states[m].ops, i) && !SomeOpIs(states[m].ops, i, Remove, InProgress)
    requires HasOp(states[m].ops, i, c, Create, Succeeded)
    ensures i in states[m].instances && states[m].instances[i].parameters == states[m].ops[i][c].parameters
  {
    hide Step, Crosses;
    ProvisionedHasRecord(states, actions, m, i);
    UncrossedRunKeepsParameters(states, actions, m, i);
  }

  // ----- requests taken as one step -----

  lemma SerialRunsAreUncrossed(states: seq<State>, actions: seq<Action>, i: InstanceID)
    requires IsSerialRun(states, actions)
    ensures Uncrossed(states, actions, |actions|, i)
  {
    hide Step;
    forall k | 0 <= k < |actions| ensures !Crosses(states[k], actions[k], i) {
      assert Serial(states[k], actions[k]);
    }
  }

  /** When no request is interrupted, two Creates succeed only if a Remove had, before the later was inserted. */
  lemma TwoCreatesNeedRemove(
    states: seq<State>, actions: seq<Action>, n: nat, i: InstanceID, a: OperationID, b: OperationID)
    requires IsSerialRun(states, actions) && n < |states| && a != b
    requires HasOp(states[n].ops, i, a, Create, Succeeded) && HasOp(states[n].ops, i, b, Create, Succeeded)
    ensures exists k | 0 <= k < n :: Reopened(states[k], i, a, b)
  {
    hide Step;
    SerialRunsAreUncrossed(states, actions, i);
    TwoCreatesNeedCrossing(states, actions, n, i, a, b);
  }

  /**
   And then they do: a serial run, for every instance, in which two Creates with different parameters are inserted
   after a Remove has succeeded, and both succeed. No request was interrupted and no Remove came between.
   */
  lemma RemovedTakesManyCreates(
    s: State, first: ProvisionRequest, second: ProvisionRequest, third: ProvisionRequest, addon: Addon,
    o1: OperationID, gone: OperationID, o2: OperationID, o3: OperationID)
    returns (states: seq<State>, actions: seq<Action>, m: nat)
    requires Initial(s) && !addon.provisionOnlyOnce && addon.id !in s.once
    requires Fits(first, addon) && Fits(second, addon) && Fits(third, addon)
    requires second.instanceID == third.instanceID == first.instanceID && second.parameters != third.parameters
    requires o1 != "" && gone != "" && o2 != "" && o3 != ""
    requires o1 != gone && o1 != o2 && o1 != o3 && gone != o2 && gone != o3 && o2 != o3
    ensures IsSerialRun(states, actions) && m < |states|
    ensures HasOp(states[m].ops, first.instanceID, gone, Remove, Succeeded)
    ensures !Has(states[m].ops, first.instanceID, o2) && !Has(states[m].ops, first.instanceID, o3)
    ensures var end := states[|actions|].ops;
            && HasOp(end, first.instanceID, o2, Create, Succeeded)
            && HasOp(end, first.instanceID, o3, Create, Succeeded)
            && end[first.instanceID][o2].parameters != end[first.instanceID][o3].parameters
  {
    hide Reaches, CreateReleaseName, Inv;
    var i := first.instanceID;
    var t := CreatedAndRemoved(s, first, addon, o1, gone);
    assert !Has(t.ops, i, o2) && !Has(t.ops, i, o3);
    UnflaggedIsAllowed(t, second, addon);
    var u := CreatesAgain(t, second, addon, o2);
    UnflaggedIsAllowed(u, third, addon);
    assert !Has(u.ops, i, o3);
    var v := CreatesAgain(u, third, addon, o3);
    ReachesTransitive(true, t, u, v);
    assert Has(u.ops, i, o2) && v.ops[i][o2] == u.ops[i][o2];
    states, actions, m := ReachedSerially(s, t, v);
  }

  lemma UnflaggedIsAllowed(s: State, req: ProvisionRequest, addon: Addon)
    requires Fits(req, addon) && !addon.provisionOnlyOnce && addon.id !in s.once
    ensures Allows(s, req, addon)
  {
  }

  /** The first life of the instance. */
  lemma CreatedAndRemoved(s: State, req: ProvisionRequest, addon: Addon, o: OperationID, gone: OperationID)
    returns (t: State)
    requires Initial(s) && !addon.provisionOnlyOnce && addon.id !in s.once && Fits(req, addon)
    requires o != "" && gone != "" && o != gone
    ensures Reaches(true, s, t) && Quiet(t, req.instanceID) && t.once == s.once
    ensures HasOp(t.ops, req.instanceID, gone, Remove, Succeeded)
    ensures forall q | Has(t.ops, req.instanceID, q) :: q == o || q == gone
    ensures !Provisioned(t.ops, req.instanceID) && Deprovisioned(t.ops, req.instanceID)
  {
    hide Reaches, CreateReleaseName;
    var i := req.instanceID;
    InitialInv(s);
    UnflaggedIsAllowed(s, req, addon);
    var u := CreatesAgain(s, req, addon, o);
    InvKeys(u);
    hide Inv, KeysOK;
    assert forall q | Has(u.ops, i, q) :: q == o;
    t := ReachesRemoved(u, i, gone);
    ReachesKeeps(true, u, t);
    ReachesTransitive(true, s, u, t);
    RemovedBySettled(u, t, i, gone);
  }

  /** The request is in order and asks for a plan of this addon. */
  predicate Fits(req: ProvisionRequest, addon: Addon) {
    && req.acceptsIncomplete && req.namespace.Some? && req.instanceID != ""
    && req.serviceID == addon.id && req.planID in addon.plans
  }

  /** Nothing of the instance is in progress, and no request is in flight. */
  ghost predicate Quiet(s: State, i: InstanceID) {
    Inv(s) && s.prov == PIdle && s.deprov == DIdle && forall o :: !Active(s.ops, i, o)
  }

  /** Whenever the instance is quiet and not provisioned, one more Create succeeds, and it is quiet again. */
  lemma CreatesAgain(s: State, req: ProvisionRequest, addon: Addon, o: OperationID) returns (s': State)
    requires Quiet(s, req.instanceID) && !Provisioned(s.ops, req.instanceID) && req.acceptsIncomplete
    requires Allows(s, req, addon) && req.planID in addon.plans
    requires req.instanceID != "" && o != "" && !Has(s.ops, req.instanceID, o)
    ensures Reaches(true, s, s') && CreatedBy(s, s', req, addon, o) && Quiet(s', req.instanceID)
    ensures Deprovisioned(s.ops, req.instanceID) ==> Deprovisioned(s'.ops, req.instanceID)
    ensures !Deprovisioned(s.ops, req.instanceID) ==> !Deprovisioned(s'.ops, req.instanceID)
  {
    hide Reaches, CreateReleaseName, Allows;
    var i := req.instanceID;
    InvKeys(s);
    hide Inv, KeysOK;
    s' := ReachesCreated(true, s, req, addon, o);
    ReachesKeeps(true, s, s');
    forall q
      ensures !Active(s'.ops, i, q)
      ensures HasOp(s'.ops, i, q, Remove, Succeeded) <==> HasOp(s.ops, i, q, Remove, Succeeded)
    {
      assert !Active(s.ops, i, q);
      assert q == o || (Has(s'.ops, i, q) <==> Has(s.ops, i, q));
    }
  }

  lemma RemovedBySettled(s: State, s': State, i: InstanceID, o: OperationID)
    requires RemovedBy(s, s', i, o) && forall q :: !Active(s.ops, i, q)
    ensures Deprovisioned(s'.ops, i) && forall q :: !Active(s'.ops, i, q)
  {
    forall q ensures !Active(s'.ops, i, q) {
      assert !Active(s.ops, i, q);
      assert q == o || (Has(s'.ops, i, q) <==> Has(s.ops, i, q));
    }
  }
}
