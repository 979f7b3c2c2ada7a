/**
 How many Creates of one instance can succeed. After a Remove has succeeded, any number: the instance
 counts as not provisioned for ever. Before, one, unless a step crosses: a worker marks its Create succeeded
 just when a request for the same instance has looked for succeeded Creates, and not yet for Creates in
 progress.
 */
module LifecycleCrossing {
  import opened Values
  import opened Operations
  import opened ReleaseNames
  import opened Lifecycle
  import opened LifecycleInvariant
  import opened LifecycleRuns

  /** A request for `i` has missed that `o` succeeds, and will not find it in progress either. */
  predicate Misses(p: ProvisionPhase, i: InstanceID, o: OperationID) {
    match p
    case PScanProvisioned(req, todo, _) => req.instanceID == i && o !in todo
    case PCheckInProgress(req) => req.instanceID == i
    case PScanInProgress(req, todo) => req.instanceID == i && o in todo
    case _ => false
  }

  /** The worker of a Create of `i` marks it succeeded behind the back of the request in flight. */
  predicate Crosses(s: State, a: Action, i: InstanceID) {
    && a.WorkerClose? && a.key.0 == i
    && a.key in s.workers && s.workers[a.key] == Closing(Succeeded)
    && HasOp(s.ops, i, a.key.1, Create, InProgress)
    && Misses(s.prov, i, a.key.1)
  }

  ghost predicate Uncrossed(states: seq<State>, actions: seq<Action>, n: nat, i: InstanceID)
    requires n <= |actions| <= |states|
  {
    forall k | 0 <= k < n :: !Crosses(states[k], actions[k], i)
  }

  // ----- the invariant of runs without a crossing -----

  predicate LiveCreate(ops: Store, i: InstanceID, o: OperationID) {
    Has(ops, i, o) && ops[i][o].kind == Create && ops[i][o].state != Failed
  }

  /** Until the instance is deprovisioned, all but one of its Creates have failed. */
  ghost predicate SoleCreate(ops: Store, i: InstanceID) {
    !Deprovisioned(ops, i) ==> forall a, b | LiveCreate(ops, i, a) && LiveCreate(ops, i, b) :: a == b
  }

  /** Every Create in progress is in `todo`. */
  ghost predicate Underway(ops: Store, i: InstanceID, todo: set<OperationID>) {
    forall o | HasOp(ops, i, o, Create, InProgress) :: o in todo
  }

  /** What a request for `i` may rely on at each point. */
  ghost predicate Checked(ops: Store, p: ProvisionPhase, i: InstanceID) {
    p.PIdle? || p.req.instanceID != i ||
    match p
    case PScanProvisioned(_, todo, result) =>
      Provisioned(ops, i) ==> result || exists o :: HasOp(ops, i, o, Create, Succeeded) && o in todo
    case PCheckInProgress(_) => !Provisioned(ops, i)
    case PScanInProgress(_, todo) => !Provisioned(ops, i) && Underway(ops, i, todo)
    case PGetAddon(_) => !Provisioned(ops, i) && Underway(ops, i, {})
    case PListInstances(_, _, _) => !Provisioned(ops, i) && Underway(ops, i, {})
    case PInsert(_, _, _) => !Provisioned(ops, i) && Underway(ops, i, {})
    case _ => true
  }

  ghost predicate Sole(s: State, i: InstanceID) {
    SoleCreate(s.ops, i) && Checked(s.ops, s.prov, i)
  }

  // ----- the steps of a request -----

  lemma ScanReads(ops: Store, req: ProvisionRequest, todo: set<OperationID>, result: bool, o: OperationID)
    requires Checked(ops, PScanProvisioned(req, todo, result), req.instanceID) && o in todo
    ensures Checked(ops, PScanProvisioned(req, todo - {o}, result || HasOp(ops, req.instanceID, o, Create, Succeeded)),
                    req.instanceID)
  {
    var i := req.instanceID;
    if Provisioned(ops, i) && !result && !HasOp(ops, i, o, Create, Succeeded) {
      var q :| HasOp(ops, i, q, Create, Succeeded) && q in todo;
      assert q in todo - {o};
    }
  }

  /** Reading the operations and scanning them. */
  lemma ReadsKeepChecked(s: State, a: Action, s': State)
    requires Step(s, a) == Some(s') && (a.ProvisionReadOps? || a.ProvisionScan? || a.ProvisionScanEnd?)
    requires Checked(s.ops, s.prov, s.prov.req.instanceID)
    ensures s'.prov.PIdle? || (s'.prov.req == s.prov.req && Checked(s.ops, s'.prov, s.prov.req.instanceID))
  {
    var i := s.prov.req.instanceID;
    match s.prov
    case PCheckProvisioned(req) =>
      if Provisioned(s.ops, i) {
        var o :| HasOp(s.ops, i, o, Create, Succeeded);
        assert o in s.ops[i].Keys;
      }
    case PScanProvisioned(req, todo, result) =>
      if a.ProvisionScan? {
        ScanReads(s.ops, req, todo, result, a.seen);
        assert HasOp(s.ops, i, a.seen, Remove, Succeeded) ==> !Provisioned(s.ops, i);
      }
    case PCheckInProgress(req) =>
      assert forall o | HasOp(s.ops, i, o, Create, InProgress) :: o in s.ops[i].Keys;
    case PScanInProgress(req, todo) =>
  }

  lemma ReadsKeepRequest(s: State, a: Action, s': State)
    requires Step(s, a) == Some(s') && (a.ProvisionReadOps? || a.ProvisionScan? || a.ProvisionScanEnd?)
    ensures !s.prov.PIdle? && (s'.prov.PIdle? || s'.prov.req == s.prov.req)
  {
  }

  /** Beginning a request, and everything after its checks but the insert. */
  lemma RestKeepsChecked(s: State, a: Action, s': State, i: InstanceID)
    requires Step(s, a) == Some(s') && Checked(s.ops, s.prov, i)
    requires a.ProvisionBegin? || a.ProvisionCompare? || a.ProvisionGetAddon? || a.ProvisionListInstances? ||
             a.ProvisionFindPlan? || a.ProvisionUpsert?
    ensures Checked(s.ops, s'.prov, i)
  {
    hide Provisioned, Underway, GetAllOps, IsProvisioningAllowed, CreateReleaseName;
  }

  lemma ProvisionQuietKeepsSole(s: State, a: Action, s': State, i: InstanceID)
    requires Step(s, a) == Some(s') && OfProvision(a) && !a.ProvisionInsert? && Sole(s, i)
    ensures Sole(s', i)
  {
    ProvisionKeepsStores(s, a, s');
    if a.ProvisionReadOps? || a.ProvisionScan? || a.ProvisionScanEnd? {
      ReadsKeepRequest(s, a, s');
      if s.prov.req.instanceID == i {
        ReadsKeepChecked(s, a, s');
      }
    } else {
      RestKeepsChecked(s, a, s', i);
    }
    hide Step, Provisioned, Underway, SoleCreate;
  }

  // ----- inserting -----

  /** What an insert into `ops` at `(i, o)` leaves of the queries about `j`. */
  lemma InsertKeepsQueries(ops: Store, ops': Store, i: InstanceID, o: OperationID, j: InstanceID)
    requires Extends(ops, ops', i, o) && !Has(ops, i, o) && Active(ops', i, o)
    ensures Provisioned(ops', j) <==> Provisioned(ops, j)
    ensures Deprovisioned(ops', j) <==> Deprovisioned(ops, j)
  {
    SameQueries(ops, ops', i, o, j);
  }

  lemma InsertKeepsSole(ops: Store, ops': Store, i: InstanceID, o: OperationID, j: InstanceID)
    requires SoleCreate(ops, j)
    requires Extends(ops, ops', i, o) && !Has(ops, i, o) && Active(ops', i, o)
    requires forall q :: !Active(ops, i, q)
    requires j == i && ops'[i][o].kind == Create ==> !Provisioned(ops, i)
    ensures SoleCreate(ops', j)
  {
    InsertKeepsQueries(ops, ops', i, o, j);
    if !Deprovisioned(ops', j) {
      forall a, b | LiveCreate(ops', j, a) && LiveCreate(ops', j, b)
        ensures a == b
      {
        NewestIsAlone(ops, ops', i, o, j, a);
        NewestIsAlone(ops, ops', i, o, j, b);
        hide Deprovisioned, Extends;
      }
    }
  }

  /** A live Create beside a newly inserted one belongs to another, or to a deprovisioned, instance. */
  lemma NewestIsAlone(ops: Store, ops': Store, i: InstanceID, o: OperationID, j: InstanceID, a: OperationID)
    requires Extends(ops, ops', i, o) && !Has(ops, i, o) && Active(ops', i, o)
    requires forall q :: !Active(ops, i, q)
    requires j == i && ops'[i][o].kind == Create ==> !Provisioned(ops, i)
    requires LiveCreate(ops', j, a) && !Deprovisioned(ops, j)
    ensures (j, a) == (i, o) || LiveCreate(ops, j, a)
    ensures j == i && ops'[i][o].kind == Create ==> a == o
  {
    if (j, a) != (i, o) {
      assert Has(ops, j, a);
      if j == i && ops'[i][o].kind == Create {
        assert !Active(ops, i, a);
        assert HasOp(ops, i, a, Create, Succeeded);
      }
    }
  }

  lemma ProvisionInsertKeepsSole(s: State, newID: Option<OperationID>, now: int, i: InstanceID)
    requires StepProvisionInsert(s, newID, now).Some? && Sole(s, i)
    ensures Sole(StepProvisionInsert(s, newID, now).value, i)
  {
    if newID.Some? {
      var req := s.prov.req;
      var io := NewOperation(req.instanceID, newID.value, Create, req.parameters);
      InsertEffect(s.ops, io, now);
      hide InsertOp, Extends, SoleCreate, Provisioned, Underway;
      if InsertOp(s.ops, io, now).0.Ok? {
        InsertKeepsSole(s.ops, InsertOp(s.ops, io, now).1, req.instanceID, newID.value, i);
      }
    }
  }

  lemma DeprovisionInsertKeepsSole(s: State, now: int, i: InstanceID)
    requires StepDeprovisionInsert(s, now).Some? && Sole(s, i)
    ensures Sole(StepDeprovisionInsert(s, now).value, i)
  {
    var io := NewOperation(s.deprov.i, s.deprov.op, Remove, RequestParameters(Some(map[])));
    InsertEffect(s.ops, io, now);
    var r := InsertOp(s.ops, io, now);
    hide InsertOp;
    if r.0.Ok? {
      InsertKeepsSole(s.ops, r.1, s.deprov.i, s.deprov.op, i);
      InsertKeepsQueries(s.ops, r.1, s.deprov.i, s.deprov.op, i);
      hide SoleCreate, Provisioned, Deprovisioned;
      CreatesStay(s.ops, r.1, s.deprov.i, s.deprov.op, s.prov, i);
    }
  }

  /** An operation that is not a Create makes no difference to a request. */
  lemma CreatesStay(ops: Store, ops': Store, i: InstanceID, o: OperationID, p: ProvisionPhase, j: InstanceID)
    requires Checked(ops, p, j) && Extends(ops, ops', i, o)
    requires Has(ops', i, o) && ops'[i][o].kind != Create && (Has(ops, i, o) ==> ops[i][o].kind != Create)
    requires Provisioned(ops', j) ==> Provisioned(ops, j)
    ensures Checked(ops', p, j)
  {
    forall q, state ensures HasOp(ops', j, q, Create, state) <==> HasOp(ops, j, q, Create, state) {
    }
    hide Provisioned, Extends;
  }

  // ----- closing -----

  lemma CloseKeepsSole(s: State, key: WorkerKey, description: string, i: InstanceID)
    requires Inv(s) && StepWorkerClose(s, key, description).Some? && Sole(s, i)
    requires !Crosses(s, WorkerClose(key, description), i)
    ensures Sole(StepWorkerClose(s, key, description).value, i)
  {
    var s', outcome := StepWorkerClose(s, key, description).value, s.workers[key].outcome;
    assert WorkerOK(s.ops, s.instances, key, s.workers[key]);
    assert Active(s.ops, key.0, key.1) && outcome != InProgress;
    UpdateEffect(s.ops, key.0, key.1, outcome, Some(description));
    hide Inv, UpdateOp;
    ClosedCreates(s.ops, s'.ops, key, i);
    if s.ops[key.0][key.1].kind != Create || key.0 != i {
      CreatesStayOrEnd(s.ops, s'.ops, key, s.prov, i);
    } else {
      CreateCloses(s, s'.ops, key, i, outcome);
    }
  }

  /** `ops'` differs from `ops` in the state of one operation, which was in progress. */
  ghost predicate Closes(ops: Store, ops': Store, key: WorkerKey) {
    && Active(ops, key.0, key.1) && Has(ops', key.0, key.1) && !Active(ops', key.0, key.1)
    && ops'[key.0][key.1].kind == ops[key.0][key.1].kind
    && Extends(ops, ops', key.0, key.1)
  }

  lemma ClosedCreates(ops: Store, ops': Store, key: WorkerKey, i: InstanceID)
    requires Closes(ops, ops', key) && SoleCreate(ops, i)
    ensures SoleCreate(ops', i)
    ensures Deprovisioned(ops, i) ==> Deprovisioned(ops', i)
  {
    if o :| HasOp(ops, i, o, Remove, Succeeded) {
      assert HasOp(ops', i, o, Remove, Succeeded);
    }
    forall o | LiveCreate(ops', i, o) ensures LiveCreate(ops, i, o) {
      assert Has(ops, i, o);
    }
  }

  lemma CreatesStayOrEnd(ops: Store, ops': Store, key: WorkerKey, p: ProvisionPhase, i: InstanceID)
    requires Closes(ops, ops', key) && Checked(ops, p, i)
    requires ops[key.0][key.1].kind != Create || key.0 != i
    ensures Checked(ops', p, i)
  {
    forall q, state ensures HasOp(ops', i, q, Create, state) <==> HasOp(ops, i, q, Create, state) {
    }
    forall q | HasOp(ops, i, q, Remove, Succeeded) ensures HasOp(ops', i, q, Remove, Succeeded) {
    }
    assert Provisioned(ops', i) ==> Provisioned(ops, i);
    hide Provisioned, Closes;
  }

  lemma CreateCloses(s: State, ops': Store, key: WorkerKey, i: InstanceID, outcome: OperationState)
    requires Closes(s.ops, ops', key) && key.0 == i && s.ops[i][key.1].kind == Create && ops'[i][key.1].state == outcome
    requires Checked(s.ops, s.prov, i) && (outcome == Succeeded ==> !Misses(s.prov, i, key.1))
    ensures Checked(ops', s.prov, i)
  {
    assert HasOp(s.ops, i, key.1, Create, InProgress);
    forall q ensures HasOp(ops', i, q, Create, InProgress) ==> HasOp(s.ops, i, q, Create, InProgress) {
    }
    forall q
      ensures HasOp(ops', i, q, Remove, Succeeded) <==> HasOp(s.ops, i, q, Remove, Succeeded)
      ensures HasOp(ops', i, q, Create, Succeeded) <==>
              HasOp(s.ops, i, q, Create, Succeeded) || (q == key.1 && outcome == Succeeded)
    {
    }
    hide Closes;
  }

  // ----- runs -----

  lemma SoleStep(s: State, a: Action, s': State, i: InstanceID)
    requires Inv(s) && Step(s, a) == Some(s') && Sole(s, i) && !Crosses(s, a, i)
    ensures Sole(s', i)
  {
    hide Inv, SoleCreate, Checked, Misses;
    match a
    case ProvisionInsert(newID, now) => ProvisionInsertKeepsSole(s, newID, now, i);
    case DeprovisionInsert(now) => DeprovisionInsertKeepsSole(s, now, i);
    case WorkerClose(key, description) => CloseKeepsSole(s, key, description, i);
    case _ =>
      if OfProvision(a) {
        ProvisionQuietKeepsSole(s, a, s', i);
      } else if OfDeprovision(a) {
        DeprovisionKeepsStores(s, a, s');
        hide Step;
      } else {
        WorkerKeepsStores(s, a, s');
        hide Step;
      }
  }

  lemma {:induction false} UncrossedRunIsSole(states: seq<State>, actions: seq<Action>, n: nat, i: InstanceID)
    requires IsRun(states, actions) && n < |states| && Uncrossed(states, actions, n, i)
    ensures Sole(states[n], i)
  {
    hide Step, Inv, Crosses;
    if n > 0 {
      UncrossedRunIsSole(states, actions, n - 1, i);
      RunKeeps(states, actions, n - 1);
      assert Step(states[n - 1], actions[n - 1]) == Some(states[n]);
      hide Sole;
      SoleStep(states[n - 1], actions[n - 1], states[n], i);
    }
  }

  /** The instance had been removed when the later of the two operations was not yet there. */
  ghost predicate Reopened(s: State, i: InstanceID, a: OperationID, b: OperationID) {
    Deprovisioned(s.ops, i) && !(Has(s.ops, i, a) && Has(s.ops, i, b))
  }

  /** The step that inserts the later of two operations. */
  lemma {:induction false} BothAppear(
    states: seq<State>, actions: seq<Action>, n: nat, i: InstanceID, a: OperationID, b: OperationID) returns (k: nat)
    requires IsRun(states, actions) && n < |states| && Has(states[n].ops, i, a) && Has(states[n].ops, i, b)
    ensures k < n && !(Has(states[k].ops, i, a) && Has(states[k].ops, i, b))
    ensures Has(states[k + 1].ops, i, a) && Has(states[k + 1].ops, i, b)
  {
    hide Step;
    if Has(states[n - 1].ops, i, a) && Has(states[n - 1].ops, i, b) {
      k := BothAppear(states, actions, n - 1, i, a, b);
    } else {
      k := n - 1;
    }
  }

  /** A step that inserts an operation finishes none. */
  lemma InsertFinishesNothing(s: State, a: Action, s': State, i: InstanceID, o: OperationID)
    requires Inv(s) && Step(s, a) == Some(s') && !Has(s.ops, i, o) && Has(s'.ops, i, o)
    ensures Deprovisioned(s'.ops, i) ==> Deprovisioned(s.ops, i)
  {
    hide Step, Inv;
    OperationStep(s, a, s', i, o);
    if q :| HasOp(s'.ops, i, q, Remove, Succeeded) {
      OperationStep(s, a, s', i, q);
      assert HasOp(s.ops, i, q, Remove, Succeeded);
    }
  }

  /** A Create that will succeed is live as soon as it is there. */
  lemma LiveBeforeSuccess(states: seq<State>, actions: seq<Action>, m: nat, n: nat, i: InstanceID, o: OperationID)
    requires IsRun(states, actions) && m <= n < |states|
    requires Has(states[m].ops, i, o) && HasOp(states[n].ops, i, o, Create, Succeeded)
    ensures LiveCreate(states[m].ops, i, o)
  {
    hide Step;
    OperationChangesOnce(states, actions, m, n, i, o);
  }

  /**
   Under every interleaving two Creates of one instance have both succeeded only if a step crossed, or if a Remove
   had succeeded before the later of them was inserted.
   */
  lemma TwoCreatesNeedCrossing(
    states: seq<State>, actions: seq<Action>, n: nat, i: InstanceID, a: OperationID, b: OperationID)
    requires IsRun(states, actions) && n < |states| && a != b
    requires HasOp(states[n].ops, i, a, Create, Succeeded) && HasOp(states[n].ops, i, b, Create, Succeeded)
    ensures exists k | 0 <= k < n :: Crosses(states[k], actions[k], i) || Reopened(states[k], i, a, b)
  {
    var k := BothAppear(states, actions, n, i, a, b);
    if Uncrossed(states, actions, n, i) && !Reopened(states[k], i, a, b) {
      hide Step, Crosses;
      UncrossedRunIsSole(states, actions, k + 1, i);
      RunKeeps(states, actions, k);
      assert Step(states[k], actions[k]) == Some(states[k + 1]);
      InsertFinishesNothing(states[k], actions[k], states[k + 1], i, if Has(states[k].ops, i, a) then b else a);
      LiveBeforeSuccess(states, actions, k + 1, n, i, a);
      LiveBeforeSuccess(states, actions, k + 1, n, i, b);
    }
  }
}
