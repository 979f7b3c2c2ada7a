/** What every step of the instance lifecycle keeps. */
module LifecycleInvariant {
  import opened Values
  import opened Operations
  import opened ReleaseNames
  import opened Lifecycle

  // ----- the invariant -----

  ghost predicate KeysOK(ops: Store) {
    forall i, o {:trigger Has(ops, i, o)} | Has(ops, i, o) ::
      i != "" && o != "" && ops[i][o].instanceID == i && ops[i][o].operationID == o && ops[i][o].kind != Undefined
  }

  /** Each instance has at most one operation in progress. */
  ghost predicate OneActive(ops: Store) {
    forall i, a, b | Active(ops, i, a) && Active(ops, i, b) :: a == b
  }

  ghost predicate NamedFor(r: Instance) {
    exists addon, plan :: r.releaseName == CreateReleaseName(addon, plan, r.id)
  }

  ghost predicate RecordsOK(instances: map<InstanceID, Instance>) {
    forall i | i in instances :: instances[i].id == i && NamedFor(instances[i])
  }

  predicate SameRecord(a: Instance, b: Instance) {
    a.(revision := None) == b.(revision := None)
  }

  /** What holds while a worker is at the given point. */
  ghost predicate WorkerOK(ops: Store, instances: map<InstanceID, Instance>, key: WorkerKey, w: Worker) {
    Active(ops, key.0, key.1) &&
    var op := ops[key.0][key.1];
    match w
    case Installing(r) =>
      op.kind == Create && r.id == key.0 && r.parameters == op.parameters &&
      key.0 in instances && SameRecord(instances[key.0], r)
    case Recording(r) =>
      op.kind == Create && r.id == key.0 && r.parameters == op.parameters &&
      key.0 in instances && SameRecord(instances[key.0], r)
    case Deleting => op.kind == Remove
    case RemovingBindData => op.kind == Remove
    case RemovingRecord => op.kind == Remove
    case Closing(outcome) =>
      outcome != InProgress &&
      (outcome == Succeeded && op.kind == Create ==>
         key.0 in instances && instances[key.0].parameters == op.parameters) &&
      (outcome == Succeeded && op.kind == Remove ==> key.0 !in instances)
  }

  ghost predicate WorkersOK(ops: Store, instances: map<InstanceID, Instance>, workers: map<WorkerKey, Worker>) {
    forall key | key in workers :: WorkerOK(ops, instances, key, workers[key])
  }

  /** This Remove has deleted the record and is about to be marked succeeded. */
  ghost predicate RemovalDone(ops: Store, workers: map<WorkerKey, Worker>, i: InstanceID, o: OperationID) {
    (i, o) in workers && workers[(i, o)] == Closing(Succeeded) && HasOp(ops, i, o, Remove, InProgress)
  }

  ghost predicate PresenceOK(ops: Store, instances: map<InstanceID, Instance>, workers: map<WorkerKey, Worker>) {
    forall i {:trigger Provisioned(ops, i)} | Provisioned(ops, i) && i !in instances ::
      exists o :: RemovalDone(ops, workers, i, o)
  }

  predicate Twin(r: Instance, ns: Namespace, svc: ServiceID) {
    r.namespace == ns && r.serviceID == svc
  }

  /** A provisionOnlyOnce service has at most one record per namespace. */
  ghost predicate OnceOK(instances: map<InstanceID, Instance>, once: set<ServiceID>) {
    forall i, j | i in instances && j in instances && i != j && instances[i].serviceID in once ::
      !Twin(instances[j], instances[i].namespace, instances[i].serviceID)
  }

  ghost predicate NoTwin(instances: map<InstanceID, Instance>, once: set<ServiceID>, ns: Namespace, svc: ServiceID) {
    svc in once ==> forall i | i in instances :: !Twin(instances[i], ns, svc)
  }

  /** The Create a provision request has inserted and not yet handed to a worker. */
  ghost predicate OwnedByRequest(s: State, req: ProvisionRequest, o: OperationID) {
    && HasOp(s.ops, req.instanceID, o, Create, InProgress)
    && s.ops[req.instanceID][o].parameters == req.parameters
    && (req.instanceID, o) !in s.workers
  }

  ghost predicate RequestOK(s: State) {
    match s.prov
    case PListInstances(req, ns, addon) =>
      addon.id == req.serviceID && (addon.provisionOnlyOnce <==> addon.id in s.once)
    case PInsert(req, ns, addon) => NoTwin(s.instances, s.once, ns, req.serviceID)
    case PFindPlan(req, ns, addon, o) =>
      OwnedByRequest(s, req, o) && NoTwin(s.instances, s.once, ns, req.serviceID)
    case PUpsert(req, o, r) =>
      OwnedByRequest(s, req, o) && NoTwin(s.instances, s.once, r.namespace, r.serviceID) &&
      r.id == req.instanceID && r.parameters == req.parameters && NamedFor(r)
    case _ => true
  }

  ghost predicate Inv(s: State) {
    && KeysOK(s.ops)
    && OneActive(s.ops)
    && RecordsOK(s.instances)
    && WorkersOK(s.ops, s.instances, s.workers)
    && PresenceOK(s.ops, s.instances, s.workers)
    && OnceOK(s.instances, s.once)
    && RequestOK(s)
  }

  lemma InitialInv(s: State)
    requires Initial(s)
    ensures Inv(s)
  {
  }

  // ----- what the two writes to the operation store do -----

  /** A successful insert adds one operation in progress to an instance that had none. */
  lemma InsertEffect(ops: Store, io: Operation, now: int)
    ensures InsertOp(ops, io, now).0.Err? ==> InsertOp(ops, io, now).1 == ops
    ensures InsertOp(ops, io, now).0.Ok? ==>
              var ops' := InsertOp(ops, io, now).1;
              && io.instanceID != "" && io.operationID != ""
              && !Has(ops, io.instanceID, io.operationID)
              && (forall o :: !Active(ops, io.instanceID, o))
              && Has(ops', io.instanceID, io.operationID)
              && ops'[io.instanceID][io.operationID] == io.(createdAt := now)
              && Extends(ops, ops', io.instanceID, io.operationID)
  {
    var r := InsertOp(ops, io, now);
    var i := io.instanceID;
    if r.0.Ok? && i in ops {
      assert forall o :: Has(ops, i, o) ==> o in ops[i];
    }
  }

  /** `ops'` has the operations of `ops`, unchanged, and possibly a different one at `(i, o)`. */
  ghost predicate Extends(ops: Store, ops': Store, i: InstanceID, o: OperationID) {
    && (forall j, q {:trigger Has(ops', j, q)} | Has(ops', j, q) && (j, q) != (i, o) ::
          Has(ops, j, q) && ops'[j][q] == ops[j][q])
    && (forall j, q {:trigger Has(ops, j, q)} | Has(ops, j, q) && (j, q) != (i, o) ::
          Has(ops', j, q) && ops'[j][q] == ops[j][q])
  }

  lemma UpdateEffect(ops: Store, i: InstanceID, o: OperationID, state: OperationState, desc: Option<string>)
    requires KeysOK(ops) && Has(ops, i, o)
    ensures var ops' := UpdateOp(ops, i, o, state, desc).1;
            && Has(ops', i, o)
            && ops'[i][o] == ops[i][o].(state := state, description := desc)
            && Extends(ops, ops', i, o)
  {
  }

  // ----- preservation -----

  lemma InsertKeepsStores(s: State, io: Operation, now: int)
    requires Inv(s)
    requires io.state == InProgress && io.kind != Undefined
    requires InsertOp(s.ops, io, now).0.Ok?
    ensures var ops' := InsertOp(s.ops, io, now).1;
            && KeysOK(ops')
            && OneActive(ops')
            && WorkersOK(ops', s.instances, s.workers)
            && (io.instanceID, io.operationID) !in s.workers
            && PresenceOK(ops', s.instances, s.workers)
  {
    hide NamedFor;
    InsertEffect(s.ops, io, now);
    var i, o := io.instanceID, io.operationID;
    var ops' := InsertOp(s.ops, io, now).1;
    assert (i, o) !in s.workers by {
      assert (i, o) in s.workers ==> WorkerOK(s.ops, s.instances, (i, o), s.workers[(i, o)]);
    }
    InsertKeepsActive(s.ops, ops', i, o);
    InsertKeepsWorkers(s.ops, ops', s.instances, s.workers, i, o);
    InsertKeepsPresence(s.ops, ops', s.instances, s.workers, i, o);
    hide InsertOp, Inv, WorkersOK, PresenceOK, OneActive;
  }

  lemma InsertKeepsActive(ops: Store, ops': Store, i: InstanceID, o: OperationID)
    requires OneActive(ops) && Extends(ops, ops', i, o) && forall q :: !Active(ops, i, q)
    ensures OneActive(ops')
  {
    forall j, a, b | Active(ops', j, a) && Active(ops', j, b)
      ensures a == b
    {
      assert (j, a) == (i, o) || Active(ops, j, a);
      assert (j, b) == (i, o) || Active(ops, j, b);
    }
  }

  lemma InsertKeepsWorkers(
    ops: Store, ops': Store, instances: map<InstanceID, Instance>, workers: map<WorkerKey, Worker>,
    i: InstanceID, o: OperationID)
    requires WorkersOK(ops, instances, workers) && Extends(ops, ops', i, o) && !Has(ops, i, o)
    ensures WorkersOK(ops', instances, workers)
  {
    forall key | key in workers
      ensures WorkerOK(ops', instances, key, workers[key])
    {
      assert WorkerOK(ops, instances, key, workers[key]);
      assert Has(ops, key.0, key.1);
    }
  }

  lemma InsertKeepsPresence(
    ops: Store, ops': Store, instances: map<InstanceID, Instance>, workers: map<WorkerKey, Worker>,
    i: InstanceID, o: OperationID)
    requires PresenceOK(ops, instances, workers) && Extends(ops, ops', i, o) && !Has(ops, i, o) && Active(ops', i, o)
    ensures PresenceOK(ops', instances, workers)
  {
    forall j | Provisioned(ops', j) && j !in instances
      ensures exists q :: RemovalDone(ops', workers, j, q)
    {
      SameQueries(ops, ops', i, o, j);
      var q :| RemovalDone(ops, workers, j, q);
      assert Has(ops, j, q);
      assert RemovalDone(ops', workers, j, q);
    }
  }

  /** An operation that is new and in progress changes no query about finished operations. */
  lemma SameQueries(ops: Store, ops': Store, i: InstanceID, o: OperationID, j: InstanceID)
    requires Extends(ops, ops', i, o) && !Has(ops, i, o) && Active(ops', i, o)
    ensures forall kind, state | state != InProgress ::
              SomeOpIs(ops', j, kind, state) <==> SomeOpIs(ops, j, kind, state)
    ensures Provisioned(ops', j) <==> Provisioned(ops, j)
  {
    forall kind, state | state != InProgress
      ensures SomeOpIs(ops', j, kind, state) <==> SomeOpIs(ops, j, kind, state)
    {
      if q :| HasOp(ops', j, q, kind, state) {
        assert HasOp(ops, j, q, kind, state);
      }
      if q :| HasOp(ops, j, q, kind, state) {
        assert HasOp(ops', j, q, kind, state);
      }
    }
  }

  lemma ProvisionInsertKeeps(s: State, newID: Option<OperationID>, now: int)
    requires Inv(s) && StepProvisionInsert(s, newID, now).Some?
    ensures Inv(StepProvisionInsert(s, newID, now).value)
  {
    hide NamedFor;
    if newID.Some? {
      var req := s.prov.req;
      var io := NewOperation(req.instanceID, newID.value, Create, req.parameters);
      InsertEffect(s.ops, io, now);
      if InsertOp(s.ops, io, now).0.Ok? {
        InsertKeepsStores(s, io, now);
        hide InsertOp;
      }
    }
  }

  lemma DeprovisionInsertKeeps(s: State, now: int)
    requires Inv(s) && StepDeprovisionInsert(s, now).Some?
    ensures Inv(StepDeprovisionInsert(s, now).value)
  {
    hide NamedFor;
    var i, o := s.deprov.i, s.deprov.op;
    var io := NewOperation(i, o, Remove, RequestParameters(Some(map[])));
    InsertEffect(s.ops, io, now);
    if InsertOp(s.ops, io, now).0.Ok? {
      InsertKeepsStores(s, io, now);
      StartingRemovalKeeps(s, InsertOp(s.ops, io, now).1, i, o);
    }
  }

  lemma StartingRemovalKeeps(s: State, ops': Store, i: InstanceID, o: OperationID)
    requires Inv(s) && Extends(s.ops, ops', i, o) && !Has(s.ops, i, o) && HasOp(ops', i, o, Remove, InProgress)
    requires KeysOK(ops') && OneActive(ops')
    requires WorkersOK(ops', s.instances, s.workers) && PresenceOK(ops', s.instances, s.workers)
    requires (i, o) !in s.workers
    ensures Inv(ReplyDeprovision(s.(ops := ops', workers := s.workers[(i, o) := Deleting]), Accepted(o)))
  {
    hide NamedFor;
    var workers' := s.workers[(i, o) := Deleting];
    AddingWorkerKeepsPresence(ops', s.instances, s.workers, (i, o), Deleting);
    AddingWorkerKeepsWorkers(ops', s.instances, s.workers, (i, o), Deleting);
    var s' := ReplyDeprovision(s.(ops := ops', workers := workers'), Accepted(o));
    RequestSurvivesInsert(s, s', i, o);
    hide KeysOK, OneActive, RecordsOK, PresenceOK, OnceOK, WorkersOK, RequestOK;
  }

  lemma RequestSurvivesInsert(s: State, s': State, i: InstanceID, o: OperationID)
    requires RequestOK(s) && !Has(s.ops, i, o) && Extends(s.ops, s'.ops, i, o)
    requires s'.workers.Keys == s.workers.Keys + {(i, o)}
    requires s'.prov == s.prov && s'.instances == s.instances && s'.once == s.once
    ensures RequestOK(s')
  {
    hide NoTwin, NamedFor;
    if s.prov.PFindPlan? || s.prov.PUpsert? {
      var req, c := s.prov.req, s.prov.op;
      assert Has(s.ops, req.instanceID, c);
      assert Has(s'.ops, req.instanceID, c);
      assert (req.instanceID, c) != (i, o);
      assert (req.instanceID, c) !in s'.workers.Keys;
      assert OwnedByRequest(s', req, c);
    }
  }

  lemma AddingWorkerKeepsWorkers(
    ops: Store, instances: map<InstanceID, Instance>, workers: map<WorkerKey, Worker>, key: WorkerKey, w: Worker)
    requires WorkersOK(ops, instances, workers) && WorkerOK(ops, instances, key, w)
    ensures WorkersOK(ops, instances, workers[key := w])
  {
  }

  lemma AddingWorkerKeepsPresence(
    ops: Store, instances: map<InstanceID, Instance>, workers: map<WorkerKey, Worker>, key: WorkerKey, w: Worker)
    requires PresenceOK(ops, instances, workers)
    requires key in workers ==> workers[key] != Closing(Succeeded)
    ensures PresenceOK(ops, instances, workers[key := w])
  {
    var workers' := workers[key := w];
    forall j | Provisioned(ops, j) && j !in instances
      ensures exists q :: RemovalDone(ops, workers', j, q)
    {
      var q :| RemovalDone(ops, workers, j, q);
      assert RemovalDone(ops, workers', j, q);
    }
  }

  /** Moving one worker on, with the stores untouched. */
  lemma MovingWorkerKeeps(s: State, key: WorkerKey, w: Worker)
    requires Inv(s) && key in s.workers && s.workers[key] != Closing(Succeeded)
    requires WorkerOK(s.ops, s.instances, key, w)
    ensures Inv(s.(workers := s.workers[key := w]))
  {
    hide NamedFor;
    AddingWorkerKeepsPresence(s.ops, s.instances, s.workers, key, w);
  }

  /** Two workers of the same instance are the same worker. */
  lemma OneWorkerPerInstance(s: State, a: WorkerKey, b: WorkerKey)
    requires OneActive(s.ops) && WorkersOK(s.ops, s.instances, s.workers)
    requires a in s.workers && b in s.workers && a.0 == b.0
    ensures a == b
  {
    assert WorkerOK(s.ops, s.instances, a, s.workers[a]);
    assert WorkerOK(s.ops, s.instances, b, s.workers[b]);
    assert Active(s.ops, a.0, a.1) && Active(s.ops, a.0, b.1);
  }

  /** While a request owns an instance's Create, that instance has no worker. */
  lemma NoWorkerBesideRequest(s: State, req: ProvisionRequest, o: OperationID, key: WorkerKey)
    requires OneActive(s.ops) && WorkersOK(s.ops, s.instances, s.workers)
    requires OwnedByRequest(s, req, o) && key in s.workers
    ensures key.0 != req.instanceID
  {
    assert WorkerOK(s.ops, s.instances, key, s.workers[key]);
    assert key.0 == req.instanceID ==> Active(s.ops, key.0, key.1) && Active(s.ops, key.0, o);
  }

  /** Changing the record of one instance concerns only that instance's worker. */
  lemma RecordChangeKeepsWorkers(
    s: State, instances': map<InstanceID, Instance>, workers': map<WorkerKey, Worker>, key: WorkerKey)
    requires WorkersOK(s.ops, s.instances, s.workers)
    requires forall k | k in s.workers && k.0 == key.0 :: k == key
    requires forall j | j != key.0 ::
               (j in instances' <==> j in s.instances) && (j in s.instances ==> instances'[j] == s.instances[j])
    requires key in workers' && WorkerOK(s.ops, instances', key, workers'[key])
    requires workers' == s.workers[key := workers'[key]]
    ensures WorkersOK(s.ops, instances', workers')
  {
    forall k | k in workers' && k != key
      ensures WorkerOK(s.ops, instances', k, workers'[k])
    {
      assert WorkerOK(s.ops, s.instances, k, s.workers[k]);
      assert k.0 != key.0;
    }
  }

  lemma ProvisionUpsertKeeps(s: State)
    requires Inv(s) && StepProvisionUpsert(s).Some?
    ensures Inv(StepProvisionUpsert(s).value)
  {
    hide NamedFor;
    var s' := StepProvisionUpsert(s).value;
    var req, o, r := s.prov.req, s.prov.op, s.prov.record;
    forall k | k in s.workers ensures k.0 != req.instanceID {
      NoWorkerBesideRequest(s, req, o, k);
    }
    RecordChangeKeepsWorkers(s, s'.instances, s'.workers, (req.instanceID, o));
    AddingWorkerKeepsPresence(s.ops, s.instances, s.workers, (req.instanceID, o), Installing(r));
    hide WorkersOK, WorkerOK, OneActive, KeysOK;
  }

  lemma WorkerRecordKeeps(s: State, key: WorkerKey)
    requires Inv(s) && StepWorkerRecord(s, key).Some?
    ensures Inv(StepWorkerRecord(s, key).value)
  {
    hide NamedFor;
    var s' := StepWorkerRecord(s, key).value;
    var r := s.workers[key].record;
    assert WorkerOK(s.ops, s.instances, key, s.workers[key]);
    forall k | k in s.workers && k.0 == key.0 ensures k == key {
      OneWorkerPerInstance(s, k, key);
    }
    RecordChangeKeepsWorkers(s, s'.instances, s'.workers, key);
    AddingWorkerKeepsPresence(s.ops, s.instances, s.workers, key, Closing(Succeeded));
    SameName(s.instances[key.0], r);
    assert s'.instances.Keys == s.instances.Keys;
    assert forall j | j in s.instances :: SameRecord(s.instances[j], s'.instances[j]);
    hide WorkersOK, WorkerOK, OneActive, KeysOK;
  }

  lemma SameName(a: Instance, b: Instance)
    requires SameRecord(a, b)
    ensures NamedFor(a) <==> NamedFor(b)
  {
    assert a.id == b.id && a.releaseName == b.releaseName;
    hide CreateReleaseName;
  }

  lemma WorkerRemoveRecordKeeps(s: State, key: WorkerKey)
    requires Inv(s) && StepWorkerRemoveRecord(s, key).Some?
    ensures Inv(StepWorkerRemoveRecord(s, key).value)
  {
    hide NamedFor;
    var s' := StepWorkerRemoveRecord(s, key).value;
    assert WorkerOK(s.ops, s.instances, key, s.workers[key]);
    forall k | k in s.workers && k.0 == key.0 ensures k == key {
      OneWorkerPerInstance(s, k, key);
    }
    RecordChangeKeepsWorkers(s, s'.instances, s'.workers, key);
    hide WorkersOK, OneActive, KeysOK;
    forall j | Provisioned(s'.ops, j) && j !in s'.instances
      ensures exists q :: RemovalDone(s'.ops, s'.workers, j, q)
    {
      if j == key.0 {
        assert RemovalDone(s'.ops, s'.workers, key.0, key.1);
      } else {
        var q :| RemovalDone(s.ops, s.workers, j, q);
        assert RemovalDone(s'.ops, s'.workers, j, q);
      }
    }
  }

  lemma WorkerCloseKeeps(s: State, key: WorkerKey, description: string)
    requires Inv(s) && StepWorkerClose(s, key, description).Some?
    ensures Inv(StepWorkerClose(s, key, description).value)
  {
    hide NamedFor;
    var s' := StepWorkerClose(s, key, description).value;
    assert WorkerOK(s.ops, s.instances, key, s.workers[key]);
    UpdateEffect(s.ops, key.0, key.1, s.workers[key].outcome, Some(description));
    ClosingKeepsOthers(s.ops, s'.ops, s.instances, s.workers, key);
    ClosingKeepsPresence(s, key, s'.ops);
    ClosingKeepsRequest(s, s', key);
    hide UpdateOp, WorkersOK, PresenceOK, OnceOK, RequestOK, WorkerOK;
  }

  /** Finishing one operation leaves the other workers' facts alone. */
  lemma ClosingKeepsOthers(
    ops: Store, ops': Store, instances: map<InstanceID, Instance>, workers: map<WorkerKey, Worker>, key: WorkerKey)
    requires OneActive(ops) && WorkersOK(ops, instances, workers) && Active(ops, key.0, key.1)
    requires Extends(ops, ops', key.0, key.1) && !Active(ops', key.0, key.1)
    ensures OneActive(ops') && WorkersOK(ops', instances, workers - {key})
  {
    forall j, a, b | Active(ops', j, a) && Active(ops', j, b)
      ensures a == b
    {
      assert Active(ops, j, a) && Active(ops, j, b);
    }
    forall k | k in workers - {key}
      ensures WorkerOK(ops', instances, k, workers[k])
    {
      assert WorkerOK(ops, instances, k, workers[k]);
      assert Has(ops, k.0, k.1);
    }
  }

  lemma ClosingKeepsRequest(s: State, s': State, key: WorkerKey)
    requires RequestOK(s) && key in s.workers && Extends(s.ops, s'.ops, key.0, key.1)
    requires s'.prov == s.prov && s'.instances == s.instances && s'.once == s.once && s'.workers == s.workers - {key}
    ensures RequestOK(s')
  {
    hide NoTwin, NamedFor;
    if s.prov.PFindPlan? || s.prov.PUpsert? {
      assert Has(s.ops, s.prov.req.instanceID, s.prov.op);
      assert (s.prov.req.instanceID, s.prov.op) != key;
    }
  }

  lemma ClosingKeepsPresence(s: State, key: WorkerKey, ops': Store)
    requires Inv(s) && key in s.workers && s.workers[key].Closing?
    requires Has(s.ops, key.0, key.1) && Has(ops', key.0, key.1) && Extends(s.ops, ops', key.0, key.1)
    requires ops'[key.0][key.1].kind == s.ops[key.0][key.1].kind
    requires ops'[key.0][key.1].state == s.workers[key].outcome
    ensures PresenceOK(ops', s.instances, s.workers - {key})
  {
    hide NamedFor;
    assert WorkerOK(s.ops, s.instances, key, s.workers[key]);
    forall j | Provisioned(ops', j) && j !in s.instances
      ensures exists q :: RemovalDone(ops', s.workers - {key}, j, q)
    {
      ClosingKeepsPresenceOf(s, key, ops', j);
    }
  }

  lemma ClosingKeepsPresenceOf(s: State, key: WorkerKey, ops': Store, j: InstanceID)
    requires PresenceOK(s.ops, s.instances, s.workers) && key in s.workers && s.workers[key].Closing?
    requires WorkerOK(s.ops, s.instances, key, s.workers[key])
    requires Has(ops', key.0, key.1) && Extends(s.ops, ops', key.0, key.1)
    requires ops'[key.0][key.1].kind == s.ops[key.0][key.1].kind
    requires ops'[key.0][key.1].state == s.workers[key].outcome
    requires Provisioned(ops', j) && j !in s.instances
    ensures exists q :: RemovalDone(ops', s.workers - {key}, j, q)
  {
    var workers' := s.workers - {key};
    var c :| HasOp(ops', j, c, Create, Succeeded);
    assert HasOp(s.ops, j, c, Create, Succeeded);
    if q :| HasOp(s.ops, j, q, Remove, Succeeded) {
      assert HasOp(ops', j, q, Remove, Succeeded);
    }
    assert Provisioned(s.ops, j);
    var q :| RemovalDone(s.ops, s.workers, j, q);
    assert (j, q) == key ==> HasOp(ops', j, q, Remove, Succeeded);
    assert RemovalDone(ops', workers', j, q);
  }

  lemma ProvisionQuietKeeps(s: State, a: Action, s': State)
    requires Inv(s) && Step(s, a) == Some(s')
    requires a.ProvisionBegin? || a.ProvisionReadOps? || a.ProvisionScan? || a.ProvisionScanEnd? ||
             a.ProvisionCompare? || a.ProvisionGetAddon? || a.ProvisionListInstances? || a.ProvisionFindPlan?
    ensures Inv(s')
  {
    hide KeysOK, OneActive, RecordsOK, WorkersOK, PresenceOK, OnceOK, NamedFor, CreateReleaseName;
    if a.ProvisionFindPlan? && s'.prov.PUpsert? {
      assert NamedFor(s'.prov.record) by {
        FreshRecordIsNamed(s);
      }
    }
  }

  lemma FreshRecordIsNamed(s: State)
    requires StepProvisionFindPlan(s).Some? && StepProvisionFindPlan(s).value.prov.PUpsert?
    ensures NamedFor(StepProvisionFindPlan(s).value.prov.record)
  {
  }

  lemma DeprovisionQuietKeeps(s: State, a: Action, s': State)
    requires Inv(s) && Step(s, a) == Some(s')
    requires a.DeprovisionBegin? || a.DeprovisionReadOps? || a.DeprovisionScan? || a.DeprovisionScanEnd? ||
             a.DeprovisionGetInstance?
    ensures Inv(s')
  {
    hide KeysOK, OneActive, RecordsOK, WorkersOK, PresenceOK, OnceOK, NoTwin, NamedFor;
  }

  /** One worker moves on, to a point it may be at. */
  lemma WorkerMoves(s: State, a: Action, s': State)
    requires Step(s, a) == Some(s') && (a.WorkerInstall? || a.WorkerDelete? || a.WorkerRemoveBindData?)
    ensures a.key in s.workers && a.key in s'.workers && s.workers[a.key] != Closing(Succeeded)
    ensures s' == s.(workers := s.workers[a.key := s'.workers[a.key]])
    ensures WorkerOK(s.ops, s.instances, a.key, s.workers[a.key]) ==>
              WorkerOK(s.ops, s.instances, a.key, s'.workers[a.key])
  {
  }

  lemma WorkerQuietKeeps(s: State, a: Action, s': State)
    requires Inv(s) && Step(s, a) == Some(s')
    requires a.WorkerInstall? || a.WorkerDelete? || a.WorkerRemoveBindData?
    ensures Inv(s')
  {
    WorkerMoves(s, a, s');
    hide Step;
    assert WorkerOK(s.ops, s.instances, a.key, s.workers[a.key]);
    hide Inv, WorkerOK;
    MovingWorkerKeeps(s, a.key, s'.workers[a.key]);
  }

  /** Every step, by whichever service or worker, keeps the invariant. */
  lemma StepKeeps(s: State, a: Action, s': State)
    requires Inv(s) && Step(s, a) == Some(s')
    ensures Inv(s')
  {
    hide NamedFor;
    match a
    case ProvisionInsert(newID, now) => ProvisionInsertKeeps(s, newID, now);
    case ProvisionUpsert => ProvisionUpsertKeeps(s);
    case DeprovisionInsert(now) => DeprovisionInsertKeeps(s, now);
    case WorkerRecord(key) => WorkerRecordKeeps(s, key);
    case WorkerRemoveRecord(key) => WorkerRemoveRecordKeeps(s, key);
    case WorkerClose(key, description) => WorkerCloseKeeps(s, key, description);
    case WorkerInstall(_, _) => WorkerQuietKeeps(s, a, s');
    case WorkerDelete(_, _) => WorkerQuietKeeps(s, a, s');
    case WorkerRemoveBindData(_, _) => WorkerQuietKeeps(s, a, s');
    case DeprovisionBegin(_) => DeprovisionQuietKeeps(s, a, s');
    case DeprovisionReadOps => DeprovisionQuietKeeps(s, a, s');
    case DeprovisionScan(_) => DeprovisionQuietKeeps(s, a, s');
    case DeprovisionScanEnd => DeprovisionQuietKeeps(s, a, s');
    case DeprovisionGetInstance(_) => DeprovisionQuietKeeps(s, a, s');
    case _ => ProvisionQuietKeeps(s, a, s');
  }

  lemma {:induction false} RunKeeps(states: seq<State>, actions: seq<Action>, n: nat)
    requires IsRun(states, actions) && n < |states|
    ensures Inv(states[n])
  {
    if n == 0 {
      InitialInv(states[0]);
    } else {
      RunKeeps(states, actions, n - 1);
      assert Step(states[n - 1], actions[n - 1]) == Some(states[n]);
      StepKeeps(states[n - 1], actions[n - 1], states[n]);
    }
  }
}
