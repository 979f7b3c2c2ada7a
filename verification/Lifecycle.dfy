/**
 The instance lifecycle protocol: the provision and the deprovision service, each behind its own
 mutex, and the asynchronous workers they leave behind, as one interleaved step system.

 Every storage call is one step. `GetAll` on the operation store hands out pointers, so the scan
 that follows reads each operation in a step of its own and may see states that never coexisted.
 Helm, the chart store, the bind-data store, the ID provider and the clock are choices carried
 by the actions.
 */
module Lifecycle {
  import opened Values
  import opened Operations
  import opened ReleaseNames

  type Namespace = string
  type ServiceID = string
  type PlanID = string

  datatype Instance = Instance(
    id: InstanceID,
    serviceID: ServiceID,
    planID: PlanID,
    releaseName: string,
    namespace: Namespace,
    revision: Option<int>,
    parameters: RequestParameters)

  /** The part of an addon that provisioning reads; `plans` maps plan IDs to plan names. */
  datatype Addon = Addon(id: ServiceID, name: string, provisionOnlyOnce: bool, plans: map<PlanID, string>)

  datatype ProvisionRequest = ProvisionRequest(
    instanceID: InstanceID,
    serviceID: ServiceID,
    planID: PlanID,
    acceptsIncomplete: bool,
    namespace: Option<Namespace>,
    parameters: RequestParameters)

  datatype DeprovisionRequest = DeprovisionRequest(instanceID: InstanceID, acceptsIncomplete: bool)

  datatype Reply =
    | NoReply
    | AlreadyDone
    | Accepted(operationID: OperationID)
    | BadRequest
    | Conflict
    | Gone
    | InternalError

  /** How far the request holding the provision mutex has come. */
  datatype ProvisionPhase =
    | PIdle
    | PCheckProvisioned(req: ProvisionRequest)
    | PScanProvisioned(req: ProvisionRequest, todo: set<OperationID>, result: bool)
    | PCompare(req: ProvisionRequest)
    | PCheckInProgress(req: ProvisionRequest)
    | PScanInProgress(req: ProvisionRequest, todo: set<OperationID>)
    | PGetAddon(req: ProvisionRequest)
    | PListInstances(req: ProvisionRequest, ns: Namespace, addon: Addon)
    | PInsert(req: ProvisionRequest, ns: Namespace, addon: Addon)
    | PFindPlan(req: ProvisionRequest, ns: Namespace, addon: Addon, op: OperationID)
    | PUpsert(req: ProvisionRequest, op: OperationID, record: Instance)

  /** How far the request holding the deprovision mutex has come. */
  datatype DeprovisionPhase =
    | DIdle
    | DCheckDeprovisioned(i: InstanceID)
    | DScanDeprovisioned(i: InstanceID, todo: set<OperationID>)
    | DCheckInProgress(i: InstanceID)
    | DScanInProgress(i: InstanceID, todo: set<OperationID>)
    | DGetInstance(i: InstanceID)
    | DInsert(i: InstanceID, op: OperationID)

  /** How far an asynchronous worker has come; `Closing` is about to write the final state. */
  datatype Worker =
    | Installing(record: Instance)
    | Recording(record: Instance)
    | Deleting
    | RemovingBindData
    | RemovingRecord
    | Closing(outcome: OperationState)

  type WorkerKey = (InstanceID, OperationID)

  /** `once` is the set of services flagged provisionOnlyOnce; no step changes it. */
  datatype State = State(
    ops: Store,
    instances: map<InstanceID, Instance>,
    workers: map<WorkerKey, Worker>,
    prov: ProvisionPhase,
    deprov: DeprovisionPhase,
    provReply: Reply,
    deprovReply: Reply,
    once: set<ServiceID>)

  datatype Action =
    | ProvisionBegin(preq: ProvisionRequest)
    | ProvisionReadOps
    | ProvisionScan(seen: OperationID)
    | ProvisionScanEnd
    | ProvisionCompare
    | ProvisionGetAddon(found: Option<Addon>)
    | ProvisionListInstances
    | ProvisionInsert(newID: Option<OperationID>, now: int)
    | ProvisionFindPlan
    | ProvisionUpsert
    | DeprovisionBegin(dreq: DeprovisionRequest)
    | DeprovisionReadOps
    | DeprovisionScan(seen: OperationID)
    | DeprovisionScanEnd
    | DeprovisionGetInstance(newID: Option<OperationID>)
    | DeprovisionInsert(now: int)
    | WorkerInstall(key: WorkerKey, release: Option<int>)
    | WorkerRecord(key: WorkerKey)
    | WorkerDelete(key: WorkerKey, ok: bool)
    | WorkerRemoveBindData(key: WorkerKey, ok: bool)
    | WorkerRemoveRecord(key: WorkerKey)
    | WorkerClose(key: WorkerKey, description: string)

  ghost predicate Initial(s: State) {
    s.ops == map[] && s.instances == map[] && s.workers == map[] && s.prov == PIdle && s.deprov == DIdle
  }

  /** The request holding the mutex answers and releases it. */
  function ReplyProvision(s: State, r: Reply): State {
    s.(prov := PIdle, provReply := r)
  }

  function ReplyDeprovision(s: State, r: Reply): State {
    s.(deprov := DIdle, deprovReply := r)
  }

  /** Nothing but the provision request in flight and its reply differ. */
  predicate OnlyProvisionMoves(s: State, s': State) {
    s' == s.(prov := s'.prov, provReply := s'.provReply)
  }

  predicate OnlyDeprovisionMoves(s: State, s': State) {
    s' == s.(deprov := s'.deprov, deprovReply := s'.deprovReply)
  }

  // ----- provision service -----

  function StepProvisionBegin(s: State, req: ProvisionRequest): (r: Option<State>)
    ensures r.Some? ==> OnlyProvisionMoves(s, r.value)
  {
    if !req.acceptsIncomplete then Some(s.(provReply := BadRequest))
    else if s.prov.PIdle? then Some(s.(prov := PCheckProvisioned(req)))
    else None
  }

  /** The two calls of `GetAll`: both find either nothing or the current set of operations. */
  function StepProvisionReadOps(s: State): (r: Option<State>)
    ensures r.Some? ==> OnlyProvisionMoves(s, r.value)
  {
    match s.prov
    case PCheckProvisioned(req) =>
      (match GetAllOps(s.ops, req.instanceID)
       case Err(_) => Some(s.(prov := PCheckInProgress(req)))
       case Ok(ops) => Some(s.(prov := PScanProvisioned(req, ops.Keys, false))))
    case PCheckInProgress(req) =>
      (match GetAllOps(s.ops, req.instanceID)
       case Err(_) => Some(s.(prov := PGetAddon(req)))
       case Ok(ops) => Some(s.(prov := PScanInProgress(req, ops.Keys))))
    case _ => None
  }

  function StepProvisionScan(s: State, o: OperationID): (r: Option<State>)
    ensures r.Some? ==> OnlyProvisionMoves(s, r.value)
  {
    match s.prov
    case PScanProvisioned(req, todo, result) =>
      if o !in todo || !Has(s.ops, req.instanceID, o) then None
      else
        var op := s.ops[req.instanceID][o];
        if op.kind == Remove && op.state == Succeeded then Some(s.(prov := PCheckInProgress(req)))
        else
          var created := op.kind == Create && op.state == Succeeded;
          Some(s.(prov := PScanProvisioned(req, todo - {o}, result || created)))
    case PScanInProgress(req, todo) =>
      if o !in todo || !Has(s.ops, req.instanceID, o) then None
      else
        var op := s.ops[req.instanceID][o];
        if op.kind == Create && op.state == InProgress then Some(ReplyProvision(s, Accepted(o)))
        else Some(s.(prov := PScanInProgress(req, todo - {o})))
    case _ => None
  }

  function StepProvisionScanEnd(s: State): (r: Option<State>)
    ensures r.Some? ==> OnlyProvisionMoves(s, r.value)
  {
    match s.prov
    case PScanProvisioned(req, todo, result) =>
      if todo != {} then None
      else if result then Some(s.(prov := PCompare(req)))
      else Some(s.(prov := PCheckInProgress(req)))
    case PScanInProgress(req, todo) =>
      if todo != {} then None else Some(s.(prov := PGetAddon(req)))
    case _ => None
  }

  function StepProvisionCompare(s: State): (r: Option<State>)
    ensures r.Some? ==> OnlyProvisionMoves(s, r.value)
  {
    match s.prov
    case PCompare(req) =>
      if req.instanceID !in s.instances then Some(ReplyProvision(s, InternalError))
      else if s.instances[req.instanceID].parameters == req.parameters then Some(ReplyProvision(s, AlreadyDone))
      else Some(ReplyProvision(s, Conflict))
    case _ => None
  }

  function StepProvisionGetAddon(s: State, found: Option<Addon>): (r: Option<State>)
    ensures r.Some? ==> OnlyProvisionMoves(s, r.value)
  {
    match s.prov
    case PGetAddon(req) =>
      (match (req.namespace, found)
       case (None, _) => Some(ReplyProvision(s, BadRequest))
       case (Some(_), None) => Some(ReplyProvision(s, BadRequest))
       case (Some(ns), Some(addon)) =>
         if addon.id == req.serviceID && (addon.provisionOnlyOnce <==> addon.id in s.once)
         then Some(s.(prov := PListInstances(req, ns, addon)))
         else None)
    case _ => None
  }

  /** `Addon.IsProvisioningAllowed`. */
  predicate IsProvisioningAllowed(addon: Addon, ns: Namespace, instances: map<InstanceID, Instance>) {
    addon.provisionOnlyOnce ==>
      forall i | i in instances :: !(instances[i].namespace == ns && instances[i].serviceID == addon.id)
  }

  function StepProvisionListInstances(s: State): (r: Option<State>)
    ensures r.Some? ==> OnlyProvisionMoves(s, r.value)
  {
    match s.prov
    case PListInstances(req, ns, addon) =>
      if IsProvisioningAllowed(addon, ns, s.instances)
      then Some(s.(prov := PInsert(req, ns, addon)))
      else Some(ReplyProvision(s, BadRequest))
    case _ => None
  }

  function NewOperation(i: InstanceID, o: OperationID, kind: OperationType, parameters: RequestParameters): Operation {
    Operation(i, o, kind, InProgress, None, parameters, 0)
  }

  function StepProvisionInsert(s: State, newID: Option<OperationID>, now: int): (r: Option<State>)
    ensures r.Some? ==> OnlyProvisionMoves(s.(ops := r.value.ops), r.value)
  {
    match s.prov
    case PInsert(req, ns, addon) =>
      (match newID
       case None => Some(ReplyProvision(s, InternalError))
       case Some(o) =>
         var r := InsertOp(s.ops, NewOperation(req.instanceID, o, Create, req.parameters), now);
         if r.0.Ok? then Some(s.(ops := r.1, prov := PFindPlan(req, ns, addon, o)))
         else Some(ReplyProvision(s.(ops := r.1), BadRequest)))
    case _ => None
  }

  /** The operation is already inserted: a missing plan leaves it behind. */
  function StepProvisionFindPlan(s: State): (r: Option<State>)
    ensures r.Some? ==> OnlyProvisionMoves(s, r.value)
  {
    match s.prov
    case PFindPlan(req, ns, addon, o) =>
      if req.planID !in addon.plans then Some(ReplyProvision(s, BadRequest))
      else
        var name := CreateReleaseName(addon.name, addon.plans[req.planID], req.instanceID);
        var record := Instance(req.instanceID, req.serviceID, req.planID, name, ns, None, req.parameters);
        Some(s.(prov := PUpsert(req, o, record)))
    case _ => None
  }

  /** Writes the record, starts the worker and answers. */
  function StepProvisionUpsert(s: State): (r: Option<State>)
    ensures r.Some? ==> r.value.ops == s.ops && r.value.deprov == s.deprov && r.value.once == s.once
  {
    match s.prov
    case PUpsert(req, o, record) =>
      Some(ReplyProvision(
             s.(instances := s.instances[record.id := record],
                workers := s.workers[(req.instanceID, o) := Installing(record)]),
             Accepted(o)))
    case _ => None
  }

  // ----- deprovision service -----

  function StepDeprovisionBegin(s: State, req: DeprovisionRequest): (r: Option<State>)
    ensures r.Some? ==> OnlyDeprovisionMoves(s, r.value)
  {
    if !req.acceptsIncomplete then Some(s.(deprovReply := BadRequest))
    else if s.deprov.DIdle? then Some(s.(deprov := DCheckDeprovisioned(req.instanceID)))
    else None
  }

  function StepDeprovisionReadOps(s: State): (r: Option<State>)
    ensures r.Some? ==> OnlyDeprovisionMoves(s, r.value)
  {
    match s.deprov
    case DCheckDeprovisioned(i) =>
      (match GetAllOps(s.ops, i)
       case Err(_) => Some(ReplyDeprovision(s, Gone))
       case Ok(ops) => Some(s.(deprov := DScanDeprovisioned(i, ops.Keys))))
    case DCheckInProgress(i) =>
      (match GetAllOps(s.ops, i)
       case Err(_) => Some(s.(deprov := DGetInstance(i)))
       case Ok(ops) => Some(s.(deprov := DScanInProgress(i, ops.Keys))))
    case _ => None
  }

  function StepDeprovisionScan(s: State, o: OperationID): (r: Option<State>)
    ensures r.Some? ==> OnlyDeprovisionMoves(s, r.value)
  {
    match s.deprov
    case DScanDeprovisioned(i, todo) =>
      if o !in todo || !Has(s.ops, i, o) then None
      else if s.ops[i][o].kind == Remove && s.ops[i][o].state == Succeeded
      then Some(ReplyDeprovision(s, AlreadyDone))
      else Some(s.(deprov := DScanDeprovisioned(i, todo - {o})))
    case DScanInProgress(i, todo) =>
      if o !in todo || !Has(s.ops, i, o) then None
      else if s.ops[i][o].kind == Remove && s.ops[i][o].state == InProgress
      then Some(ReplyDeprovision(s, Accepted(o)))
      else Some(s.(deprov := DScanInProgress(i, todo - {o})))
    case _ => None
  }

  function StepDeprovisionScanEnd(s: State): (r: Option<State>)
    ensures r.Some? ==> OnlyDeprovisionMoves(s, r.value)
  {
    match s.deprov
    case DScanDeprovisioned(i, todo) => if todo != {} then None else Some(s.(deprov := DCheckInProgress(i)))
    case DScanInProgress(i, todo) => if todo != {} then None else Some(s.(deprov := DGetInstance(i)))
    case _ => None
  }

  function StepDeprovisionGetInstance(s: State, newID: Option<OperationID>): (r: Option<State>)
    ensures r.Some? ==> OnlyDeprovisionMoves(s, r.value)
  {
    match s.deprov
    case DGetInstance(i) =>
      if newID.None? then Some(ReplyDeprovision(s, InternalError))
      else if i !in s.instances then Some(ReplyDeprovision(s, Gone))
      else Some(s.(deprov := DInsert(i, newID.value)))
    case _ => None
  }

  /** Inserts the operation and, if the store took it, starts the worker and answers. */
  function StepDeprovisionInsert(s: State, now: int): (r: Option<State>)
    ensures r.Some? ==> OnlyDeprovisionMoves(s.(ops := r.value.ops, workers := r.value.workers), r.value)
  {
    match s.deprov
    case DInsert(i, o) =>
      var r := InsertOp(s.ops, NewOperation(i, o, Remove, RequestParameters(Some(map[]))), now);
      if r.0.Ok?
      then Some(ReplyDeprovision(s.(ops := r.1, workers := s.workers[(i, o) := Deleting]), Accepted(o)))
      else Some(ReplyDeprovision(s.(ops := r.1), InternalError))
    case _ => None
  }

  // ----- workers -----

  /** Chart lookup, values and Helm install: they fail together or yield a release revision. */
  function StepWorkerInstall(s: State, key: WorkerKey, release: Option<int>): (r: Option<State>)
    ensures r.Some? ==> r.value == s.(workers := r.value.workers) && r.value.workers.Keys == s.workers.Keys
  {
    if key in s.workers && s.workers[key].Installing? then
      var next := match release
        case None => Closing(Failed)
        case Some(revision) => Recording(s.workers[key].record.(revision := Some(revision)));
      Some(s.(workers := s.workers[key := next]))
    else None
  }

  function StepWorkerRecord(s: State, key: WorkerKey): (r: Option<State>)
    ensures r.Some? ==> r.value == s.(instances := r.value.instances, workers := r.value.workers)
    ensures r.Some? ==> r.value.workers.Keys == s.workers.Keys
  {
    if key in s.workers && s.workers[key].Recording? then
      var record := s.workers[key].record;
      Some(s.(instances := s.instances[record.id := record], workers := s.workers[key := Closing(Succeeded)]))
    else None
  }

  function StepWorkerDelete(s: State, key: WorkerKey, ok: bool): (r: Option<State>)
    ensures r.Some? ==> r.value == s.(workers := r.value.workers) && r.value.workers.Keys == s.workers.Keys
  {
    if key in s.workers && s.workers[key].Deleting? then
      Some(s.(workers := s.workers[key := if ok then RemovingBindData else Closing(Failed)]))
    else None
  }

  function StepWorkerRemoveBindData(s: State, key: WorkerKey, ok: bool): (r: Option<State>)
    ensures r.Some? ==> r.value == s.(workers := r.value.workers) && r.value.workers.Keys == s.workers.Keys
  {
    if key in s.workers && s.workers[key].RemovingBindData? then
      Some(s.(workers := s.workers[key := if ok then RemovingRecord else Closing(Failed)]))
    else None
  }

  function StepWorkerRemoveRecord(s: State, key: WorkerKey): (r: Option<State>)
    ensures r.Some? ==> r.value == s.(instances := r.value.instances, workers := r.value.workers)
    ensures r.Some? ==> r.value.workers.Keys == s.workers.Keys
  {
    if key in s.workers && s.workers[key].RemovingRecord? then
      Some(s.(instances := s.instances - {key.0}, workers := s.workers[key := Closing(Succeeded)]))
    else None
  }

  /** The last thing a worker does; an error of the store is only logged. */
  function StepWorkerClose(s: State, key: WorkerKey, description: string): (r: Option<State>)
    ensures r.Some? ==> r.value == s.(ops := r.value.ops, workers := s.workers - {key})
  {
    if key in s.workers && s.workers[key].Closing? then
      var r := UpdateOp(s.ops, key.0, key.1, s.workers[key].outcome, Some(description));
      Some(s.(ops := r.1, workers := s.workers - {key}))
    else None
  }

  // ----- the system -----

  predicate OfProvision(a: Action) {
    a.ProvisionBegin? || a.ProvisionReadOps? || a.ProvisionScan? || a.ProvisionScanEnd? || a.ProvisionCompare? ||
    a.ProvisionGetAddon? || a.ProvisionListInstances? || a.ProvisionInsert? || a.ProvisionFindPlan? ||
    a.ProvisionUpsert?
  }

  predicate OfDeprovision(a: Action) {
    a.DeprovisionBegin? || a.DeprovisionReadOps? || a.DeprovisionScan? || a.DeprovisionScanEnd? ||
    a.DeprovisionGetInstance? || a.DeprovisionInsert?
  }

  predicate OfWorker(a: Action) {
    !OfProvision(a) && !OfDeprovision(a)
  }

  function StepProvision(s: State, a: Action): Option<State> {
    match a
    case ProvisionBegin(req) => StepProvisionBegin(s, req)
    case ProvisionReadOps => StepProvisionReadOps(s)
    case ProvisionScan(o) => StepProvisionScan(s, o)
    case ProvisionScanEnd => StepProvisionScanEnd(s)
    case ProvisionCompare => StepProvisionCompare(s)
    case ProvisionGetAddon(found) => StepProvisionGetAddon(s, found)
    case ProvisionListInstances => StepProvisionListInstances(s)
    case ProvisionInsert(newID, now) => StepProvisionInsert(s, newID, now)
    case ProvisionFindPlan => StepProvisionFindPlan(s)
    case ProvisionUpsert => StepProvisionUpsert(s)
    case _ => None
  }

  function StepDeprovision(s: State, a: Action): Option<State> {
    match a
    case DeprovisionBegin(req) => StepDeprovisionBegin(s, req)
    case DeprovisionReadOps => StepDeprovisionReadOps(s)
    case DeprovisionScan(o) => StepDeprovisionScan(s, o)
    case DeprovisionScanEnd => StepDeprovisionScanEnd(s)
    case DeprovisionGetInstance(newID) => StepDeprovisionGetInstance(s, newID)
    case DeprovisionInsert(now) => StepDeprovisionInsert(s, now)
    case _ => None
  }

  function StepWorker(s: State, a: Action): Option<State> {
    match a
    case WorkerInstall(key, release) => StepWorkerInstall(s, key, release)
    case WorkerRecord(key) => StepWorkerRecord(s, key)
    case WorkerDelete(key, ok) => StepWorkerDelete(s, key, ok)
    case WorkerRemoveBindData(key, ok) => StepWorkerRemoveBindData(s, key, ok)
    case WorkerRemoveRecord(key) => StepWorkerRemoveRecord(s, key)
    case WorkerClose(key, description) => StepWorkerClose(s, key, description)
    case _ => None
  }

  /** The state after an action, or `None` when the action is not possible. */
  function Step(s: State, a: Action): Option<State> {
    if OfProvision(a) then StepProvision(s, a)
    else if OfDeprovision(a) then StepDeprovision(s, a)
    else StepWorker(s, a)
  }

  /** A finite run: an initial state and one possible action after another, interleaved freely. */
  ghost predicate IsRun(states: seq<State>, actions: seq<Action>) {
    && |states| == |actions| + 1
    && Initial(states[0])
    && forall n | 0 <= n < |actions| :: Step(states[n], actions[n]) == Some(states[n + 1])
  }

  /** No action comes between the steps of a request in flight. */
  predicate Serial(s: State, a: Action) {
    (!s.prov.PIdle? ==> OfProvision(a)) && (!s.deprov.DIdle? ==> OfDeprovision(a))
  }

  /** A run in which no request is interrupted. */
  ghost predicate IsSerialRun(states: seq<State>, actions: seq<Action>) {
    IsRun(states, actions) && forall n | 0 <= n < |actions| :: Serial(states[n], actions[n])
  }

  // ----- vocabulary -----

  predicate Active(ops: Store, i: InstanceID, o: OperationID) {
    Has(ops, i, o) && ops[i][o].state == InProgress
  }

  predicate HasOp(ops: Store, i: InstanceID, o: OperationID, kind: OperationType, state: OperationState) {
    Has(ops, i, o) && ops[i][o].kind == kind && ops[i][o].state == state
  }

  ghost predicate SomeOpIs(ops: Store, i: InstanceID, kind: OperationType, state: OperationState) {
    exists o :: HasOp(ops, i, o, kind, state)
  }

  /** What the state queries call provisioned: a Create succeeded and no Remove did. */
  ghost predicate Provisioned(ops: Store, i: InstanceID) {
    SomeOpIs(ops, i, Create, Succeeded) && !SomeOpIs(ops, i, Remove, Succeeded)
  }

  ghost predicate Deprovisioned(ops: Store, i: InstanceID) {
    SomeOpIs(ops, i, Remove, Succeeded)
  }
}
