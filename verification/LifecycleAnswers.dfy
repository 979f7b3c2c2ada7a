/**
 What requests are answered. A request that nobody interrupts does to the stores, and is answered, what the
 sections "Provisioning", "Deprovisioning" and "Blocking Operations" of the Open Service Broker API v2.14 read
 off the state it began in; the two outcomes below list every case. Under other interleavings each answer still
 tells the truth about the moment it was given.
 */
module LifecycleAnswers {
  import opened Values
  import opened Operations
  import opened ReleaseNames
  import opened Lifecycle
  import opened LifecycleInvariant
  import opened LifecycleRuns
  import opened LifecycleReach
  import opened LifecycleCrossing
  import opened LifecycleRace

  predicate SameStores(s: State, s': State) {
    s'.ops == s.ops && s'.instances == s.instances && s'.workers == s.workers
  }

  /** What the addon store and the ID provider come up with. */
  datatype Given = Given(found: Option<Addon>, newID: Option<OperationID>)

  predicate Comes(a: Action, given: Given) {
    && (a.ProvisionGetAddon? ==> a.found == given.found)
    && (a.ProvisionInsert? ==> a.newID == given.newID)
    && (a.DeprovisionGetInstance? ==> a.newID == given.newID)
  }

  // ----- Provision -----

  /** A Provision begun at `m` and answered at `n`, with no action by anyone else in between. */
  ghost predicate Uninterrupted(
    states: seq<State>, actions: seq<Action>, m: nat, n: nat, req: ProvisionRequest, given: Given)
  {
    && IsRun(states, actions) && m < n < |states|
    && states[m].prov.PIdle? && actions[m] == ProvisionBegin(req) && req.acceptsIncomplete
    && (forall k | m <= k < n :: OfProvision(actions[k]) && Comes(actions[k], given))
    && (forall k | m < k < n :: !states[k].prov.PIdle?)
    && states[n].prov.PIdle?
  }

  /** The request has put this Create into the store. */
  ghost predicate Inserted(ops: Store, ops': Store, req: ProvisionRequest, o: OperationID) {
    && !Has(ops, req.instanceID, o) && Extends(ops, ops', req.instanceID, o)
    && HasOp(ops', req.instanceID, o, Create, InProgress)
    && var op := ops'[req.instanceID][o];
       op == Operation(req.instanceID, o, Create, InProgress, None, req.parameters, op.createdAt)
  }

  /** The record of a new instance. */
  function NewRecord(req: ProvisionRequest, ns: Namespace, addon: Addon): Instance
    requires req.planID in addon.plans
  {
    Instance(
      id := req.instanceID, serviceID := req.serviceID, planID := req.planID,
      releaseName := CreateReleaseName(addon.name, addon.plans[req.planID], req.instanceID),
      namespace := ns, revision := None, parameters := req.parameters)
  }

  /** The namespace has a record of the service. */
  predicate Occupied(instances: map<InstanceID, Instance>, ns: Namespace, svc: ServiceID) {
    exists i | i in instances :: instances[i].namespace == ns && instances[i].serviceID == svc
  }

  /** The outcome of a Provision that nobody interrupts. */
  ghost predicate ProvisionOutcome(s0: State, s: State, req: ProvisionRequest, given: Given) {
    var i, reply := req.instanceID, s.provReply;
    if Provisioned(s0.ops, i) then
      && SameStores(s0, s)
      && reply == (if i !in s0.instances then InternalError
                   else if s0.instances[i].parameters == req.parameters then AlreadyDone else Conflict)
    else if SomeOpIs(s0.ops, i, Create, InProgress) then
      SameStores(s0, s) && reply.Accepted? && HasOp(s0.ops, i, reply.operationID, Create, InProgress)
    else if req.namespace.None? || given.found.None? then
      SameStores(s0, s) && reply == BadRequest
    else if given.found.value.provisionOnlyOnce
            && Occupied(s0.instances, req.namespace.value, given.found.value.id) then
      SameStores(s0, s) && reply == BadRequest
    else if given.newID.None? then
      SameStores(s0, s) && reply == InternalError
    else if i == "" || given.newID.value == "" || Has(s0.ops, i, given.newID.value)
            || SomeOpIs(s0.ops, i, Remove, InProgress) then
      SameStores(s0, s) && reply == BadRequest
    else
      var o, addon := given.newID.value, given.found.value;
      && Inserted(s0.ops, s.ops, req, o)
      && if req.planID !in addon.plans then
           reply == BadRequest && s.instances == s0.instances && s.workers == s0.workers
         else
           var record := NewRecord(req, req.namespace.value, addon);
           && reply == Accepted(o)
           && s.instances == s0.instances[i := record]
           && s.workers == s0.workers[(i, o) := Installing(record)]
  }

  /** What the scan has found out about the operations it has read. */
  ghost predicate ScanExact(ops: Store, i: InstanceID, todo: set<OperationID>, result: bool) {
    && (result <==> exists o :: HasOp(ops, i, o, Create, Succeeded) && o !in todo)
    && (forall o | HasOp(ops, i, o, Remove, Succeeded) :: o in todo)
  }

  lemma ScanBegins(ops: Store, i: InstanceID)
    requires i in ops
    ensures ScanExact(ops, i, ops[i].Keys, false)
  {
    assert forall o :: Has(ops, i, o) ==> o in ops[i].Keys;
  }

  lemma ScanReads(ops: Store, i: InstanceID, todo: set<OperationID>, result: bool, o: OperationID)
    requires ScanExact(ops, i, todo, result) && o in todo
    requires !HasOp(ops, i, o, Remove, Succeeded)
    ensures ScanExact(ops, i, todo - {o}, result || HasOp(ops, i, o, Create, Succeeded))
  {
    var todo' := todo - {o};
    if HasOp(ops, i, o, Create, Succeeded) {
      assert o !in todo';
    } else if result {
      var q :| HasOp(ops, i, q, Create, Succeeded) && q !in todo;
      assert q !in todo';
    }
  }

  lemma ScanEnds(ops: Store, i: InstanceID, result: bool)
    requires ScanExact(ops, i, {}, result)
    ensures result <==> Provisioned(ops, i)
  {
  }

  lemma NothingKnown(ops: Store, i: InstanceID)
    requires i !in ops
    ensures !Provisioned(ops, i) && Underway(ops, i, {})
  {
  }

  lemma AllRead(ops: Store, i: InstanceID)
    requires i in ops
    ensures Underway(ops, i, ops[i].Keys)
  {
  }

  lemma RemovedIsNotProvisioned(ops: Store, i: InstanceID, o: OperationID)
    requires HasOp(ops, i, o, Remove, Succeeded)
    ensures !Provisioned(ops, i)
  {
  }

  /** The request has come past both checks with this addon. */
  ghost predicate Cleared(s0: State, req: ProvisionRequest, given: Given, ns: Namespace, addon: Addon) {
    && !Provisioned(s0.ops, req.instanceID) && Underway(s0.ops, req.instanceID, {})
    && req.namespace == Some(ns) && given.found == Some(addon)
  }

  predicate Free(s0: State, ns: Namespace, addon: Addon) {
    !(addon.provisionOnlyOnce && Occupied(s0.instances, ns, addon.id))
  }

  /** How far an uninterrupted request has come, measured from the state `s0` it began in. */
  ghost predicate Progress(s0: State, s: State, req: ProvisionRequest, given: Given) {
    var i := req.instanceID;
    && !s.prov.PIdle? && s.prov.req == req && s.instances == s0.instances && s.workers == s0.workers
    && match s.prov
       case PCheckProvisioned(_) => s.ops == s0.ops
       case PScanProvisioned(_, todo, result) => s.ops == s0.ops && ScanExact(s0.ops, i, todo, result)
       case PCompare(_) => s.ops == s0.ops && Provisioned(s0.ops, i)
       case PCheckInProgress(_) => s.ops == s0.ops && !Provisioned(s0.ops, i)
       case PScanInProgress(_, todo) => s.ops == s0.ops && !Provisioned(s0.ops, i) && Underway(s0.ops, i, todo)
       case PGetAddon(_) => s.ops == s0.ops && !Provisioned(s0.ops, i) && Underway(s0.ops, i, {})
       case PListInstances(_, ns, addon) => s.ops == s0.ops && Cleared(s0, req, given, ns, addon)
       case PInsert(_, ns, addon) =>
         s.ops == s0.ops && Cleared(s0, req, given, ns, addon) && Free(s0, ns, addon)
       case PFindPlan(_, ns, addon, o) =>
         && Cleared(s0, req, given, ns, addon) && Free(s0, ns, addon)
         && given.newID == Some(o) && Takes(s0.ops, s.ops, req, o)
       case PUpsert(_, o, record) =>
         && given.found.Some? && req.namespace.Some? && req.planID in given.found.value.plans
         && Cleared(s0, req, given, req.namespace.value, given.found.value)
         && Free(s0, req.namespace.value, given.found.value)
         && record == NewRecord(req, req.namespace.value, given.found.value)
         && given.newID == Some(o) && Takes(s0.ops, s.ops, req, o)
  }

  /** The store has taken the Create: nothing stood in its way. */
  ghost predicate Takes(ops: Store, ops': Store, req: ProvisionRequest, o: OperationID) {
    && Inserted(ops, ops', req, o) && req.instanceID != "" && o != ""
    && !SomeOpIs(ops, req.instanceID, Remove, InProgress)
  }

  /** After one more step the request is further, or answered. */
  ghost predicate Continues(s0: State, s': State, req: ProvisionRequest, given: Given) {
    if s'.prov.PIdle? then ProvisionOutcome(s0, s', req, given) else Progress(s0, s', req, given)
  }

  lemma ReadsContinue(s0: State, s: State, a: Action, s': State, req: ProvisionRequest, given: Given)
    requires Progress(s0, s, req, given) && Step(s, a) == Some(s')
    requires a.ProvisionReadOps? || a.ProvisionScan? || a.ProvisionScanEnd?
    ensures Continues(s0, s', req, given)
  {
    hide ScanExact, Provisioned, StepDeprovision, StepWorker, Cleared, Free, Takes;
    var i := req.instanceID;
    match s.prov
    case PCheckProvisioned(_) =>
      if i in s.ops {
        ScanBegins(s.ops, i);
      } else {
        NothingKnown(s.ops, i);
      }
    case PScanProvisioned(_, todo, result) =>
      if a.ProvisionScanEnd? {
        ScanEnds(s.ops, i, result);
      } else if a.ProvisionScan? {
        if HasOp(s.ops, i, a.seen, Remove, Succeeded) {
          RemovedIsNotProvisioned(s.ops, i, a.seen);
        } else {
          ScanReads(s.ops, i, todo, result, a.seen);
        }
      }
    case PCheckInProgress(_) =>
      if i in s.ops {
        AllRead(s.ops, i);
      } else {
        NothingKnown(s.ops, i);
      }
    case PScanInProgress(_, _) =>
      assert a.ProvisionScan? ==>
          (HasOp(s.ops, i, a.seen, Create, InProgress) <==> s'.prov.PIdle?);
    case _ =>
  }

  lemma LooksContinue(s0: State, s: State, a: Action, s': State, req: ProvisionRequest, given: Given)
    requires Progress(s0, s, req, given) && Step(s, a) == Some(s') && Comes(a, given)
    requires a.ProvisionBegin? || a.ProvisionCompare? || a.ProvisionGetAddon? || a.ProvisionListInstances?
    ensures Continues(s0, s', req, given)
  {
    hide Provisioned, ScanExact, Takes, StepDeprovision, StepWorker, CreateReleaseName, Extends;
    if a.ProvisionListInstances? {
      AllowedIffFree(s0, s.prov.addon, s.prov.ns);
    }
    hide IsProvisioningAllowed, Occupied;
    assert Underway(s0.ops, req.instanceID, {}) ==> !SomeOpIs(s0.ops, req.instanceID, Create, InProgress);
  }

  /** Provisioning is refused exactly for a flagged addon of which the namespace has a record. */
  lemma AllowedIffFree(s: State, addon: Addon, ns: Namespace)
    ensures IsProvisioningAllowed(addon, ns, s.instances) <==>
            !(addon.provisionOnlyOnce && exists i | i in s.instances ::
                s.instances[i].namespace == ns && s.instances[i].serviceID == addon.id)
    ensures IsProvisioningAllowed(addon, ns, s.instances) <==> Free(s, ns, addon)
  {
  }

  lemma InsertContinues(
    s0: State, s: State, newID: Option<OperationID>, now: int, s': State, req: ProvisionRequest, given: Given)
    requires KeysOK(s0.ops) && Progress(s0, s, req, given)
    requires StepProvisionInsert(s, newID, now) == Some(s') && newID == given.newID
    ensures Continues(s0, s', req, given)
  {
    hide Provisioned, Extends, Occupied;
    assert Underway(s0.ops, req.instanceID, {}) && !SomeOpIs(s0.ops, req.instanceID, Create, InProgress);
    if newID.Some? {
      var io := NewOperation(req.instanceID, newID.value, Create, req.parameters);
      InsertEffect(s.ops, io, now);
      InsertRefusedIff(s.ops, io, now);
      hide InsertOp, KeysOK;
      assert InsertOp(s.ops, io, now).0.Ok? ==> !SomeOpIs(s.ops, io.instanceID, Remove, InProgress);
    }
  }

  /** Beside no Create in progress, only a Remove in progress stands in the way. */
  lemma InsertRefusedIff(ops: Store, io: Operation, now: int)
    requires KeysOK(ops) && Underway(ops, io.instanceID, {})
    ensures InsertOp(ops, io, now).0.Err? <==>
            || io.instanceID == "" || io.operationID == "" || Has(ops, io.instanceID, io.operationID)
            || SomeOpIs(ops, io.instanceID, Remove, InProgress)
  {
    var i := io.instanceID;
    if i in ops {
      assert SomeInProgress(ops[i]) <==> SomeOpIs(ops, i, Remove, InProgress) by {
        if o :| o in ops[i] && ops[i][o].state == InProgress {
          assert Has(ops, i, o) && !HasOp(ops, i, o, Create, InProgress);
          assert HasOp(ops, i, o, Remove, InProgress);
        }
      }
    }
  }

  lemma InsertedContinues(s0: State, s: State, a: Action, s': State, req: ProvisionRequest, given: Given)
    requires Progress(s0, s, req, given) && Step(s, a) == Some(s') && (a.ProvisionFindPlan? || a.ProvisionUpsert?)
    ensures Continues(s0, s', req, given)
  {
    hide Provisioned, Inserted, ScanExact, IsProvisioningAllowed, StepDeprovision, StepWorker, CreateReleaseName;
    hide Occupied;
    assert Underway(s0.ops, req.instanceID, {}) ==> !SomeOpIs(s0.ops, req.instanceID, Create, InProgress);
    hide SomeOpIs, Underway;
    InsertedIsNew(s0, s, req, if s.prov.PFindPlan? then s.prov.op else if s.prov.PUpsert? then s.prov.op else "");
  }

  lemma InsertedIsNew(s0: State, s: State, req: ProvisionRequest, o: OperationID)
    ensures Inserted(s0.ops, s.ops, req, o) ==> !Has(s0.ops, req.instanceID, o)
  {
  }

  lemma RequestContinues(s0: State, s: State, a: Action, s': State, req: ProvisionRequest, given: Given)
    requires KeysOK(s0.ops) && Progress(s0, s, req, given) && Step(s, a) == Some(s')
    requires OfProvision(a) && Comes(a, given)
    ensures Continues(s0, s', req, given)
  {
    hide KeysOK, Progress, Continues, StepDeprovision, StepWorker;
    match a
    case ProvisionReadOps => ReadsContinue(s0, s, a, s', req, given);
    case ProvisionScan(_) => ReadsContinue(s0, s, a, s', req, given);
    case ProvisionScanEnd => ReadsContinue(s0, s, a, s', req, given);
    case ProvisionInsert(newID, now) => InsertContinues(s0, s, newID, now, s', req, given);
    case ProvisionFindPlan => InsertedContinues(s0, s, a, s', req, given);
    case ProvisionUpsert => InsertedContinues(s0, s, a, s', req, given);
    case _ => LooksContinue(s0, s, a, s', req, given);
  }

  lemma RequestBegins(states: seq<State>, actions: seq<Action>, m: nat, n: nat, req: ProvisionRequest, given: Given)
    requires Uninterrupted(states, actions, m, n, req, given)
    ensures Progress(states[m], states[m + 1], req, given)
  {
    hide StepDeprovision, StepWorker;
    assert Step(states[m], actions[m]) == Some(states[m + 1]);
  }

  lemma {:induction false} RequestUnderway(
    states: seq<State>, actions: seq<Action>, m: nat, n: nat, k: nat, req: ProvisionRequest, given: Given)
    requires Uninterrupted(states, actions, m, n, req, given) && m < k < n
    ensures Progress(states[m], states[k], req, given)
  {
    hide Step, Progress, KeysOK, Inv, Comes;
    if k == m + 1 {
      RequestBegins(states, actions, m, n, req, given);
    } else {
      RequestUnderway(states, actions, m, n, k - 1, req, given);
      RunKeeps(states, actions, m);
      InvKeys(states[m]);
      assert Step(states[k - 1], actions[k - 1]) == Some(states[k]);
      RequestContinues(states[m], states[k - 1], actions[k - 1], states[k], req, given);
    }
  }

  /** A Provision that nobody interrupts is one step: its outcome is read off the state it began in. */
  lemma ProvisionIsAtomic(
    states: seq<State>, actions: seq<Action>, m: nat, n: nat, req: ProvisionRequest, given: Given)
    requires Uninterrupted(states, actions, m, n, req, given)
    ensures ProvisionOutcome(states[m], states[n], req, given)
  {
    hide Step, ProvisionOutcome, KeysOK, Inv, Comes;
    RequestBegins(states, actions, m, n, req, given);
    assert !states[m + 1].prov.PIdle?;
    RequestUnderway(states, actions, m, n, n - 1, req, given);
    RunKeeps(states, actions, m);
    InvKeys(states[m]);
    hide Progress;
    assert Step(states[n - 1], actions[n - 1]) == Some(states[n]);
    RequestContinues(states[m], states[n - 1], actions[n - 1], states[n], req, given);
  }

  /** Requests that do not accept an asynchronous answer are refused at once. */
  lemma SynchronousRefused(s: State, a: Action, s': State)
    requires Step(s, a) == Some(s')
    ensures a.ProvisionBegin? && !a.preq.acceptsIncomplete ==> s' == s.(provReply := BadRequest)
    ensures a.DeprovisionBegin? && !a.dreq.acceptsIncomplete ==> s' == s.(deprovReply := BadRequest)
  {
    hide StepWorker;
  }

  // ----- Deprovision -----

  /** A Deprovision begun at `m` and answered at `n`, with no action by anyone else in between. */
  ghost predicate UninterruptedRemoval(
    states: seq<State>, actions: seq<Action>, m: nat, n: nat, i: InstanceID, given: Given)
  {
    && IsRun(states, actions) && m < n < |states|
    && states[m].deprov.DIdle? && actions[m] == DeprovisionBegin(DeprovisionRequest(i, true))
    && (forall k | m <= k < n :: OfDeprovision(actions[k]) && Comes(actions[k], given))
    && (forall k | m < k < n :: !states[k].deprov.DIdle?)
    && states[n].deprov.DIdle?
  }

  /** The request has put this Remove into the store. */
  ghost predicate RemovalInserted(ops: Store, ops': Store, i: InstanceID, o: OperationID) {
    && !Has(ops, i, o) && Extends(ops, ops', i, o) && HasOp(ops', i, o, Remove, InProgress)
    && var op := ops'[i][o];
       op == Operation(i, o, Remove, InProgress, None, RequestParameters(Some(map[])), op.createdAt)
  }

  /** The outcome of a Deprovision that nobody interrupts. */
  ghost predicate DeprovisionOutcome(s0: State, s: State, i: InstanceID, given: Given) {
    var reply := s.deprovReply;
    if i !in s0.ops then
      SameStores(s0, s) && reply == Gone
    else if Deprovisioned(s0.ops, i) then
      SameStores(s0, s) && reply == AlreadyDone
    else if SomeOpIs(s0.ops, i, Remove, InProgress) then
      SameStores(s0, s) && reply.Accepted? && HasOp(s0.ops, i, reply.operationID, Remove, InProgress)
    else if given.newID.None? then
      SameStores(s0, s) && reply == InternalError
    else if i !in s0.instances then
      SameStores(s0, s) && reply == Gone
    else if i == "" || given.newID.value == "" || Has(s0.ops, i, given.newID.value)
            || SomeOpIs(s0.ops, i, Create, InProgress) then
      SameStores(s0, s) && reply == InternalError
    else
      var o := given.newID.value;
      && RemovalInserted(s0.ops, s.ops, i, o) && reply == Accepted(o)
      && s.instances == s0.instances && s.workers == s0.workers[(i, o) := Deleting]
  }

  /** Every Remove in this state is in `todo`. */
  ghost predicate RemovesIn(ops: Store, i: InstanceID, state: OperationState, todo: set<OperationID>) {
    forall o | HasOp(ops, i, o, Remove, state) :: o in todo
  }

  /** How far an uninterrupted Deprovision has come, measured from the state `s0` it began in. */
  ghost predicate RemovalProgress(s0: State, s: State, i: InstanceID, given: Given) {
    && !s.deprov.DIdle? && s.deprov.i == i && SameStores(s0, s)
    && match s.deprov
       case DCheckDeprovisioned(_) => true
       case DScanDeprovisioned(_, todo) => i in s0.ops && RemovesIn(s0.ops, i, Succeeded, todo)
       case DCheckInProgress(_) => i in s0.ops && RemovesIn(s0.ops, i, Succeeded, {})
       case DScanInProgress(_, todo) =>
         i in s0.ops && RemovesIn(s0.ops, i, Succeeded, {}) && RemovesIn(s0.ops, i, InProgress, todo)
       case DGetInstance(_) =>
         i in s0.ops && RemovesIn(s0.ops, i, Succeeded, {}) && RemovesIn(s0.ops, i, InProgress, {})
       case DInsert(_, o) =>
         && i in s0.ops && RemovesIn(s0.ops, i, Succeeded, {}) && RemovesIn(s0.ops, i, InProgress, {})
         && i in s0.instances && given.newID == Some(o)
  }

  ghost predicate RemovalContinues(s0: State, s': State, i: InstanceID, given: Given) {
    if s'.deprov.DIdle? then DeprovisionOutcome(s0, s', i, given) else RemovalProgress(s0, s', i, given)
  }

  lemma RemovesInAll(ops: Store, i: InstanceID, state: OperationState)
    ensures i in ops ==> RemovesIn(ops, i, state, ops[i].Keys)
    ensures RemovesIn(ops, i, state, {}) <==> !SomeOpIs(ops, i, Remove, state)
  {
  }

  lemma RemovesRead(ops: Store, i: InstanceID, state: OperationState, todo: set<OperationID>, o: OperationID)
    requires RemovesIn(ops, i, state, todo) && !HasOp(ops, i, o, Remove, state)
    ensures RemovesIn(ops, i, state, todo - {o})
  {
  }

  lemma RemovalReadsContinue(s0: State, s: State, a: Action, s': State, i: InstanceID, given: Given)
    requires RemovalProgress(s0, s, i, given) && Step(s, a) == Some(s')
    requires a.DeprovisionReadOps? || a.DeprovisionScan? || a.DeprovisionScanEnd?
    ensures RemovalContinues(s0, s', i, given)
  {
    hide RemovesIn, StepProvision, StepWorker, SomeOpIs;
    RemovesInAll(s0.ops, i, Succeeded);
    RemovesInAll(s0.ops, i, InProgress);
    match s.deprov
    case DScanDeprovisioned(_, todo) =>
      if a.DeprovisionScan? {
        if HasOp(s.ops, i, a.seen, Remove, Succeeded) {
          SomeOpFound(s.ops, i, a.seen, Remove, Succeeded);
        } else {
          RemovesRead(s.ops, i, Succeeded, todo, a.seen);
        }
      }
    case DScanInProgress(_, todo) =>
      if a.DeprovisionScan? {
        if HasOp(s.ops, i, a.seen, Remove, InProgress) {
          SomeOpFound(s.ops, i, a.seen, Remove, InProgress);
        } else {
          RemovesRead(s.ops, i, InProgress, todo, a.seen);
        }
      }
    case _ =>
  }

  lemma SomeOpFound(ops: Store, i: InstanceID, o: OperationID, kind: OperationType, state: OperationState)
    requires HasOp(ops, i, o, kind, state)
    ensures SomeOpIs(ops, i, kind, state)
  {
  }

  /** Beside no Remove in progress, only a Create in progress stands in the way. */
  lemma RemovalRefusedIff(ops: Store, io: Operation, now: int)
    requires KeysOK(ops) && !SomeOpIs(ops, io.instanceID, Remove, InProgress)
    ensures InsertOp(ops, io, now).0.Err? <==>
            || io.instanceID == "" || io.operationID == "" || Has(ops, io.instanceID, io.operationID)
            || SomeOpIs(ops, io.instanceID, Create, InProgress)
  {
    var i := io.instanceID;
    if i in ops {
      assert SomeInProgress(ops[i]) <==> SomeOpIs(ops, i, Create, InProgress) by {
        if o :| o in ops[i] && ops[i][o].state == InProgress {
          assert Has(ops, i, o) && !HasOp(ops, i, o, Remove, InProgress);
          assert HasOp(ops, i, o, Create, InProgress);
        }
      }
    }
  }

  lemma RemovalInsertContinues(s0: State, s: State, a: Action, s': State, i: InstanceID, given: Given)
    requires KeysOK(s0.ops) && RemovalProgress(s0, s, i, given) && Step(s, a) == Some(s') && Comes(a, given)
    requires a.DeprovisionBegin? || a.DeprovisionGetInstance? || a.DeprovisionInsert?
    ensures RemovalContinues(s0, s', i, given)
  {
    hide RemovesIn, StepProvision, StepWorker, Extends;
    RemovesInAll(s0.ops, i, Succeeded);
    RemovesInAll(s0.ops, i, InProgress);
    if a.DeprovisionInsert? {
      var io := NewOperation(i, s.deprov.op, Remove, RequestParameters(Some(map[])));
      InsertEffect(s.ops, io, a.now);
      RemovalRefusedIff(s.ops, io, a.now);
      hide InsertOp, KeysOK, SomeOpIs;
    }
  }

  lemma RemovalStepContinues(s0: State, s: State, a: Action, s': State, i: InstanceID, given: Given)
    requires KeysOK(s0.ops) && RemovalProgress(s0, s, i, given) && Step(s, a) == Some(s')
    requires OfDeprovision(a) && Comes(a, given)
    ensures RemovalContinues(s0, s', i, given)
  {
    hide KeysOK, RemovalProgress, RemovalContinues, Step;
    if a.DeprovisionReadOps? || a.DeprovisionScan? || a.DeprovisionScanEnd? {
      RemovalReadsContinue(s0, s, a, s', i, given);
    } else {
      RemovalInsertContinues(s0, s, a, s', i, given);
    }
  }

  lemma RemovalBegins(states: seq<State>, actions: seq<Action>, m: nat, n: nat, i: InstanceID, given: Given)
    requires UninterruptedRemoval(states, actions, m, n, i, given)
    ensures RemovalProgress(states[m], states[m + 1], i, given)
  {
    hide StepProvision, StepWorker;
    assert Step(states[m], actions[m]) == Some(states[m + 1]);
  }

  lemma {:induction false} RemovalUnderway(
    states: seq<State>, actions: seq<Action>, m: nat, n: nat, k: nat, i: InstanceID, given: Given)
    requires UninterruptedRemoval(states, actions, m, n, i, given) && m < k < n
    ensures RemovalProgress(states[m], states[k], i, given)
  {
    hide Step, RemovalProgress, KeysOK, Inv, Comes;
    if k == m + 1 {
      RemovalBegins(states, actions, m, n, i, given);
    } else {
      RemovalUnderway(states, actions, m, n, k - 1, i, given);
      RunKeeps(states, actions, m);
      InvKeys(states[m]);
      assert Step(states[k - 1], actions[k - 1]) == Some(states[k]);
      RemovalStepContinues(states[m], states[k - 1], actions[k - 1], states[k], i, given);
    }
  }

  /** A Deprovision that nobody interrupts is one step, too. */
  lemma DeprovisionIsAtomic(
    states: seq<State>, actions: seq<Action>, m: nat, n: nat, i: InstanceID, given: Given)
    requires UninterruptedRemoval(states, actions, m, n, i, given)
    ensures DeprovisionOutcome(states[m], states[n], i, given)
  {
    hide Step, DeprovisionOutcome, KeysOK, Inv, Comes;
    RemovalBegins(states, actions, m, n, i, given);
    assert !states[m + 1].deprov.DIdle?;
    RemovalUnderway(states, actions, m, n, n - 1, i, given);
    RunKeeps(states, actions, m);
    InvKeys(states[m]);
    hide RemovalProgress;
    assert Step(states[n - 1], actions[n - 1]) == Some(states[n]);
    RemovalStepContinues(states[m], states[n - 1], actions[n - 1], states[n], i, given);
  }

  // ----- any interleaving -----

  /** The step answers the request that holds the mutex of its service. */
  predicate AnswersProvision(s: State, s': State) {
    !s.prov.PIdle? && s'.prov.PIdle?
  }

  predicate AnswersDeprovision(s: State, s': State) {
    !s.deprov.DIdle? && s'.deprov.DIdle?
  }

  /** What an answer to a Provision tells, whoever else was at work. */
  ghost predicate ProvisionReplyTrue(s: State, s': State)
    requires !s.prov.PIdle?
  {
    var i := s.prov.req.instanceID;
    match s'.provReply
    case AlreadyDone =>
      && SomeOpIs(s.ops, i, Create, Succeeded)
      && i in s.instances && s.instances[i].parameters == s.prov.req.parameters
    case Conflict =>
      && SomeOpIs(s.ops, i, Create, Succeeded)
      && i in s.instances && s.instances[i].parameters != s.prov.req.parameters
    case Accepted(o) => HasOp(s'.ops, i, o, Create, InProgress)
    case Gone => false
    case NoReply => false
    case _ => true
  }

  lemma ProvisionTellsTruth(states: seq<State>, actions: seq<Action>, n: nat)
    requires IsRun(states, actions) && n < |actions| && AnswersProvision(states[n], states[n + 1])
    ensures OfProvision(actions[n]) && ProvisionReplyTrue(states[n], states[n + 1])
  {
    hide Step, Inv, ScanOK, ProvisionReplyTrue;
    RunKeeps(states, actions, n);
    RunScans(states, actions, n);
    assert Step(states[n], actions[n]) == Some(states[n + 1]);
    OnlyProvisionAnswers(states[n], actions[n], states[n + 1]);
    AnswerIsTrue(states[n], actions[n], states[n + 1]);
  }

  lemma OnlyProvisionAnswers(s: State, a: Action, s': State)
    requires Step(s, a) == Some(s')
    ensures AnswersProvision(s, s') ==> OfProvision(a)
    ensures AnswersDeprovision(s, s') ==> OfDeprovision(a)
  {
    if OfProvision(a) {
      ProvisionKeepsStores(s, a, s');
    } else if OfDeprovision(a) {
      DeprovisionKeepsStores(s, a, s');
    } else {
      WorkerKeepsStores(s, a, s');
    }
    hide Step;
  }

  lemma AnswerIsTrue(s: State, a: Action, s': State)
    requires Inv(s) && ScanOK(s) && Step(s, a) == Some(s') && OfProvision(a) && AnswersProvision(s, s')
    ensures ProvisionReplyTrue(s, s')
  {
    hide Inv, ScanOK, ProvisionReplyTrue, StepDeprovision, StepWorker;
    match a
    case ProvisionScan(o) => ScanIsTrue(s, o, s');
    case ProvisionCompare => CompareIsTrue(s, s');
    case ProvisionUpsert =>
      UpsertOwns(s);
      UpsertIsTrue(s, s');
    case _ => RefusalIsTrue(s, a, s');
  }

  lemma ScanIsTrue(s: State, o: OperationID, s': State)
    requires StepProvisionScan(s, o) == Some(s') && AnswersProvision(s, s')
    ensures ProvisionReplyTrue(s, s')
  {
  }

  lemma CompareIsTrue(s: State, s': State)
    requires ScanOK(s) && StepProvisionCompare(s) == Some(s')
    ensures AnswersProvision(s, s') && ProvisionReplyTrue(s, s')
  {
    hide SomeOpIs;
  }

  lemma UpsertOwns(s: State)
    requires Inv(s) && s.prov.PUpsert?
    ensures HasOp(s.ops, s.prov.req.instanceID, s.prov.op, Create, InProgress)
  {
    assert RequestOK(s);
    hide Inv;
  }

  lemma UpsertIsTrue(s: State, s': State)
    requires s.prov.PUpsert? && HasOp(s.ops, s.prov.req.instanceID, s.prov.op, Create, InProgress)
    requires StepProvisionUpsert(s) == Some(s')
    ensures ProvisionReplyTrue(s, s')
  {
    assert s'.provReply == Accepted(s.prov.op) && s'.ops == s.ops;
    hide StepProvisionUpsert;
  }

  /** All other answers are refusals. */
  lemma RefusalIsTrue(s: State, a: Action, s': State)
    requires Step(s, a) == Some(s') && OfProvision(a) && AnswersProvision(s, s')
    requires !a.ProvisionScan? && !a.ProvisionCompare? && !a.ProvisionUpsert?
    ensures ProvisionReplyTrue(s, s')
  {
    hide InsertOp, IsProvisioningAllowed, CreateReleaseName, StepDeprovision, StepWorker;
    assert s'.provReply == BadRequest || s'.provReply == InternalError;
    hide Step;
  }

  /** What an answer to a Deprovision tells. */
  ghost predicate DeprovisionReplyTrue(s: State, s': State)
    requires !s.deprov.DIdle?
  {
    var i := s.deprov.i;
    match s'.deprovReply
    case AlreadyDone => Deprovisioned(s.ops, i)
    case Accepted(o) => HasOp(s'.ops, i, o, Remove, InProgress)
    case Gone => i !in s.ops || i !in s.instances
    case InternalError => true
    case _ => false
  }

  lemma DeprovisionTellsTruth(states: seq<State>, actions: seq<Action>, n: nat)
    requires IsRun(states, actions) && n < |actions| && AnswersDeprovision(states[n], states[n + 1])
    ensures OfDeprovision(actions[n]) && DeprovisionReplyTrue(states[n], states[n + 1])
  {
    hide Step, DeprovisionReplyTrue;
    assert Step(states[n], actions[n]) == Some(states[n + 1]);
    OnlyProvisionAnswers(states[n], actions[n], states[n + 1]);
    RemovalAnswerIsTrue(states[n], actions[n], states[n + 1]);
  }

  lemma RemovalAnswerIsTrue(s: State, a: Action, s': State)
    requires Step(s, a) == Some(s') && OfDeprovision(a) && AnswersDeprovision(s, s')
    ensures DeprovisionReplyTrue(s, s')
  {
    hide StepProvision, StepWorker;
    if a.DeprovisionInsert? {
      InsertEffect(s.ops, NewOperation(s.deprov.i, s.deprov.op, Remove, RequestParameters(Some(map[]))), a.now);
      hide InsertOp;
    } else if a.DeprovisionScan? && s.deprov.DScanDeprovisioned? {
      assert HasOp(s.ops, s.deprov.i, a.seen, Remove, Succeeded);
    }
  }
}
