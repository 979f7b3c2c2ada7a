/** What holds along every interleaving of requests and workers. */
module LifecycleRuns {
  import opened Values
  import opened Operations
  import opened ReleaseNames
  import opened Lifecycle
  import opened LifecycleInvariant

  // ----- single steps -----

  predicate WritesOps(a: Action) {
    a.ProvisionInsert? || a.DeprovisionInsert? || a.WorkerClose?
  }

  predicate WritesInstances(a: Action) {
    a.ProvisionUpsert? || a.WorkerRecord? || a.WorkerRemoveRecord?
  }

  /** All other actions leave the two stores alone. */
  ghost predicate StoresKept(s: State, a: Action, s': State) {
    (!WritesOps(a) ==> s'.ops == s.ops) && (!WritesInstances(a) ==> s'.instances == s.instances)
  }

  lemma StoresUntouched(s: State, a: Action, s': State)
    requires Step(s, a) == Some(s')
    ensures StoresKept(s, a, s')
  {
    if OfProvision(a) {
      ProvisionKeepsStores(s, a, s');
    } else if OfDeprovision(a) {
      DeprovisionKeepsStores(s, a, s');
    } else {
      WorkerKeepsStores(s, a, s');
    }
    hide *;
  }

  lemma ProvisionKeepsStores(s: State, a: Action, s': State)
    requires Step(s, a) == Some(s') && OfProvision(a)
    ensures StoresKept(s, a, s')
    ensures s'.deprov == s.deprov
  {
    hide StepProvisionBegin, StepProvisionReadOps, StepProvisionScan, StepProvisionScanEnd,
      StepProvisionCompare, StepProvisionGetAddon, StepProvisionListInstances, StepProvisionFindPlan,
      StepProvisionInsert, StepProvisionUpsert;
  }

  lemma DeprovisionKeepsStores(s: State, a: Action, s': State)
    requires Step(s, a) == Some(s') && OfDeprovision(a)
    ensures StoresKept(s, a, s')
    ensures s'.prov == s.prov
  {
    hide StepDeprovisionBegin, StepDeprovisionReadOps, StepDeprovisionScan, StepDeprovisionScanEnd,
      StepDeprovisionGetInstance, StepDeprovisionInsert;
  }

  lemma WorkerKeepsStores(s: State, a: Action, s': State)
    requires Step(s, a) == Some(s') && OfWorker(a)
    ensures StoresKept(s, a, s')
    ensures s'.prov == s.prov && s'.deprov == s.deprov
  {
    hide StepWorkerInstall, StepWorkerRecord, StepWorkerDelete, StepWorkerRemoveBindData,
      StepWorkerRemoveRecord, StepWorkerClose;
  }

  /** A record is written only under its own Create in progress, removed only under its Remove in progress. */
  lemma RecordChangesUnderOwnOperation(s: State, a: Action, s': State, i: InstanceID)
    requires Inv(s) && Step(s, a) == Some(s')
    ensures i in s'.instances && (i !in s.instances || s'.instances[i] != s.instances[i]) ==>
              exists o :: HasOp(s.ops, i, o, Create, InProgress) && HasOp(s'.ops, i, o, Create, InProgress)
    ensures i in s.instances && i !in s'.instances ==>
              exists o :: HasOp(s.ops, i, o, Remove, InProgress) && HasOp(s'.ops, i, o, Remove, InProgress)
  {
    hide NamedFor, PresenceOK, OnceOK, CreateReleaseName;
    StoresUntouched(s, a, s');
    if WritesInstances(a) {
      var key := RecordWriter(s, a, s');
      assert HasOp(s.ops, key.0, key.1, if a.WorkerRemoveRecord? then Remove else Create, InProgress);
    }
  }

  /** The operation under which an action writes or removes a record. */
  lemma RecordWriter(s: State, a: Action, s': State) returns (key: WorkerKey)
    requires Inv(s) && Step(s, a) == Some(s') && WritesInstances(a)
    ensures HasOp(s.ops, key.0, key.1, if a.WorkerRemoveRecord? then Remove else Create, InProgress)
    ensures forall j | j != key.0 ::
              (j in s'.instances <==> j in s.instances) && (j in s.instances ==> s'.instances[j] == s.instances[j])
    ensures key.0 in s'.instances <==> !a.WorkerRemoveRecord?
    ensures if a.ProvisionUpsert? then s.prov.PUpsert? && key == (s.prov.req.instanceID, s.prov.op) else key == a.key
  {
    hide NamedFor, PresenceOK, OnceOK, CreateReleaseName, StepDeprovision;
    match a
    case ProvisionUpsert =>
      key := (s.prov.req.instanceID, s.prov.op);
      assert RequestOK(s);
      hide Inv, Has;
    case WorkerRecord(k) =>
      key := k;
      assert WorkerOK(s.ops, s.instances, key, s.workers[key]);
      hide Inv;
    case WorkerRemoveRecord(k) =>
      key := k;
      assert WorkerOK(s.ops, s.instances, key, s.workers[key]);
      hide Inv;
  }

  predicate SameOperation(a: Operation, b: Operation) {
    a.instanceID == b.instanceID && a.operationID == b.operationID && a.kind == b.kind &&
    a.parameters == b.parameters && a.createdAt == b.createdAt
  }

  /** What one action may do to one operation. */
  ghost predicate OperationMoves(s: State, a: Action, s': State, i: InstanceID, o: OperationID) {
    && (Has(s.ops, i, o) ==> Has(s'.ops, i, o) && SameOperation(s.ops[i][o], s'.ops[i][o]))
    && (Has(s.ops, i, o) && s'.ops[i][o].state != s.ops[i][o].state ==>
          s.ops[i][o].state == InProgress && a.WorkerClose? && a.key == (i, o) &&
          a.key in s.workers && a.key !in s'.workers &&
          s.workers[a.key] == Closing(s'.ops[i][o].state))
    && (!Has(s.ops, i, o) && Has(s'.ops, i, o) ==>
          s'.ops[i][o].state == InProgress && (forall q :: !Active(s.ops, i, q)) &&
          (a.ProvisionInsert? || a.DeprovisionInsert?))
  }

  /** Operations are never dropped, and only their own worker moves them out of progress. */
  lemma OperationStep(s: State, a: Action, s': State, i: InstanceID, o: OperationID)
    requires Inv(s) && Step(s, a) == Some(s')
    ensures OperationMoves(s, a, s', i, o)
  {
    hide Inv, OperationMoves;
    if a.ProvisionInsert? {
      ProvisionInsertMoves(s, a.newID, a.now, i, o);
    } else if a.DeprovisionInsert? {
      DeprovisionInsertMoves(s, a.now, i, o);
    } else if a.WorkerClose? {
      CloseStep(s, a.key, a.description, i, o);
    } else {
      QuietMoves(s, a, s', i, o);
    }
  }

  lemma QuietMoves(s: State, a: Action, s': State, i: InstanceID, o: OperationID)
    requires Step(s, a) == Some(s') && !WritesOps(a)
    ensures OperationMoves(s, a, s', i, o)
  {
    StoresUntouched(s, a, s');
    hide Step;
  }

  lemma ProvisionInsertMoves(s: State, newID: Option<OperationID>, now: int, i: InstanceID, o: OperationID)
    requires StepProvisionInsert(s, newID, now).Some?
    ensures OperationMoves(s, ProvisionInsert(newID, now), StepProvisionInsert(s, newID, now).value, i, o)
  {
    if newID.Some? {
      InsertEffect(s.ops, NewOperation(s.prov.req.instanceID, newID.value, Create, s.prov.req.parameters), now);
      hide InsertOp;
    }
  }

  lemma DeprovisionInsertMoves(s: State, now: int, i: InstanceID, o: OperationID)
    requires StepDeprovisionInsert(s, now).Some?
    ensures OperationMoves(s, DeprovisionInsert(now), StepDeprovisionInsert(s, now).value, i, o)
  {
    InsertEffect(s.ops, NewOperation(s.deprov.i, s.deprov.op, Remove, RequestParameters(Some(map[]))), now);
    hide InsertOp;
  }

  lemma CloseStep(s: State, key: WorkerKey, description: string, i: InstanceID, o: OperationID)
    requires Inv(s) && StepWorkerClose(s, key, description).Some?
    ensures OperationMoves(s, WorkerClose(key, description), StepWorkerClose(s, key, description).value, i, o)
  {
    hide NamedFor, PresenceOK, OnceOK, CreateReleaseName;
    assert WorkerOK(s.ops, s.instances, key, s.workers[key]);
    UpdateEffect(s.ops, key.0, key.1, s.workers[key].outcome, Some(description));
    hide Inv, UpdateOp;
  }

  // ----- whole runs -----

  /** In every reachable state each instance has at most one operation in progress. */
  lemma AtMostOneInProgress(
    states: seq<State>, actions: seq<Action>, n: nat, i: InstanceID, a: OperationID, b: OperationID)
    requires IsRun(states, actions) && n < |states|
    requires Active(states[n].ops, i, a) && Active(states[n].ops, i, b)
    ensures a == b
  {
    RunKeeps(states, actions, n);
  }

  /** An operation keeps its identity for ever and its state changes at most once. */
  lemma {:induction false} OperationChangesOnce(
    states: seq<State>, actions: seq<Action>, m: nat, n: nat, i: InstanceID, o: OperationID)
    requires IsRun(states, actions) && m <= n < |states|
    requires Has(states[m].ops, i, o)
    ensures Has(states[n].ops, i, o) && SameOperation(states[m].ops[i][o], states[n].ops[i][o])
    ensures states[m].ops[i][o].state != InProgress ==>
              states[n].ops[i][o].state == states[m].ops[i][o].state
  {
    hide Step, Inv;
    if m < n {
      OperationChangesOnce(states, actions, m, n - 1, i, o);
      RunKeeps(states, actions, n - 1);
      assert Step(states[n - 1], actions[n - 1]) == Some(states[n]);
      OperationStep(states[n - 1], actions[n - 1], states[n], i, o);
    }
  }

  /** Once a Remove has succeeded the instance counts as deprovisioned, never again as provisioned. */
  lemma DeprovisionedForever(states: seq<State>, actions: seq<Action>, m: nat, n: nat, i: InstanceID)
    requires IsRun(states, actions) && m <= n < |states|
    requires Deprovisioned(states[m].ops, i)
    ensures Deprovisioned(states[n].ops, i) && !Provisioned(states[n].ops, i)
  {
    var o :| HasOp(states[m].ops, i, o, Remove, Succeeded);
    OperationChangesOnce(states, actions, m, n, i, o);
    assert HasOp(states[n].ops, i, o, Remove, Succeeded);
  }

  /** An operation found in progress and later finished was finished by its own worker. */
  lemma FinishedByOwnWorker(s: State, a: Action, s': State, i: InstanceID, o: OperationID)
    requires Inv(s) && Step(s, a) == Some(s')
    requires Active(s.ops, i, o) && Has(s'.ops, i, o) && !Active(s'.ops, i, o)
    ensures a.WorkerClose? && a.key == (i, o) && WorkerOK(s.ops, s.instances, (i, o), Closing(s'.ops[i][o].state))
    ensures s'.instances == s.instances
    ensures forall q :: !Active(s'.ops, i, q)
  {
    hide NamedFor, PresenceOK, OnceOK, CreateReleaseName;
    StoresUntouched(s, a, s');
    hide Step;
    OperationStep(s, a, s', i, o);
    assert WorkerOK(s.ops, s.instances, a.key, s.workers[a.key]);
    forall q ensures !Active(s'.ops, i, q) {
      OperationStep(s, a, s', i, q);
      assert Active(s'.ops, i, q) ==> Active(s.ops, i, q);
    }
  }

  /** When a Create becomes succeeded the record is there, with that Create's parameters. */
  lemma CreateSucceedsWithRecord(states: seq<State>, actions: seq<Action>, n: nat, i: InstanceID, o: OperationID)
    requires IsRun(states, actions) && n < |actions|
    requires HasOp(states[n].ops, i, o, Create, InProgress) && HasOp(states[n + 1].ops, i, o, Create, Succeeded)
    ensures i in states[n + 1].instances
    ensures states[n + 1].instances[i].parameters == states[n + 1].ops[i][o].parameters
  {
    RunKeeps(states, actions, n);
    assert Step(states[n], actions[n]) == Some(states[n + 1]);
    FinishedByOwnWorker(states[n], actions[n], states[n + 1], i, o);
    OperationStep(states[n], actions[n], states[n + 1], i, o);
  }

  ghost predicate NoNewCreate(s: State, s': State, i: InstanceID) {
    forall o {:trigger Has(s'.ops, i, o)} | Has(s'.ops, i, o) && s'.ops[i][o].kind == Create :: Has(s.ops, i, o)
  }

  /** Without a Create inserted later, an absent record stays absent. */
  lemma {:induction false} AbsentUntilCreate(states: seq<State>, actions: seq<Action>, m: nat, n: nat, i: InstanceID)
    requires IsRun(states, actions) && m <= n < |states|
    requires i !in states[m].instances && forall o :: !Active(states[m].ops, i, o)
    requires NoNewCreate(states[m], states[n], i)
    ensures i !in states[n].instances
  {
    hide Step, Inv;
    if m < n {
      RunKeeps(states, actions, n - 1);
      assert Step(states[n - 1], actions[n - 1]) == Some(states[n]);
      NoNewCreateBefore(states[m], states[n - 1], actions[n - 1], states[n], i);
      AbsentUntilCreate(states, actions, m, n - 1, i);
      RecordChangesUnderOwnOperation(states[n - 1], actions[n - 1], states[n], i);
      var ops := states[n - 1].ops;
      if o :| HasOp(ops, i, o, Create, InProgress) {
        assert Has(states[m].ops, i, o);
        assert !Active(states[m].ops, i, o);
        OperationChangesOnce(states, actions, m, n - 1, i, o);
      }
    }
  }

  lemma NoNewCreateBefore(s0: State, s: State, a: Action, s': State, i: InstanceID)
    requires Inv(s) && Step(s, a) == Some(s') && NoNewCreate(s0, s', i)
    ensures NoNewCreate(s0, s, i)
  {
    hide Step, Inv;
    forall o | Has(s.ops, i, o) && s.ops[i][o].kind == Create
      ensures Has(s0.ops, i, o)
    {
      OperationStep(s, a, s', i, o);
    }
  }

  /** When a Remove becomes succeeded the record is gone, and it stays gone until a later Create. */
  lemma RemovedStaysAbsent(
    states: seq<State>, actions: seq<Action>, m: nat, n: nat, i: InstanceID, o: OperationID)
    requires IsRun(states, actions) && m < n < |states|
    requires HasOp(states[m].ops, i, o, Remove, InProgress) && HasOp(states[m + 1].ops, i, o, Remove, Succeeded)
    requires NoNewCreate(states[m + 1], states[n], i)
    ensures i !in states[m + 1].instances && i !in states[n].instances
  {
    hide Step, Inv;
    RunKeeps(states, actions, m);
    assert Step(states[m], actions[m]) == Some(states[m + 1]);
    FinishedByOwnWorker(states[m], actions[m], states[m + 1], i, o);
    AbsentUntilCreate(states, actions, m + 1, n, i);
  }

  lemma PresentUnlessRemoving(s: State, i: InstanceID)
    requires Inv(s) && Provisioned(s.ops, i)
    ensures i in s.instances || SomeOpIs(s.ops, i, Remove, InProgress)
  {
    hide NamedFor;
    if i !in s.instances {
      var o :| RemovalDone(s.ops, s.workers, i, o);
      assert HasOp(s.ops, i, o, Remove, InProgress);
    }
  }

  /** A provisioned instance with no Remove in progress has its record. */
  lemma ProvisionedHasRecord(states: seq<State>, actions: seq<Action>, n: nat, i: InstanceID)
    requires IsRun(states, actions) && n < |states|
    requires Provisioned(states[n].ops, i) && !SomeOpIs(states[n].ops, i, Remove, InProgress)
    ensures i in states[n].instances
  {
    RunKeeps(states, actions, n);
    PresentUnlessRemoving(states[n], i);
  }

  /** A provisionOnlyOnce service has at most one instance record per namespace, at all times. */
  lemma ProvisionedOnlyOnce(states: seq<State>, actions: seq<Action>, n: nat, i: InstanceID, j: InstanceID)
    requires IsRun(states, actions) && n < |states|
    requires i in states[n].instances && j in states[n].instances
    requires states[n].instances[i].serviceID == states[n].instances[j].serviceID
    requires states[n].instances[i].namespace == states[n].instances[j].namespace
    requires states[n].instances[i].serviceID in states[n].once
    ensures i == j
  {
    RunKeeps(states, actions, n);
  }

  /** Records of different instances never share a Helm release, and every name fits. */
  lemma ReleasesAreDistinct(states: seq<State>, actions: seq<Action>, n: nat, i: InstanceID, j: InstanceID)
    requires IsRun(states, actions) && n < |states|
    requires i in states[n].instances && j in states[n].instances && |i| == |j| == 36
    ensures |states[n].instances[i].releaseName| <= 53
    ensures states[n].instances[i].releaseName == states[n].instances[j].releaseName ==> i == j
  {
    RunKeeps(states, actions, n);
    var r, t := states[n].instances[i], states[n].instances[j];
    assert NamedFor(r) && NamedFor(t);
    var a, p :| r.releaseName == CreateReleaseName(a, p, r.id);
    var b, q :| t.releaseName == CreateReleaseName(b, q, t.id);
    ReleaseNameFits(a, p, r.id);
    if r.releaseName == t.releaseName {
      ReleaseNameIdentifies(a, p, r.id, b, q, t.id);
    }
  }

  // ----- operations nobody will finish -----

  /** The provision request in flight has inserted this Create and still has to start its worker. */
  predicate InRequest(s: State, i: InstanceID, o: OperationID) {
    (s.prov.PFindPlan? || s.prov.PUpsert?) && s.prov.req.instanceID == i && s.prov.op == o
  }

  /** In progress, with neither a worker nor a request to finish it. */
  predicate Orphaned(s: State, i: InstanceID, o: OperationID) {
    Active(s.ops, i, o) && (i, o) !in s.workers && !InRequest(s, i, o)
  }

  /** What actions other than the two inserts, the upsert and the close do to ownership. */
  lemma OwnershipUntouched(s: State, a: Action, s': State)
    requires Step(s, a) == Some(s')
    requires !WritesOps(a) && !a.ProvisionUpsert?
    ensures s'.workers.Keys == s.workers.Keys
    ensures PhaseKept(s, a, s')
  {
    hide GetAllOps, IsProvisioningAllowed, CreateReleaseName;
    if OfDeprovision(a) {
      DeprovisionKeepsStores(s, a, s');
    } else if OfWorker(a) {
      WorkerKeepsStores(s, a, s');
    } else {
      ProvisionKeepsPhase(s, a, s');
    }
  }

  ghost predicate PhaseKept(s: State, a: Action, s': State) {
    && (s.prov.PUpsert? ==> s'.prov == s.prov)
    && (s.prov.PFindPlan? ==>
          s'.prov == s.prov ||
          (a.ProvisionFindPlan? && s'.prov.PUpsert? && s'.prov.req == s.prov.req && s'.prov.op == s.prov.op) ||
          (a.ProvisionFindPlan? && s.prov.req.planID !in s.prov.addon.plans))
    && (s'.prov.PFindPlan? ==> s'.prov == s.prov)
    && (s'.prov.PUpsert? ==> s'.prov == s.prov || s.prov.PFindPlan?)
  }

  lemma ProvisionKeepsPhase(s: State, a: Action, s': State)
    requires Step(s, a) == Some(s') && OfProvision(a)
    requires !WritesOps(a) && !a.ProvisionUpsert?
    ensures PhaseKept(s, a, s') && s'.workers == s.workers
  {
    hide GetAllOps, IsProvisioningAllowed, CreateReleaseName;
  }

  /** How an operation passes between requests and workers. */
  ghost predicate OwnershipMoves(s: State, a: Action, s': State, i: InstanceID, o: OperationID) {
    && ((i, o) in s.workers && (i, o) !in s'.workers ==> !Active(s'.ops, i, o))
    && (InRequest(s, i, o) && !InRequest(s', i, o) ==>
          (i, o) in s'.workers ||
          (a.ProvisionFindPlan? && s.prov.PFindPlan? && s.prov.req.planID !in s.prov.addon.plans))
    && (!Has(s.ops, i, o) && Has(s'.ops, i, o) ==> (i, o) in s'.workers || InRequest(s', i, o))
    && ((i, o) !in s.workers && (i, o) in s'.workers ==> InRequest(s, i, o) || !Has(s.ops, i, o))
    && (!InRequest(s, i, o) && InRequest(s', i, o) ==> !Has(s.ops, i, o))
  }

  lemma OwnershipStep(s: State, a: Action, s': State, i: InstanceID, o: OperationID)
    requires Inv(s) && Step(s, a) == Some(s')
    ensures OwnershipMoves(s, a, s', i, o)
  {
    hide Inv, OwnershipMoves;
    if a.ProvisionInsert? {
      ProvisionInsertMovesOwnership(s, a.newID, a.now, i, o);
    } else if a.DeprovisionInsert? {
      DeprovisionInsertMovesOwnership(s, a.now, i, o);
    } else if a.WorkerClose? {
      CloseMovesOwnership(s, a.key, a.description, i, o);
    } else if a.ProvisionUpsert? {
      UpsertMovesOwnership(s, i, o);
    } else {
      QuietMovesOwnership(s, a, s', i, o);
    }
  }

  lemma QuietMovesOwnership(s: State, a: Action, s': State, i: InstanceID, o: OperationID)
    requires Step(s, a) == Some(s') && !WritesOps(a) && !a.ProvisionUpsert?
    ensures OwnershipMoves(s, a, s', i, o)
  {
    StoresUntouched(s, a, s');
    OwnershipUntouched(s, a, s');
    assert (i, o) in s'.workers.Keys <==> (i, o) in s.workers.Keys;
    hide Step;
  }

  lemma ProvisionInsertMovesOwnership(s: State, newID: Option<OperationID>, now: int, i: InstanceID, o: OperationID)
    requires StepProvisionInsert(s, newID, now).Some?
    ensures OwnershipMoves(s, ProvisionInsert(newID, now), StepProvisionInsert(s, newID, now).value, i, o)
  {
    if newID.Some? {
      InsertEffect(s.ops, NewOperation(s.prov.req.instanceID, newID.value, Create, s.prov.req.parameters), now);
      hide InsertOp;
    }
  }

  lemma UpsertMovesOwnership(s: State, i: InstanceID, o: OperationID)
    requires StepProvisionUpsert(s).Some?
    ensures OwnershipMoves(s, ProvisionUpsert, StepProvisionUpsert(s).value, i, o)
  {
  }

  lemma DeprovisionInsertMovesOwnership(s: State, now: int, i: InstanceID, o: OperationID)
    requires StepDeprovisionInsert(s, now).Some?
    ensures OwnershipMoves(s, DeprovisionInsert(now), StepDeprovisionInsert(s, now).value, i, o)
  {
    InsertEffect(s.ops, NewOperation(s.deprov.i, s.deprov.op, Remove, RequestParameters(Some(map[]))), now);
    hide InsertOp;
  }

  lemma CloseMovesOwnership(s: State, key: WorkerKey, description: string, i: InstanceID, o: OperationID)
    requires Inv(s) && StepWorkerClose(s, key, description).Some?
    ensures OwnershipMoves(s, WorkerClose(key, description), StepWorkerClose(s, key, description).value, i, o)
  {
    hide NamedFor, PresenceOK, OnceOK;
    assert WorkerOK(s.ops, s.instances, key, s.workers[key]);
    UpdateEffect(s.ops, key.0, key.1, s.workers[key].outcome, Some(description));
    hide Inv, UpdateOp;
  }

  /** The one way to orphan an operation: its Create was inserted before a missing plan was noticed. */
  lemma OrphanedOnlyByMissingPlan(s: State, a: Action, s': State, i: InstanceID, o: OperationID)
    requires Inv(s) && Step(s, a) == Some(s')
    requires Orphaned(s', i, o) && !Orphaned(s, i, o)
    ensures a.ProvisionFindPlan? && s.prov.PFindPlan? && s.prov.req.instanceID == i && s.prov.op == o
    ensures s.prov.req.planID !in s.prov.addon.plans
  {
    hide Step, Inv;
    OperationStep(s, a, s', i, o);
    OwnershipStep(s, a, s', i, o);
  }

  /** A missing plan always orphans the Create it was requested with. */
  lemma MissingPlanOrphans(s: State, s': State)
    requires s.prov.PFindPlan? && s.prov.req.planID !in s.prov.addon.plans
    requires Inv(s) && Step(s, ProvisionFindPlan) == Some(s')
    ensures Orphaned(s', s.prov.req.instanceID, s.prov.op) && s'.provReply == BadRequest
  {
    assert OwnedByRequest(s, s.prov.req, s.prov.op);
    hide Inv, CreateReleaseName;
    assert s' == ReplyProvision(s, BadRequest);
    hide Step;
  }

  lemma OrphanStep(s: State, a: Action, s': State, i: InstanceID, o: OperationID)
    requires Inv(s) && Step(s, a) == Some(s') && Orphaned(s, i, o)
    ensures Orphaned(s', i, o)
  {
    hide Step, Inv;
    OperationStep(s, a, s', i, o);
    OwnershipStep(s, a, s', i, o);
  }

  /** An orphaned operation stays in progress for ever and no other operation of its instance is ever accepted. */
  lemma {:induction false} OrphanBlocksInstance(
    states: seq<State>, actions: seq<Action>, m: nat, n: nat, i: InstanceID, o: OperationID)
    requires IsRun(states, actions) && m <= n < |states|
    requires Orphaned(states[m], i, o)
    ensures Orphaned(states[n], i, o)
    ensures forall io: Operation, now: int | io.instanceID == i :: InsertOp(states[n].ops, io, now).0.Err?
  {
    hide Step, Inv;
    if m < n {
      OrphanBlocksInstance(states, actions, m, n - 1, i, o);
      RunKeeps(states, actions, n - 1);
      assert Step(states[n - 1], actions[n - 1]) == Some(states[n]);
      OrphanStep(states[n - 1], actions[n - 1], states[n], i, o);
    }
    forall io: Operation, now: int | io.instanceID == i
      ensures InsertOp(states[n].ops, io, now).0.Err?
    {
      InsertEffect(states[n].ops, io, now);
    }
  }
}
