/**
 What can happen next: states that a state leads to, freely interleaved or, on request, without any
 request being interrupted. The lemmas are the courses requests and workers take when nothing fails.
 */
module LifecycleReach {
  import opened Values
  import opened Operations
  import opened ReleaseNames
  import opened Lifecycle
  import opened LifecycleInvariant

  function Exec(serial: bool, s: State, actions: seq<Action>): Option<State>
    decreases |actions|
  {
    if actions == [] then Some(s)
    else if serial && !Serial(s, actions[0]) then None
    else match Step(s, actions[0])
      case None => None
      case Some(s') => Exec(serial, s', actions[1..])
  }

  ghost predicate Reaches(serial: bool, s: State, s': State) {
    exists actions :: Exec(serial, s, actions) == Some(s')
  }

  lemma {:induction false} ExecConcat(serial: bool, s: State, a: seq<Action>, b: seq<Action>)
    requires Exec(serial, s, a).Some?
    ensures Exec(serial, s, a + b) == Exec(serial, Exec(serial, s, a).value, b)
    decreases |a|
  {
    hide Step, Serial;
    if a == [] {
      assert a + b == b;
    } else {
      assert (a + b)[0] == a[0] && (a + b)[1..] == a[1..] + b;
      ExecConcat(serial, Step(s, a[0]).value, a[1..], b);
    }
  }

  lemma ReachesTransitive(serial: bool, s: State, t: State, u: State)
    requires Reaches(serial, s, t) && Reaches(serial, t, u)
    ensures Reaches(serial, s, u)
  {
    hide Step;
    var a :| Exec(serial, s, a) == Some(t);
    var b :| Exec(serial, t, b) == Some(u);
    ExecConcat(serial, s, a, b);
  }

  lemma ReachesStep(serial: bool, s: State, a: Action, s': State)
    requires Step(s, a) == Some(s') && (serial ==> Serial(s, a))
    ensures Reaches(serial, s, s')
  {
    hide Step, Serial;
    assert [a][1..] == [];
    assert Exec(serial, s', []) == Some(s');
    assert Exec(serial, s, [a]) == Some(s');
  }

  lemma ReachesSelf(serial: bool, s: State)
    ensures Reaches(serial, s, s)
  {
    assert Exec(serial, s, []) == Some(s);
  }

  lemma {:induction false} ExecKeeps(serial: bool, s: State, actions: seq<Action>)
    requires Inv(s) && Exec(serial, s, actions).Some?
    ensures Inv(Exec(serial, s, actions).value)
    decreases |actions|
  {
    hide Step, Serial, Inv;
    if actions != [] {
      StepKeeps(s, actions[0], Step(s, actions[0]).value);
      ExecKeeps(serial, Step(s, actions[0]).value, actions[1..]);
    }
  }

  lemma ReachesKeeps(serial: bool, s: State, s': State)
    requires Inv(s) && Reaches(serial, s, s')
    ensures Inv(s')
  {
    hide Inv;
    var actions :| Exec(serial, s, actions) == Some(s');
    ExecKeeps(serial, s, actions);
  }

  /** What can be reached without interruptions can be reached. */
  lemma ReachesFreely(s: State, s': State)
    requires Reaches(true, s, s')
    ensures Reaches(false, s, s')
  {
    hide Step;
    var actions :| Exec(true, s, actions) == Some(s');
    ExecFreely(s, actions);
  }

  lemma {:induction false} ExecFreely(s: State, actions: seq<Action>)
    requires Exec(true, s, actions).Some?
    ensures Exec(false, s, actions) == Exec(true, s, actions)
    decreases |actions|
  {
    hide Step, Serial;
    if actions != [] {
      ExecFreely(Step(s, actions[0]).value, actions[1..]);
    }
  }

  /** The states passed through. */
  function Trace(s: State, actions: seq<Action>): seq<State>
    decreases |actions|
  {
    if actions == [] then [s]
    else match Step(s, actions[0])
      case None => [s]
      case Some(s') => [s] + Trace(s', actions[1..])
  }

  lemma {:induction false} TraceIsRun(serial: bool, s: State, actions: seq<Action>)
    requires Exec(serial, s, actions).Some?
    ensures var states := Trace(s, actions);
            && |states| == |actions| + 1 && states[0] == s
            && (forall n | 0 <= n < |actions| :: Step(states[n], actions[n]) == Some(states[n + 1]))
            && (serial ==> forall n | 0 <= n < |actions| :: Serial(states[n], actions[n]))
            && states[|actions|] == Exec(serial, s, actions).value
    decreases |actions|
  {
    hide Step, Serial;
    if actions != [] {
      var s', rest := Step(s, actions[0]).value, actions[1..];
      TraceIsRun(serial, s', rest);
      var states, tail := Trace(s, actions), Trace(s', rest);
      assert states == [s] + tail;
      forall n | 0 <= n < |actions|
        ensures Step(states[n], actions[n]) == Some(states[n + 1])
        ensures serial ==> Serial(states[n], actions[n])
      {
        if n > 0 {
          assert states[n] == tail[n - 1] && states[n + 1] == tail[n] && actions[n] == rest[n - 1];
        }
      }
    }
  }

  /** What is reached from the beginning without interruptions is the end of a serial run. */
  lemma ReachedSerially(s: State, t: State, u: State) returns (states: seq<State>, actions: seq<Action>, m: nat)
    requires Initial(s) && Reaches(true, s, t) && Reaches(true, t, u)
    ensures IsSerialRun(states, actions) && m < |states|
    ensures states[m] == t && states[|actions|] == u
  {
    hide Step, Serial;
    var a :| Exec(true, s, a) == Some(t);
    var b :| Exec(true, t, b) == Some(u);
    ExecConcat(true, s, a, b);
    actions, m := a + b, |a|;
    TraceIsRun(true, s, actions);
    states := Trace(s, actions);
    TraceAt(s, a, b);
    TraceIsRun(true, s, a);
  }

  lemma {:induction false} TraceAt(s: State, a: seq<Action>, b: seq<Action>)
    requires Exec(true, s, a).Some? && Exec(true, s, a + b).Some?
    ensures |Trace(s, a + b)| > |a| && |Trace(s, a)| > |a| && Trace(s, a + b)[|a|] == Trace(s, a)[|a|]
    decreases |a|
  {
    hide Step, Serial;
    if a != [] {
      assert (a + b)[0] == a[0] && (a + b)[1..] == a[1..] + b;
      TraceAt(Step(s, a[0]).value, a[1..], b);
    }
  }

  /** The addon is there and may be provisioned for this request. */
  ghost predicate Allows(s: State, req: ProvisionRequest, addon: Addon) {
    && req.namespace.Some? && addon.id == req.serviceID
    && (addon.provisionOnlyOnce <==> addon.id in s.once)
    && IsProvisioningAllowed(addon, req.namespace.value, s.instances)
  }

  // ----- a provision request -----

  /** A request past both checks inserts its Create. */
  lemma ReachesInserted(serial: bool, s: State, addon: Addon, o: OperationID) returns (s': State)
    requires serial ==> s.deprov.DIdle?
    requires s.prov.PGetAddon? && Allows(s, s.prov.req, addon)
    requires InsertOp(s.ops, NewOperation(s.prov.req.instanceID, o, Create, s.prov.req.parameters), 0).0.Ok?
    ensures Reaches(serial, s, s')
    ensures s' == s.(ops := InsertOp(s.ops, NewOperation(s.prov.req.instanceID, o, Create, s.prov.req.parameters), 0).1,
                     prov := PFindPlan(s.prov.req, s.prov.req.namespace.value, addon, o))
  {
    hide CreateReleaseName, InsertOp, IsProvisioningAllowed;
    var req := s.prov.req;
    var s1 := s.(prov := PListInstances(req, req.namespace.value, addon));
    var s2 := s.(prov := PInsert(req, req.namespace.value, addon));
    s' := s2.(ops := InsertOp(s.ops, NewOperation(req.instanceID, o, Create, req.parameters), 0).1,
              prov := PFindPlan(req, req.namespace.value, addon, o));
    ReachesStep(serial, s, ProvisionGetAddon(Some(addon)), s1);
    ReachesStep(serial, s1, ProvisionListInstances, s2);
    ReachesStep(serial, s2, ProvisionInsert(Some(o), 0), s');
    ReachesTransitive(serial, s, s1, s2);
    ReachesTransitive(serial, s, s2, s');
  }

  /** ... and starts the worker. */
  lemma ReachesAccepted(serial: bool, s: State, addon: Addon, o: OperationID) returns (s': State, record: Instance)
    requires serial ==> s.deprov.DIdle?
    requires s.prov.PGetAddon? && Allows(s, s.prov.req, addon) && s.prov.req.planID in addon.plans
    requires InsertOp(s.ops, NewOperation(s.prov.req.instanceID, o, Create, s.prov.req.parameters), 0).0.Ok?
    ensures Reaches(serial, s, s')
    ensures s'.ops == InsertOp(s.ops, NewOperation(s.prov.req.instanceID, o, Create, s.prov.req.parameters), 0).1
    ensures s'.prov == PIdle && s'.deprov == s.deprov && s'.once == s.once
    ensures s'.workers == s.workers[(s.prov.req.instanceID, o) := Installing(record)]
    ensures s'.instances == s.instances[s.prov.req.instanceID := record] && record.id == s.prov.req.instanceID
    ensures record.serviceID == s.prov.req.serviceID
    ensures record.releaseName == CreateReleaseName(addon.name, addon.plans[s.prov.req.planID], record.id)
  {
    hide InsertOp, Allows, Reaches, CreateReleaseName;
    var t := ReachesInserted(serial, s, addon, o);
    s', record := ReachesWorker(serial, t);
    ReachesTransitive(serial, s, t, s');
  }

  lemma ReachesWorker(serial: bool, s: State) returns (s': State, record: Instance)
    requires serial ==> s.deprov.DIdle?
    requires s.prov.PFindPlan? && s.prov.req.planID in s.prov.addon.plans
    ensures Reaches(serial, s, s') && s'.ops == s.ops
    ensures s'.prov == PIdle && s'.deprov == s.deprov && s'.once == s.once
    ensures s'.workers == s.workers[(s.prov.req.instanceID, s.prov.op) := Installing(record)]
    ensures s'.instances == s.instances[s.prov.req.instanceID := record] && record.id == s.prov.req.instanceID
    ensures record.serviceID == s.prov.req.serviceID
    ensures record.releaseName == CreateReleaseName(s.prov.addon.name, s.prov.addon.plans[s.prov.req.planID], record.id)
  {
    hide CreateReleaseName;
    var t := Step(s, ProvisionFindPlan).value;
    ReachesStep(serial, s, ProvisionFindPlan, t);
    record := t.prov.record;
    s' := Step(t, ProvisionUpsert).value;
    ReachesStep(serial, t, ProvisionUpsert, s');
    ReachesTransitive(serial, s, t, s');
  }

  /** A worker whose install succeeds writes the record and is about to close. */
  lemma ReachesClosing(serial: bool, s: State, key: WorkerKey) returns (s': State)
    requires serial ==> s.prov.PIdle? && s.deprov.DIdle?
    requires key in s.workers && s.workers[key].Installing?
    ensures Reaches(serial, s, s')
    ensures s'.ops == s.ops && s'.prov == s.prov && s'.deprov == s.deprov && s'.once == s.once
    ensures s'.workers == s.workers[key := Closing(Succeeded)]
    ensures var record := s.workers[key].record;
            s'.instances == s.instances[record.id := record.(revision := Some(1))]
  {
    hide StepProvision, StepDeprovision;
    var t := Step(s, WorkerInstall(key, Some(1))).value;
    ReachesStep(serial, s, WorkerInstall(key, Some(1)), t);
    s' := Step(t, WorkerRecord(key)).value;
    ReachesStep(serial, t, WorkerRecord(key), s');
    ReachesTransitive(serial, s, t, s');
    assert s'.workers == s.workers[key := Closing(Succeeded)];
  }

  lemma ReachesClosed(serial: bool, s: State, key: WorkerKey) returns (s': State)
    requires serial ==> s.prov.PIdle? && s.deprov.DIdle?
    requires key in s.workers && s.workers[key] == Closing(Succeeded) && KeysOK(s.ops) && Has(s.ops, key.0, key.1)
    ensures Reaches(serial, s, s')
    ensures s'.prov == s.prov && s'.deprov == s.deprov && s'.once == s.once && s'.instances == s.instances
    ensures Has(s'.ops, key.0, key.1)
    ensures s'.ops[key.0][key.1] == s.ops[key.0][key.1].(state := Succeeded, description := Some(""))
    ensures Extends(s.ops, s'.ops, key.0, key.1)
  {
    s' := Step(s, WorkerClose(key, "")).value;
    ReachesStep(serial, s, WorkerClose(key, ""), s');
    UpdateEffect(s.ops, key.0, key.1, Succeeded, Some(""));
  }

  /** Nothing that either check still has to read will stop the request. */
  ghost predicate Unstopped(ops: Store, i: InstanceID, todo: set<OperationID>) {
    forall o | o in todo ::
      Has(ops, i, o) && ops[i][o].state != InProgress && !(ops[i][o].state == Succeeded && ops[i][o].kind != Undefined)
  }

  lemma {:induction false} ReachesScanned(serial: bool, s: State, req: ProvisionRequest, todo: set<OperationID>)
    requires serial ==> s.deprov.DIdle?
    requires s.prov == PScanProvisioned(req, todo, false) && Unstopped(s.ops, req.instanceID, todo)
    ensures Reaches(serial, s, s.(prov := PCheckInProgress(req)))
    decreases |todo|
  {
    var final := s.(prov := PCheckInProgress(req));
    if todo == {} {
      ReachesStep(serial, s, ProvisionScanEnd, final);
    } else {
      var o :| o in todo;
      var t := s.(prov := PScanProvisioned(req, todo - {o}, false));
      ReachesStep(serial, s, ProvisionScan(o), t);
      ReachesScanned(serial, t, req, todo - {o});
      ReachesTransitive(serial, s, t, final);
    }
  }

  ghost predicate Settled(ops: Store, i: InstanceID, todo: set<OperationID>) {
    forall o | o in todo :: Has(ops, i, o) && ops[i][o].state != InProgress
  }

  lemma {:induction false} ReachesPastScan(serial: bool, s: State, req: ProvisionRequest, todo: set<OperationID>)
    requires serial ==> s.deprov.DIdle?
    requires s.prov == PScanInProgress(req, todo) && Settled(s.ops, req.instanceID, todo)
    ensures Reaches(serial, s, s.(prov := PGetAddon(req)))
    decreases |todo|
  {
    var final := s.(prov := PGetAddon(req));
    if todo == {} {
      ReachesStep(serial, s, ProvisionScanEnd, final);
    } else {
      var o :| o in todo;
      var t := s.(prov := PScanInProgress(req, todo - {o}));
      ReachesStep(serial, s, ProvisionScan(o), t);
      ReachesPastScan(serial, t, req, todo - {o});
      ReachesTransitive(serial, s, t, final);
    }
  }

  lemma ReachesPastChecks(serial: bool, s: State, req: ProvisionRequest)
    requires serial ==> s.deprov.DIdle?
    requires s.prov == PCheckInProgress(req) && forall o :: !Active(s.ops, req.instanceID, o)
    ensures Reaches(serial, s, s.(prov := PGetAddon(req)))
  {
    var i, final := req.instanceID, s.(prov := PGetAddon(req));
    if i in s.ops {
      var t := s.(prov := PScanInProgress(req, s.ops[i].Keys));
      ReachesStep(serial, s, ProvisionReadOps, t);
      assert forall o | o in s.ops[i].Keys :: Has(s.ops, i, o) && !Active(s.ops, i, o);
      ReachesPastScan(serial, t, req, s.ops[i].Keys);
      ReachesTransitive(serial, s, t, final);
    } else {
      ReachesStep(serial, s, ProvisionReadOps, final);
    }
  }

  lemma InsertSucceeds(ops: Store, io: Operation)
    requires io.instanceID != "" && io.operationID != "" && !Has(ops, io.instanceID, io.operationID)
    requires forall o :: !Active(ops, io.instanceID, o)
    ensures InsertOp(ops, io, 0).0.Ok?
  {
    InsertSucceedsAt(ops, io, 0);
  }

  lemma InsertSucceedsAt(ops: Store, io: Operation, now: int)
    requires io.instanceID != "" && io.operationID != "" && !Has(ops, io.instanceID, io.operationID)
    requires forall o :: !Active(ops, io.instanceID, o)
    ensures InsertOp(ops, io, now).0.Ok?
  {
    if io.instanceID in ops {
      assert forall o | o in ops[io.instanceID] :: Has(ops, io.instanceID, o) && !Active(ops, io.instanceID, o);
    }
  }

  lemma InsertKeepsKeys(ops: Store, io: Operation)
    requires KeysOK(ops) && io.kind != Undefined && InsertOp(ops, io, 0).0.Ok?
    ensures KeysOK(InsertOp(ops, io, 0).1)
  {
    InsertEffect(ops, io, 0);
    hide InsertOp;
  }

  lemma InvKeys(s: State)
    requires Inv(s)
    ensures KeysOK(s.ops)
  {
  }

  lemma KeysNotEmpty(ops: Store, i: InstanceID, o: OperationID)
    requires KeysOK(ops) && Has(ops, i, o)
    ensures i != ""
  {
  }

  // ----- a whole Provision -----

  /** The first check lets a request for an instance pass that is not provisioned and has nothing in progress. */
  lemma ReachesUnprovisioned(serial: bool, s: State, req: ProvisionRequest)
    requires serial ==> s.deprov.DIdle?
    requires KeysOK(s.ops) && s.prov == PCheckProvisioned(req) && !Provisioned(s.ops, req.instanceID)
    requires forall o :: !Active(s.ops, req.instanceID, o)
    ensures Reaches(serial, s, s.(prov := PCheckInProgress(req)))
  {
    var i, final := req.instanceID, s.(prov := PCheckInProgress(req));
    if i !in s.ops {
      ReachesStep(serial, s, ProvisionReadOps, final);
    } else {
      var t := s.(prov := PScanProvisioned(req, s.ops[i].Keys, false));
      ReachesStep(serial, s, ProvisionReadOps, t);
      if gone :| HasOp(s.ops, i, gone, Remove, Succeeded) {
        ReachesStep(serial, t, ProvisionScan(gone), final);
      } else {
        forall o | o in s.ops[i].Keys
          ensures Has(s.ops, i, o) && s.ops[i][o].state != InProgress &&
                  !(s.ops[i][o].state == Succeeded && s.ops[i][o].kind != Undefined)
        {
          assert !Active(s.ops, i, o);
          assert !HasOp(s.ops, i, o, Create, Succeeded) && !HasOp(s.ops, i, o, Remove, Succeeded);
        }
        ReachesScanned(serial, t, req, s.ops[i].Keys);
      }
      ReachesTransitive(serial, s, t, final);
    }
  }

  /** The state after a Create has run to success. */
  ghost predicate CreatedBy(s: State, s': State, req: ProvisionRequest, addon: Addon, o: OperationID) {
    && s'.prov == PIdle && s'.deprov == s.deprov && s'.once == s.once
    && HasOp(s'.ops, req.instanceID, o, Create, Succeeded) && s'.ops[req.instanceID][o].parameters == req.parameters
    && Extends(s.ops, s'.ops, req.instanceID, o)
    && req.instanceID in s'.instances && req.planID in addon.plans
    && s'.instances.Keys == s.instances.Keys + {req.instanceID}
    && (forall j | j in s.instances && j != req.instanceID :: s'.instances[j] == s.instances[j])
    && s'.instances[req.instanceID].serviceID == req.serviceID
    && s'.instances[req.instanceID].releaseName ==
       CreateReleaseName(addon.name, addon.plans[req.planID], req.instanceID)
  }

  /** A request past both checks runs to success. */
  lemma ReachesFromLookup(serial: bool, s: State, addon: Addon, o: OperationID) returns (final: State)
    requires serial ==> s.deprov.DIdle?
    requires KeysOK(s.ops) && s.prov.PGetAddon? && Allows(s, s.prov.req, addon) && s.prov.req.planID in addon.plans
    requires s.prov.req.instanceID != "" && o != "" && !Has(s.ops, s.prov.req.instanceID, o)
    requires forall q :: !Active(s.ops, s.prov.req.instanceID, q)
    ensures Reaches(serial, s, final) && CreatedBy(s, final, s.prov.req, addon, o)
  {
    hide Step, Reaches, Allows, CreateReleaseName;
    var i := s.prov.req.instanceID;
    var io := NewOperation(i, o, Create, s.prov.req.parameters);
    InsertSucceeds(s.ops, io);
    InsertEffect(s.ops, io, 0);
    hide InsertOp;
    var u, record := ReachesAccepted(serial, s, addon, o);
    var v := ReachesClosing(serial, u, (i, o));
    ReachesTransitive(serial, s, u, v);
    assert KeysOK(v.ops);
    final := ReachesClosed(serial, v, (i, o));
    ReachesTransitive(serial, s, v, final);
    ExtendsTwice(s.ops, v.ops, final.ops, i, o);
  }

  lemma ExtendsTwice(ops: Store, ops': Store, ops'': Store, i: InstanceID, o: OperationID)
    requires Extends(ops, ops', i, o) && Extends(ops', ops'', i, o)
    ensures Extends(ops, ops'', i, o)
  {
  }

  /** Whoever is not provisioned, with nothing in progress, can be provisioned: the whole course of a request. */
  lemma ReachesCreated(serial: bool, s: State, req: ProvisionRequest, addon: Addon, o: OperationID)
    returns (final: State)
    requires serial ==> s.deprov.DIdle?
    requires KeysOK(s.ops) && s.prov == PIdle && req.acceptsIncomplete
    requires Allows(s, req, addon) && req.planID in addon.plans
    requires req.instanceID != "" && o != "" && !Has(s.ops, req.instanceID, o)
    requires !Provisioned(s.ops, req.instanceID) && forall q :: !Active(s.ops, req.instanceID, q)
    ensures Reaches(serial, s, final) && CreatedBy(s, final, req, addon, o)
  {
    var t, u, v := s.(prov := PCheckProvisioned(req)), s.(prov := PCheckInProgress(req)), s.(prov := PGetAddon(req));
    ReachesStep(serial, s, ProvisionBegin(req), t);
    hide Step, Reaches, CreateReleaseName, Provisioned, Extends, KeysOK, IsProvisioningAllowed;
    ReachesUnprovisioned(serial, t, req);
    ReachesTransitive(serial, s, t, u);
    ReachesPastChecks(serial, u, req);
    ReachesTransitive(serial, s, u, v);
    final := ReachesFromLookup(serial, v, addon, o);
    ReachesTransitive(serial, s, v, final);
  }

  // ----- a whole Deprovision -----

  lemma {:induction false} ReachesPastDeprovisioned(s: State, i: InstanceID, todo: set<OperationID>)
    requires s.prov.PIdle? && s.deprov == DScanDeprovisioned(i, todo)
    requires forall o | o in todo :: Has(s.ops, i, o) && !HasOp(s.ops, i, o, Remove, Succeeded)
    ensures Reaches(true, s, s.(deprov := DCheckInProgress(i)))
    decreases |todo|
  {
    var final := s.(deprov := DCheckInProgress(i));
    if todo == {} {
      ReachesStep(true, s, DeprovisionScanEnd, final);
    } else {
      var o :| o in todo;
      var t := s.(deprov := DScanDeprovisioned(i, todo - {o}));
      ReachesStep(true, s, DeprovisionScan(o), t);
      ReachesPastDeprovisioned(t, i, todo - {o});
      ReachesTransitive(true, s, t, final);
    }
  }

  lemma {:induction false} ReachesPastRemoving(s: State, i: InstanceID, todo: set<OperationID>)
    requires s.prov.PIdle? && s.deprov == DScanInProgress(i, todo)
    requires forall o | o in todo :: Has(s.ops, i, o) && !Active(s.ops, i, o)
    ensures Reaches(true, s, s.(deprov := DGetInstance(i)))
    decreases |todo|
  {
    var final := s.(deprov := DGetInstance(i));
    if todo == {} {
      ReachesStep(true, s, DeprovisionScanEnd, final);
    } else {
      var o :| o in todo;
      var t := s.(deprov := DScanInProgress(i, todo - {o}));
      ReachesStep(true, s, DeprovisionScan(o), t);
      ReachesPastRemoving(t, i, todo - {o});
      ReachesTransitive(true, s, t, final);
    }
  }

  /** Both checks of a Deprovision. */
  lemma ReachesGetInstance(s: State, i: InstanceID)
    requires s.prov.PIdle? && s.deprov.DIdle? && i in s.ops
    requires !Deprovisioned(s.ops, i) && forall o :: !Active(s.ops, i, o)
    ensures Reaches(true, s, s.(deprov := DGetInstance(i)))
  {
    var keys, final := s.ops[i].Keys, s.(deprov := DGetInstance(i));
    var t1, t2 := s.(deprov := DCheckDeprovisioned(i)), s.(deprov := DScanDeprovisioned(i, keys));
    var t3, t4 := s.(deprov := DCheckInProgress(i)), s.(deprov := DScanInProgress(i, keys));
    ReachesStep(true, s, DeprovisionBegin(DeprovisionRequest(i, true)), t1);
    ReachesStep(true, t1, DeprovisionReadOps, t2);
    ReachesStep(true, t3, DeprovisionReadOps, t4);
    assert forall o | o in keys :: Has(s.ops, i, o) && !Active(s.ops, i, o) && !HasOp(s.ops, i, o, Remove, Succeeded);
    hide Step, Reaches;
    ReachesPastDeprovisioned(t2, i, keys);
    ReachesPastRemoving(t4, i, keys);
    ReachesTransitive(true, s, t1, t2);
    ReachesTransitive(true, s, t2, t3);
    ReachesTransitive(true, s, t3, t4);
    ReachesTransitive(true, s, t4, final);
  }

  /** The state after a Remove has run to success. */
  ghost predicate RemovedBy(s: State, s': State, i: InstanceID, o: OperationID) {
    && s'.prov == s.prov && s'.deprov == s.deprov && s'.once == s.once
    && s'.instances == s.instances - {i}
    && HasOp(s'.ops, i, o, Remove, Succeeded) && Extends(s.ops, s'.ops, i, o)
  }

  lemma ReachesRemoved(s: State, i: InstanceID, o: OperationID) returns (final: State)
    requires KeysOK(s.ops) && s.prov.PIdle? && s.deprov.DIdle? && i in s.ops && i in s.instances
    requires !Deprovisioned(s.ops, i) && forall q :: !Active(s.ops, i, q)
    requires i != "" && o != "" && !Has(s.ops, i, o)
    ensures Reaches(true, s, final) && RemovedBy(s, final, i, o)
  {
    hide Step, Reaches;
    var t1 := s.(deprov := DGetInstance(i));
    ReachesGetInstance(s, i);
    var t2 := ReachesRemoving(t1, i, o);
    ReachesTransitive(true, s, t1, t2);
    hide KeysOK;
    final := ReachesRemovalDone(t2, (i, o));
    ReachesTransitive(true, s, t2, final);
    ExtendsTwice(s.ops, t2.ops, final.ops, i, o);
  }

  /** The rest of the request: the Remove is inserted and its worker started. */
  lemma ReachesRemoving(s: State, i: InstanceID, o: OperationID) returns (s': State)
    requires KeysOK(s.ops) && s.prov.PIdle? && s.deprov == DGetInstance(i) && i in s.instances
    requires i != "" && o != "" && !Has(s.ops, i, o) && forall q :: !Active(s.ops, i, q)
    ensures Reaches(true, s, s') && KeysOK(s'.ops)
    ensures s'.prov == s.prov && s'.deprov == DIdle && s'.once == s.once && s'.instances == s.instances
    ensures (i, o) in s'.workers && s'.workers[(i, o)].Deleting?
    ensures HasOp(s'.ops, i, o, Remove, InProgress) && Extends(s.ops, s'.ops, i, o)
  {
    var io := NewOperation(i, o, Remove, RequestParameters(Some(map[])));
    hide InsertOp, StepProvision, StepWorker, KeysOK, Extends;
    InsertSucceeds(s.ops, io);
    InsertEffect(s.ops, io, 0);
    InsertKeepsKeys(s.ops, io);
    var t := s.(deprov := DInsert(i, o));
    ReachesStep(true, s, DeprovisionGetInstance(Some(o)), t);
    s' := s.(ops := InsertOp(s.ops, io, 0).1, workers := s.workers[(i, o) := Deleting],
             deprov := DIdle, deprovReply := Accepted(o));
    ReachesStep(true, t, DeprovisionInsert(0), s');
    ReachesTransitive(true, s, t, s');
  }

  /** The worker of a Remove. */
  lemma ReachesRemovalDone(s: State, key: WorkerKey) returns (final: State)
    requires KeysOK(s.ops) && s.prov.PIdle? && s.deprov.DIdle?
    requires key in s.workers && s.workers[key].Deleting? && Has(s.ops, key.0, key.1)
    ensures Reaches(true, s, final)
    ensures final.prov == s.prov && final.deprov == s.deprov && final.once == s.once
    ensures final.instances == s.instances - {key.0}
    ensures Has(final.ops, key.0, key.1) && Extends(s.ops, final.ops, key.0, key.1)
    ensures final.ops[key.0][key.1] == s.ops[key.0][key.1].(state := Succeeded, description := Some(""))
  {
    var t := ReachesRecordGone(s, key);
    hide Step, Reaches;
    final := ReachesClosed(true, t, key);
    ReachesTransitive(true, s, t, final);
  }

  lemma ReachesRecordGone(s: State, key: WorkerKey) returns (s': State)
    requires s.prov.PIdle? && s.deprov.DIdle? && key in s.workers && s.workers[key].Deleting?
    ensures Reaches(true, s, s')
    ensures s' == s.(instances := s.instances - {key.0}, workers := s.workers[key := Closing(Succeeded)])
  {
    hide StepProvision, StepDeprovision;
    var t1 := s.(workers := s.workers[key := RemovingBindData]);
    var t2 := s.(workers := s.workers[key := RemovingRecord]);
    s' := s.(instances := s.instances - {key.0}, workers := s.workers[key := Closing(Succeeded)]);
    assert t1.workers[key := RemovingRecord] == t2.workers;
    assert t2.workers[key := Closing(Succeeded)] == s'.workers;
    ReachesStep(true, s, WorkerDelete(key, true), t1);
    ReachesStep(true, t1, WorkerRemoveBindData(key, true), t2);
    ReachesStep(true, t2, WorkerRemoveRecord(key), s');
    hide Step, Reaches;
    ReachesTransitive(true, s, t1, t2);
    ReachesTransitive(true, s, t2, s');
  }
}
