/**
 Which operations can still finish. An operation in progress can, as long as somebody owns it: a worker, or a
 request that will find its plan. Nothing else ever finishes it.
 */
module LifecycleFinish {
  import opened Values
  import opened Operations
  import opened ReleaseNames
  import opened Lifecycle
  import opened LifecycleInvariant
  import opened LifecycleRuns
  import opened LifecycleReach

  /** The request that inserted the operation is about to find that the plan is missing. */
  predicate Doomed(s: State, i: InstanceID, o: OperationID) {
    s.prov.PFindPlan? && InRequest(s, i, o) && s.prov.req.planID !in s.prov.addon.plans
  }

  /** Nobody will finish it. */
  predicate Stuck(s: State, i: InstanceID, o: OperationID) {
    Active(s.ops, i, o) && (Orphaned(s, i, o) || Doomed(s, i, o))
  }

  ghost predicate Finished(s: State, i: InstanceID, o: OperationID) {
    Has(s.ops, i, o) && !Active(s.ops, i, o)
  }

  // ----- who is stuck stays so -----

  lemma DoomedStep(s: State, a: Action, s': State, i: InstanceID, o: OperationID)
    requires Inv(s) && Step(s, a) == Some(s') && Active(s.ops, i, o) && Doomed(s, i, o)
    ensures Stuck(s', i, o)
  {
    hide CreateReleaseName, NamedFor;
    assert OwnedByRequest(s, s.prov.req, o);
    if a.ProvisionFindPlan? {
      MissingPlanOrphans(s, s');
    } else {
      DoomedPhaseStays(s, a, s');
      hide Step, Inv;
      OperationStep(s, a, s', i, o);
    }
  }

  lemma DoomedPhaseStays(s: State, a: Action, s': State)
    requires Step(s, a) == Some(s') && s.prov.PFindPlan? && !a.ProvisionFindPlan?
    ensures s'.prov == s.prov
  {
    if OfDeprovision(a) {
      DeprovisionKeepsStores(s, a, s');
    } else if OfWorker(a) {
      WorkerKeepsStores(s, a, s');
    } else {
      hide StepDeprovision, StepWorker;
    }
  }

  lemma StuckStep(s: State, a: Action, s': State, i: InstanceID, o: OperationID)
    requires Inv(s) && Step(s, a) == Some(s') && Stuck(s, i, o)
    ensures Stuck(s', i, o)
  {
    hide Step, Inv;
    if Orphaned(s, i, o) {
      OrphanStep(s, a, s', i, o);
    } else {
      DoomedStep(s, a, s', i, o);
    }
  }

  lemma {:induction false} ExecStuck(s: State, actions: seq<Action>, i: InstanceID, o: OperationID)
    requires Inv(s) && Stuck(s, i, o) && Exec(false, s, actions).Some?
    ensures Stuck(Exec(false, s, actions).value, i, o)
    decreases |actions|
  {
    hide Step, Inv, Stuck;
    if actions != [] {
      var s' := Step(s, actions[0]).value;
      StuckStep(s, actions[0], s', i, o);
      StepKeeps(s, actions[0], s');
      ExecStuck(s', actions[1..], i, o);
    }
  }

  // ----- everybody else can finish -----

  /** The last step of a worker. */
  lemma ClosingFinishes(s: State, key: WorkerKey) returns (final: State)
    requires Inv(s) && key in s.workers && s.workers[key].Closing?
    ensures Reaches(false, s, final) && Finished(final, key.0, key.1)
  {
    hide StepProvision, StepDeprovision, NamedFor;
    assert WorkerOK(s.ops, s.instances, key, s.workers[key]);
    InvKeys(s);
    hide Inv;
    UpdateEffect(s.ops, key.0, key.1, s.workers[key].outcome, Some(""));
    final := Step(s, WorkerClose(key, "")).value;
    ReachesStep(false, s, WorkerClose(key, ""), final);
  }

  /** Every other worker has a next step that brings it closer. */
  lemma WorkerAdvances(s: State, key: WorkerKey) returns (a: Action, s': State)
    requires key in s.workers && !s.workers[key].Closing?
    ensures Step(s, a) == Some(s') && key in s'.workers && Left(s'.workers[key]) < Left(s.workers[key])
  {
    hide StepProvision, StepDeprovision;
    match s.workers[key]
    case Installing(_) => a := WorkerInstall(key, Some(1)); s' := Step(s, a).value;
    case Recording(_) => a := WorkerRecord(key); s' := Step(s, a).value;
    case Deleting => a := WorkerDelete(key, true); s' := Step(s, a).value;
    case RemovingBindData => a := WorkerRemoveBindData(key, true); s' := Step(s, a).value;
    case RemovingRecord => a := WorkerRemoveRecord(key); s' := Step(s, a).value;
  }

  /** How many steps a worker has left before the last one. */
  function Left(w: Worker): nat {
    match w
    case Installing(_) => 2
    case Recording(_) => 1
    case Deleting => 3
    case RemovingBindData => 2
    case RemovingRecord => 1
    case Closing(_) => 0
  }

  lemma {:induction false} WorkerFinishes(s: State, key: WorkerKey) returns (final: State)
    requires Inv(s) && key in s.workers
    ensures Reaches(false, s, final) && Finished(final, key.0, key.1)
    decreases Left(s.workers[key])
  {
    hide Step, Inv, Reaches;
    if s.workers[key].Closing? {
      final := ClosingFinishes(s, key);
    } else {
      var a, s' := WorkerAdvances(s, key);
      StepKeeps(s, a, s');
      ReachesStep(false, s, a, s');
      final := WorkerFinishes(s', key);
      ReachesTransitive(false, s, s', final);
    }
  }

  /** A request whose plan is there hands its Create to a worker. */
  lemma RequestHandsOver(s: State, i: InstanceID, o: OperationID) returns (s': State)
    requires InRequest(s, i, o) && !Doomed(s, i, o)
    ensures Reaches(false, s, s') && (i, o) in s'.workers
  {
    hide CreateReleaseName;
    if s.prov.PFindPlan? {
      var t, _ := ReachesWorker(false, s);
      s' := t;
    } else {
      s' := Step(s, ProvisionUpsert).value;
      ReachesStep(false, s, ProvisionUpsert, s');
    }
  }

  lemma OwnedFinishes(s: State, i: InstanceID, o: OperationID) returns (final: State)
    requires Inv(s) && Active(s.ops, i, o) && !Stuck(s, i, o)
    ensures Reaches(false, s, final) && Finished(final, i, o)
  {
    hide Inv, Reaches, Step;
    if (i, o) in s.workers {
      final := WorkerFinishes(s, (i, o));
    } else {
      var t := RequestHandsOver(s, i, o);
      ReachesKeeps(false, s, t);
      final := WorkerFinishes(t, (i, o));
      ReachesTransitive(false, s, t, final);
    }
  }

  /**
   In every reachable state an operation in progress can still finish if and only if it is neither orphaned nor held
   by a request whose plan is missing.
   */
  lemma FinishableIff(states: seq<State>, actions: seq<Action>, n: nat, i: InstanceID, o: OperationID)
    requires IsRun(states, actions) && n < |states| && Active(states[n].ops, i, o)
    ensures (exists final :: Reaches(false, states[n], final) && Finished(final, i, o)) <==>
            !Orphaned(states[n], i, o) && !Doomed(states[n], i, o)
  {
    RunKeeps(states, actions, n);
    hide Step, Inv, IsRun;
    if Stuck(states[n], i, o) {
      forall final | Reaches(false, states[n], final) ensures !Finished(final, i, o) {
        var rest :| Exec(false, states[n], rest) == Some(final);
        ExecStuck(states[n], rest, i, o);
      }
    } else {
      var final := OwnedFinishes(states[n], i, o);
    }
  }
}
