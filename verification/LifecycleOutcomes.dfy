/**
 How operations end, and why: an operation succeeds only if everything its worker had to do outside succeeded,
 and fails only if something of it failed. One refusal is final.
 */
module LifecycleOutcomes {
  import opened Values
  import opened Operations
  import opened ReleaseNames
  import opened Lifecycle
  import opened LifecycleInvariant
  import opened LifecycleRuns

  /** The action has been taken among the first `n`. */
  ghost predicate Did(actions: seq<Action>, n: nat, a: Action)
    requires n <= |actions|
  {
    exists k | 0 <= k < n :: actions[k] == a
  }

  lemma DidMore(actions: seq<Action>, n: nat, a: Action)
    requires n < |actions|
    ensures Did(actions, n, a) ==> Did(actions, n + 1, a)
    ensures Did(actions, n + 1, actions[n])
  {
  }

  // ----- what has led here -----

  /** Helm has installed the release with this revision. */
  ghost predicate Installed(actions: seq<Action>, n: nat, key: WorkerKey, revision: Option<int>)
    requires n <= |actions|
  {
    revision.Some? && Did(actions, n, WorkerInstall(key, revision))
  }

  ghost predicate Uninstalled(actions: seq<Action>, n: nat, key: WorkerKey)
    requires n <= |actions|
  {
    Did(actions, n, WorkerDelete(key, true)) && Did(actions, n, WorkerRemoveBindData(key, true))
  }

  ghost predicate RemovalRefused(actions: seq<Action>, n: nat, key: WorkerKey)
    requires n <= |actions|
  {
    Did(actions, n, WorkerDelete(key, false)) || Did(actions, n, WorkerRemoveBindData(key, false))
  }

  /** Why a worker is where it is. */
  ghost predicate WorkerStory(actions: seq<Action>, n: nat, s: State, key: WorkerKey)
    requires n <= |actions| && key in s.workers
  {
    match s.workers[key]
    case Installing(_) => true
    case Recording(r) => Installed(actions, n, key, r.revision)
    case Deleting => true
    case RemovingBindData => Did(actions, n, WorkerDelete(key, true))
    case RemovingRecord => Uninstalled(actions, n, key)
    case Closing(outcome) =>
      && (HasOp(s.ops, key.0, key.1, Create, InProgress) ==>
            if outcome == Succeeded
            then key.0 in s.instances && Installed(actions, n, key, s.instances[key.0].revision)
            else Did(actions, n, WorkerInstall(key, None)))
      && (HasOp(s.ops, key.0, key.1, Remove, InProgress) ==>
            if outcome == Succeeded then Uninstalled(actions, n, key) else RemovalRefused(actions, n, key))
  }

  /** Why an operation has ended as it did. */
  ghost predicate FinishedStory(actions: seq<Action>, n: nat, ops: Store, key: WorkerKey)
    requires n <= |actions|
  {
    && (HasOp(ops, key.0, key.1, Create, Succeeded) ==> exists rev :: Did(actions, n, WorkerInstall(key, Some(rev))))
    && (HasOp(ops, key.0, key.1, Create, Failed) ==> Did(actions, n, WorkerInstall(key, None)))
    && (HasOp(ops, key.0, key.1, Remove, Succeeded) ==> Uninstalled(actions, n, key))
    && (HasOp(ops, key.0, key.1, Remove, Failed) ==> RemovalRefused(actions, n, key))
  }

  // ----- a worker's own steps -----

  predicate OwnAction(a: Action, key: WorkerKey) {
    OfWorker(a) && a.key == key
  }

  lemma CreatorStory(actions: seq<Action>, n: nat, s: State, s': State, key: WorkerKey)
    requires n < |actions| && StepWorker(s, actions[n]) == Some(s') && key in s.workers && actions[n].key == key
    requires (actions[n].WorkerInstall? || actions[n].WorkerRecord?) && WorkerStory(actions, n, s, key)
    requires WorkerOK(s.ops, s.instances, key, s.workers[key])
    ensures key in s'.workers && WorkerStory(actions, n + 1, s', key)
  {
    hide Did;
    DidMore(actions, n, actions[n]);
    if s.workers[key].Recording? {
      DidMore(actions, n, WorkerInstall(key, s.workers[key].record.revision));
    }
  }

  lemma RemoverStory(actions: seq<Action>, n: nat, s: State, s': State, key: WorkerKey)
    requires n < |actions| && StepWorker(s, actions[n]) == Some(s') && key in s.workers && actions[n].key == key
    requires actions[n].WorkerDelete? || actions[n].WorkerRemoveBindData? || actions[n].WorkerRemoveRecord?
    requires WorkerStory(actions, n, s, key) && WorkerOK(s.ops, s.instances, key, s.workers[key])
    ensures key in s'.workers && WorkerStory(actions, n + 1, s', key)
  {
    hide Did;
    DidMore(actions, n, actions[n]);
    DidMore(actions, n, WorkerDelete(key, true));
    DidMore(actions, n, WorkerRemoveBindData(key, true));
  }

  lemma ClosedStory(actions: seq<Action>, n: nat, s: State, s': State, key: WorkerKey)
    requires Inv(s) && n < |actions| && Step(s, actions[n]) == Some(s')
    requires actions[n].WorkerClose? && actions[n].key == key
    requires key in s.workers && WorkerStory(actions, n, s, key)
    ensures FinishedStory(actions, n + 1, s'.ops, key)
  {
    assert WorkerOK(s.ops, s.instances, key, s.workers[key]);
    assert KeysOK(s.ops);
    hide Inv, StepProvision, StepDeprovision, KeysOK, WorkerStory, FinishedStory;
    UpdateEffect(s.ops, key.0, key.1, s.workers[key].outcome, Some(actions[n].description));
    assert s'.ops == UpdateOp(s.ops, key.0, key.1, s.workers[key].outcome, Some(actions[n].description)).1;
    hide UpdateOp, Extends, Step;
    StoryEnds(actions, n, s, s'.ops, key);
  }

  lemma StoryEnds(actions: seq<Action>, n: nat, s: State, ops: Store, key: WorkerKey)
    requires n < |actions| && key in s.workers && s.workers[key].Closing? && WorkerStory(actions, n, s, key)
    requires Active(s.ops, key.0, key.1) && Has(ops, key.0, key.1)
    requires ops[key.0][key.1].kind == s.ops[key.0][key.1].kind
    requires ops[key.0][key.1].state == s.workers[key].outcome
    ensures FinishedStory(actions, n + 1, ops, key)
  {
    MoreStories(actions, n, key);
    hide Did, Uninstalled, RemovalRefused;
    if key.0 in s.instances && s.instances[key.0].revision.Some? {
      DidMore(actions, n, WorkerInstall(key, s.instances[key.0].revision));
      var rev := s.instances[key.0].revision.value;
      assert Did(actions, n, WorkerInstall(key, Some(rev))) ==> Did(actions, n + 1, WorkerInstall(key, Some(rev)));
    }
  }

  lemma MoreStories(actions: seq<Action>, n: nat, key: WorkerKey)
    requires n < |actions|
    ensures Did(actions, n, WorkerInstall(key, None)) ==> Did(actions, n + 1, WorkerInstall(key, None))
    ensures Uninstalled(actions, n, key) ==> Uninstalled(actions, n + 1, key)
    ensures RemovalRefused(actions, n, key) ==> RemovalRefused(actions, n + 1, key)
    ensures Did(actions, n, WorkerDelete(key, true)) ==> Did(actions, n + 1, WorkerDelete(key, true))
    ensures forall rev :: Installed(actions, n, key, rev) ==> Installed(actions, n + 1, key, rev)
  {
  }

  // ----- everybody else's -----

  /** No other action touches the worker, its operation or, while it is at work, its instance's record. */
  lemma OthersLeaveWorker(s: State, a: Action, s': State, key: WorkerKey)
    requires Inv(s) && Step(s, a) == Some(s') && !OwnAction(a, key)
    ensures key in s'.workers && key !in s.workers ==> s'.workers[key].Installing? || s'.workers[key].Deleting?
    ensures key in s.workers ==>
              && key in s'.workers && s'.workers[key] == s.workers[key]
              && Has(s.ops, key.0, key.1) && Has(s'.ops, key.0, key.1)
              && s'.ops[key.0][key.1] == s.ops[key.0][key.1]
              && (key.0 in s'.instances <==> key.0 in s.instances)
              && (key.0 in s.instances ==> s'.instances[key.0] == s.instances[key.0])
  {
    hide Step;
    WorkersElsewhere(s, a, s', key);
    if key in s.workers {
      assert WorkerOK(s.ops, s.instances, key, s.workers[key]);
      assert Active(s.ops, key.0, key.1);
      hide Inv, WorkerOK;
      OperationOfOthers(s, a, s', key);
      StoresUntouched(s, a, s');
      if WritesInstances(a) {
        var writer := RecordWriter(s, a, s');
        WritersDiffer(s, a, s', key, writer);
      }
    }
  }

  lemma WorkersElsewhere(s: State, a: Action, s': State, key: WorkerKey)
    requires Inv(s) && Step(s, a) == Some(s') && !OwnAction(a, key)
    ensures key in s'.workers && key !in s.workers ==> s'.workers[key].Installing? || s'.workers[key].Deleting?
    ensures key in s.workers ==> key in s'.workers && s'.workers[key] == s.workers[key]
  {
    hide Inv, Step;
    if a.ProvisionUpsert? {
      UpsertWorkers(s, s', key);
    } else if a.DeprovisionInsert? {
      RemovalWorkers(s, a.now, s', key);
    } else {
      QuietWorkers(s, a, s', key);
    }
  }

  lemma UpsertWorkers(s: State, s': State, key: WorkerKey)
    requires Inv(s) && Step(s, ProvisionUpsert) == Some(s')
    ensures key in s'.workers && key !in s.workers ==> s'.workers[key].Installing?
    ensures key in s.workers ==> key in s'.workers && s'.workers[key] == s.workers[key]
  {
    hide NamedFor, CreateReleaseName, StepDeprovision, StepWorker;
    assert s.prov.PUpsert?;
    assert OwnedByRequest(s, s.prov.req, s.prov.op);
    hide Inv;
  }

  lemma RemovalWorkers(s: State, now: int, s': State, key: WorkerKey)
    requires Inv(s) && Step(s, DeprovisionInsert(now)) == Some(s')
    ensures key in s'.workers && key !in s.workers ==> s'.workers[key].Deleting?
    ensures key in s.workers ==> key in s'.workers && s'.workers[key] == s.workers[key]
  {
    InsertEffect(s.ops, NewOperation(s.deprov.i, s.deprov.op, Remove, RequestParameters(Some(map[]))), now);
    assert key in s.workers ==> Active(s.ops, key.0, key.1) by {
      assert key in s.workers ==> WorkerOK(s.ops, s.instances, key, s.workers[key]);
    }
    hide Inv, InsertOp, StepProvision, StepWorker, Extends;
  }

  lemma QuietWorkers(s: State, a: Action, s': State, key: WorkerKey)
    requires Step(s, a) == Some(s') && !OwnAction(a, key) && !a.ProvisionUpsert? && !a.DeprovisionInsert?
    ensures key in s'.workers <==> key in s.workers
    ensures key in s.workers ==> s'.workers[key] == s.workers[key]
  {
    hide InsertOp, UpdateOp, CreateReleaseName, IsProvisioningAllowed;
    if OfWorker(a) {
      hide StepProvision, StepDeprovision;
    } else {
      hide StepWorker;
    }
  }

  /** Only its own worker changes an operation in any way. */
  lemma OperationOfOthers(s: State, a: Action, s': State, key: WorkerKey)
    requires Inv(s) && Step(s, a) == Some(s') && !OwnAction(a, key) && Has(s.ops, key.0, key.1)
    ensures Has(s'.ops, key.0, key.1) && s'.ops[key.0][key.1] == s.ops[key.0][key.1]
  {
    if a.WorkerClose? {
      hide Inv, StepProvision, StepDeprovision;
      OtherClose(s, a.key, a.description, s', key);
    } else {
      hide Step, Inv;
      if a.ProvisionInsert? || a.DeprovisionInsert? {
        InsertsBeside(s, a, s', key);
      } else {
        StoresUntouched(s, a, s');
      }
    }
  }

  lemma OtherClose(s: State, closed: WorkerKey, description: string, s': State, key: WorkerKey)
    requires Inv(s) && StepWorkerClose(s, closed, description) == Some(s') && closed != key
    requires Has(s.ops, key.0, key.1)
    ensures Has(s'.ops, key.0, key.1) && s'.ops[key.0][key.1] == s.ops[key.0][key.1]
  {
    assert KeysOK(s.ops);
    WorkerIsActive(s, closed);
    hide Inv, KeysOK;
    UpdateEffect(s.ops, closed.0, closed.1, s.workers[closed].outcome, Some(description));
    hide UpdateOp;
  }

  lemma InsertsBeside(s: State, a: Action, s': State, key: WorkerKey)
    requires Step(s, a) == Some(s') && (a.ProvisionInsert? || a.DeprovisionInsert?) && Has(s.ops, key.0, key.1)
    ensures Has(s'.ops, key.0, key.1) && s'.ops[key.0][key.1] == s.ops[key.0][key.1]
  {
    hide StepWorker, NamedFor, CreateReleaseName;
    if a.DeprovisionInsert? {
      InsertEffect(s.ops, NewOperation(s.deprov.i, s.deprov.op, Remove, RequestParameters(Some(map[]))), a.now);
      hide InsertOp, StepProvision;
    } else if a.newID.Some? {
      InsertEffect(s.ops, NewOperation(s.prov.req.instanceID, a.newID.value, Create, s.prov.req.parameters), a.now);
      hide InsertOp, StepDeprovision;
    } else {
      hide InsertOp, StepDeprovision;
    }
  }

  /** Whoever writes a record is at work for that instance, and so alone. */
  lemma WritersDiffer(s: State, a: Action, s': State, key: WorkerKey, writer: WorkerKey)
    requires Inv(s) && Step(s, a) == Some(s') && WritesInstances(a) && !OwnAction(a, key)
    requires key in s.workers && Active(s.ops, key.0, key.1)
    requires HasOp(s.ops, writer.0, writer.1, if a.WorkerRemoveRecord? then Remove else Create, InProgress)
    requires if a.ProvisionUpsert? then s.prov.PUpsert? && writer == (s.prov.req.instanceID, s.prov.op)
             else writer == a.key
    ensures writer.0 != key.0
  {
    hide NamedFor, CreateReleaseName;
    assert Active(s.ops, writer.0, writer.1) && OneActive(s.ops);
    if a.ProvisionUpsert? {
      assert RequestOK(s);
      assert OwnedByRequest(s, s.prov.req, s.prov.op);
    }
    hide Inv;
  }

  // ----- every run -----

  lemma StoryStep(states: seq<State>, actions: seq<Action>, n: nat, key: WorkerKey)
    requires IsRun(states, actions) && n < |actions|
    requires key in states[n].workers ==> WorkerStory(actions, n, states[n], key)
    ensures key in states[n + 1].workers ==> WorkerStory(actions, n + 1, states[n + 1], key)
  {
    var s, a, s' := states[n], actions[n], states[n + 1];
    assert Step(s, a) == Some(s');
    RunKeeps(states, actions, n);
    if OwnAction(a, key) {
      OwnStory(actions, n, s, s', key);
    } else {
      hide Step, Inv, IsRun;
      OthersLeaveWorker(s, a, s', key);
      OtherStory(actions, n, s, s', key);
    }
  }

  lemma OwnStory(actions: seq<Action>, n: nat, s: State, s': State, key: WorkerKey)
    requires Inv(s) && n < |actions| && Step(s, actions[n]) == Some(s') && OwnAction(actions[n], key)
    requires key in s.workers ==> WorkerStory(actions, n, s, key)
    ensures key in s'.workers ==> WorkerStory(actions, n + 1, s', key)
  {
    OwnWorker(s, actions[n], s', key);
    if key in s'.workers {
      assert WorkerOK(s.ops, s.instances, key, s.workers[key]);
      hide Inv, WorkerStory, WorkerOK;
      if actions[n].WorkerInstall? || actions[n].WorkerRecord? {
        CreatorStory(actions, n, s, s', key);
      } else {
        RemoverStory(actions, n, s, s', key);
      }
    }
  }

  lemma OwnWorker(s: State, a: Action, s': State, key: WorkerKey)
    requires Step(s, a) == Some(s') && OwnAction(a, key)
    ensures key in s.workers && (key in s'.workers <==> !a.WorkerClose?)
  {
    hide StepProvision, StepDeprovision, UpdateOp;
  }

  lemma OtherStory(actions: seq<Action>, n: nat, s: State, s': State, key: WorkerKey)
    requires n < |actions|
    requires key in s.workers ==> WorkerStory(actions, n, s, key)
    requires key in s'.workers && key !in s.workers ==> s'.workers[key].Installing? || s'.workers[key].Deleting?
    requires key in s.workers ==>
              && key in s'.workers && s'.workers[key] == s.workers[key]
              && Has(s.ops, key.0, key.1) && Has(s'.ops, key.0, key.1)
              && s'.ops[key.0][key.1] == s.ops[key.0][key.1]
              && (key.0 in s'.instances <==> key.0 in s.instances)
              && (key.0 in s.instances ==> s'.instances[key.0] == s.instances[key.0])
    ensures key in s'.workers ==> WorkerStory(actions, n + 1, s', key)
  {
    MoreStories(actions, n, key);
    hide Did, Installed, Uninstalled, RemovalRefused;
  }

  lemma {:induction false} RunStories(states: seq<State>, actions: seq<Action>, n: nat, key: WorkerKey)
    requires IsRun(states, actions) && n < |states|
    ensures key in states[n].workers ==> WorkerStory(actions, n, states[n], key)
  {
    hide Step, WorkerStory;
    if n > 0 {
      RunStories(states, actions, n - 1, key);
      StoryStep(states, actions, n - 1, key);
    }
  }

  /**
   In every reachable state: a Create has succeeded only if Helm installed its release, and failed only if that was
   refused; a Remove has succeeded only if Helm and the bind data let go, and failed only if one of them did not.
   */
  lemma {:induction false} RunFinished(states: seq<State>, actions: seq<Action>, n: nat, i: InstanceID, o: OperationID)
    requires IsRun(states, actions) && n < |states|
    ensures FinishedStory(actions, n, states[n].ops, (i, o))
  {
    hide Step, Inv, WorkerStory, Did, Uninstalled, RemovalRefused;
    if n > 0 {
      var s, a, s' := states[n - 1], actions[n - 1], states[n];
      assert Step(s, a) == Some(s');
      RunKeeps(states, actions, n - 1);
      RunFinished(states, actions, n - 1, i, o);
      RunStories(states, actions, n - 1, (i, o));
      OperationStep(s, a, s', i, o);
      if a.WorkerClose? && a.key == (i, o) {
        OwnWorker(s, a, s', (i, o));
        ClosedStory(actions, n - 1, s, s', (i, o));
      } else {
        MoreFinished(actions, n - 1, s.ops, s'.ops, (i, o));
      }
    }
  }

  lemma MoreFinished(actions: seq<Action>, n: nat, ops: Store, ops': Store, key: WorkerKey)
    requires n < |actions| && FinishedStory(actions, n, ops, key)
    requires Has(ops', key.0, key.1) ==>
               ops'[key.0][key.1].state == InProgress ||
               (Has(ops, key.0, key.1) && ops[key.0][key.1].kind == ops'[key.0][key.1].kind
                && ops[key.0][key.1].state == ops'[key.0][key.1].state)
    ensures FinishedStory(actions, n + 1, ops', key)
  {
    MoreStories(actions, n, key);
    forall rev ensures Did(actions, n, WorkerInstall(key, rev)) ==> Did(actions, n + 1, WorkerInstall(key, rev)) {
      DidMore(actions, n, WorkerInstall(key, rev));
    }
    hide Did, Uninstalled, RemovalRefused;
  }

  /** When a Create becomes succeeded, the record carries the revision Helm reported. */
  lemma SucceededWithRevision(states: seq<State>, actions: seq<Action>, n: nat, i: InstanceID, o: OperationID)
    requires IsRun(states, actions) && n < |actions|
    requires HasOp(states[n].ops, i, o, Create, InProgress) && HasOp(states[n + 1].ops, i, o, Create, Succeeded)
    ensures i in states[n + 1].instances
    ensures Installed(actions, n, (i, o), states[n + 1].instances[i].revision)
  {
    hide Step, Inv, Installed, Uninstalled, Did;
    RunKeeps(states, actions, n);
    RunStories(states, actions, n, (i, o));
    assert Step(states[n], actions[n]) == Some(states[n + 1]);
    FinishedByOwnWorker(states[n], actions[n], states[n + 1], i, o);
    OperationStep(states[n], actions[n], states[n + 1], i, o);
  }

  // ----- what will come of it -----

  /** The worker can only end this way. */
  predicate Destined(w: Worker, outcome: OperationState) {
    match w
    case Recording(_) => outcome == Succeeded
    case RemovingRecord => outcome == Succeeded
    case Closing(o) => outcome == o
    case _ => false
  }

  predicate DestinedOrDone(s: State, key: WorkerKey, outcome: OperationState) {
    && Has(s.ops, key.0, key.1)
    && if key in s.workers then Destined(s.workers[key], outcome)
       else s.ops[key.0][key.1].state == outcome
  }

  lemma DestinedStep(s: State, a: Action, s': State, key: WorkerKey, outcome: OperationState)
    requires Inv(s) && Step(s, a) == Some(s') && DestinedOrDone(s, key, outcome) && outcome != InProgress
    ensures DestinedOrDone(s', key, outcome)
  {
    if OwnAction(a, key) {
      DestinedOwnStep(s, a, s', key, outcome);
    } else {
      hide Step, Inv;
      OthersLeaveWorker(s, a, s', key);
      OperationOfOthers(s, a, s', key);
      if key !in s.workers {
        FinishedHasNoWorker(s, a, s', key);
      }
    }
  }

  lemma DestinedOwnStep(s: State, a: Action, s': State, key: WorkerKey, outcome: OperationState)
    requires Inv(s) && Step(s, a) == Some(s') && OwnAction(a, key)
    requires DestinedOrDone(s, key, outcome) && outcome != InProgress
    ensures DestinedOrDone(s', key, outcome)
  {
    hide Inv, StepProvision, StepDeprovision, KeysOK;
    if a.WorkerClose? {
      DestinedClose(s, a.description, s', key, outcome);
    } else {
      hide UpdateOp;
    }
  }

  lemma DestinedClose(s: State, description: string, s': State, key: WorkerKey, outcome: OperationState)
    requires Inv(s) && StepWorkerClose(s, key, description) == Some(s')
    requires DestinedOrDone(s, key, outcome) && outcome != InProgress
    ensures DestinedOrDone(s', key, outcome)
  {
    assert KeysOK(s.ops);
    hide Inv, KeysOK;
    UpdateEffect(s.ops, key.0, key.1, s.workers[key].outcome, Some(description));
    hide UpdateOp, Extends;
  }

  lemma WorkerIsActive(s: State, key: WorkerKey)
    requires Inv(s)
    ensures key in s.workers ==> Active(s.ops, key.0, key.1)
  {
    assert key in s.workers ==> WorkerOK(s.ops, s.instances, key, s.workers[key]);
  }

  /** Nobody starts a worker for an operation that has ended. */
  lemma FinishedHasNoWorker(s: State, a: Action, s': State, key: WorkerKey)
    requires Inv(s) && Step(s, a) == Some(s') && key !in s.workers
    requires Has(s.ops, key.0, key.1) && s.ops[key.0][key.1].state != InProgress
    requires Has(s'.ops, key.0, key.1) && s'.ops[key.0][key.1] == s.ops[key.0][key.1]
    ensures key !in s'.workers
  {
    hide Step, Inv;
    StepKeeps(s, a, s');
    WorkerIsActive(s', key);
  }

  lemma {:induction false} DestinedRun(
    states: seq<State>, actions: seq<Action>, m: nat, n: nat, key: WorkerKey, outcome: OperationState)
    requires IsRun(states, actions) && m <= n < |states| && outcome != InProgress
    requires DestinedOrDone(states[m], key, outcome)
    ensures DestinedOrDone(states[n], key, outcome)
  {
    hide Step, Inv, DestinedOrDone;
    if m < n {
      DestinedRun(states, actions, m, n - 1, key, outcome);
      RunKeeps(states, actions, n - 1);
      assert Step(states[n - 1], actions[n - 1]) == Some(states[n]);
      DestinedStep(states[n - 1], actions[n - 1], states[n], key, outcome);
    }
  }

  /** What the worker was told decides how the operation ends. */
  function Verdict(a: Action): Option<OperationState> {
    match a
    case WorkerInstall(_, release) => Some(if release.Some? then Succeeded else Failed)
    case WorkerDelete(_, ok) => if ok then None else Some(Failed)
    case WorkerRemoveBindData(_, ok) => Some(if ok then Succeeded else Failed)
    case _ => None
  }

  lemma VerdictDestines(s: State, a: Action, s': State)
    requires Inv(s) && Step(s, a) == Some(s') && Verdict(a).Some?
    ensures a.key in s'.workers && DestinedOrDone(s', a.key, Verdict(a).value)
  {
    hide StepProvision, StepDeprovision, NamedFor;
    assert WorkerOK(s.ops, s.instances, a.key, s.workers[a.key]);
    hide Inv;
  }

  /**
   In every run: after Helm has refused to install a Create's release the Create never succeeds, and is failed as soon
   as its worker has closed it; after it has installed the release the Create never fails. A Remove that Helm or the
   bind data refused never succeeds, one that both let go never fails.
   */
  lemma EndsAsTold(states: seq<State>, actions: seq<Action>, k: nat, n: nat)
    requires IsRun(states, actions) && k < n < |states| && Verdict(actions[k]).Some?
    ensures var key := actions[k].key;
            && Has(states[n].ops, key.0, key.1)
            && (if key in states[n].workers then states[n].ops[key.0][key.1].state == InProgress
                else states[n].ops[key.0][key.1].state == Verdict(actions[k]).value)
  {
    hide Step;
    assert Step(states[k], actions[k]) == Some(states[k + 1]);
    RunKeeps(states, actions, k);
    RunKeeps(states, actions, n);
    var key := actions[k].key;
    assert key in states[n].workers ==> WorkerOK(states[n].ops, states[n].instances, key, states[n].workers[key]);
    hide Inv;
    VerdictDestines(states[k], actions[k], states[k + 1]);
    DestinedRun(states, actions, k + 1, n, key, Verdict(actions[k]).value);
  }

  // ----- a Remove that fails -----

  /** Only the last step of its own worker removes the record of an instance that is being removed. */
  lemma RecordUnderRemove(s: State, a: Action, s': State, i: InstanceID, o: OperationID)
    requires Inv(s) && Step(s, a) == Some(s') && HasOp(s.ops, i, o, Remove, InProgress)
    requires a != WorkerRemoveRecord((i, o))
    ensures i in s'.instances <==> i in s.instances
    ensures i in s.instances ==> s'.instances[i] == s.instances[i]
  {
    hide Step;
    StoresUntouched(s, a, s');
    if WritesInstances(a) {
      var writer := RecordWriter(s, a, s');
      assert Active(s.ops, writer.0, writer.1) && Active(s.ops, i, o) && OneActive(s.ops);
      hide Inv;
      assert writer.0 == i ==> writer.1 == o;
    }
  }

  /** From its insertion to its failure, a Remove leaves the record as it was. */
  lemma {:induction false} FailedRemoveKeepsRecord(
    states: seq<State>, actions: seq<Action>, m: nat, n: nat, i: InstanceID, o: OperationID)
    requires IsRun(states, actions) && m <= n < |states|
    requires HasOp(states[m].ops, i, o, Remove, InProgress)
    requires HasOp(states[n].ops, i, o, Remove, InProgress) || n == m + 1
    requires forall k | m <= k < n :: actions[k] != WorkerRemoveRecord((i, o))
    ensures i in states[n].instances <==> i in states[m].instances
    ensures i in states[m].instances ==> states[n].instances[i] == states[m].instances[i]
    decreases n
  {
    hide Step, Inv;
    if m < n {
      RunKeeps(states, actions, n - 1);
      assert Step(states[n - 1], actions[n - 1]) == Some(states[n]);
      StillRemoving(states, actions, m, n - 1, n, i, o);
      FailedRemoveKeepsRecord(states, actions, m, n - 1, i, o);
      RecordUnderRemove(states[n - 1], actions[n - 1], states[n], i, o);
    }
  }

  lemma StillRemoving(
    states: seq<State>, actions: seq<Action>, m: nat, k: nat, n: nat, i: InstanceID, o: OperationID)
    requires IsRun(states, actions) && m <= k < n < |states| && HasOp(states[m].ops, i, o, Remove, InProgress)
    requires HasOp(states[n].ops, i, o, Remove, InProgress) || k == m
    ensures HasOp(states[k].ops, i, o, Remove, InProgress)
  {
    hide Step;
    OperationChangesOnce(states, actions, m, k, i, o);
    if k != m {
      OperationChangesOnce(states, actions, k, n, i, o);
    }
  }

  /** When a Remove becomes failed, the record is what it was when the Remove was inserted. */
  lemma RecordSurvivesFailure(
    states: seq<State>, actions: seq<Action>, m: nat, n: nat, i: InstanceID, o: OperationID)
    requires IsRun(states, actions) && m <= n < |actions|
    requires HasOp(states[m].ops, i, o, Remove, InProgress)
    requires HasOp(states[n].ops, i, o, Remove, InProgress) && HasOp(states[n + 1].ops, i, o, Remove, Failed)
    ensures i in states[n + 1].instances <==> i in states[m].instances
    ensures i in states[m].instances ==> states[n + 1].instances[i] == states[m].instances[i]
  {
    hide Step, Inv;
    RunKeeps(states, actions, n);
    assert Step(states[n], actions[n]) == Some(states[n + 1]);
    FinishedByOwnWorker(states[n], actions[n], states[n + 1], i, o);
    forall k | m <= k < n ensures actions[k] != WorkerRemoveRecord((i, o)) {
      if actions[k] == WorkerRemoveRecord((i, o)) {
        RunKeeps(states, actions, k);
        assert Step(states[k], actions[k]) == Some(states[k + 1]);
        RemovedRecordSucceeds(states[k], states[k + 1], (i, o));
        DestinedRun(states, actions, k + 1, n + 1, (i, o), Succeeded);
        RunKeeps(states, actions, n + 1);
        WorkerIsActive(states[n + 1], (i, o));
        assert false;
      }
    }
    FailedRemoveKeepsRecord(states, actions, m, n, i, o);
  }

  lemma RemovedRecordSucceeds(s: State, s': State, key: WorkerKey)
    requires Inv(s) && Step(s, WorkerRemoveRecord(key)) == Some(s')
    ensures DestinedOrDone(s', key, Succeeded)
  {
    hide StepProvision, StepDeprovision, NamedFor;
    assert WorkerOK(s.ops, s.instances, key, s.workers[key]);
    hide Inv;
  }
}
