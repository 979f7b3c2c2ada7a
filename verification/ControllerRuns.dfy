/**
 The code over whole runs: users' changes and the controller's reconciles, one after the other, on the two-map
 store. What the step system promises about its records is what that store answers in the end.
 */
module ControllerRuns {
  import opened AddonsConfigurations
  import opened AddonRecords
  import AddonStore
  import AddonTable
  import Retrieval = AddonRetrieval
  import R = Reconciler
  import Invariant = ReconcilerInvariant
  import opened Controller

  type Name = R.Name

  ghost predicate ProperAction(ids: Ids, ns: string, a: R.Action) {
    a.Handle? ==> ProperOutcomes(ids, ns, a.outcomes)
  }

  /** A user's change of the API objects. */
  method ChangeObjects(configs: map<Name, Configuration>, a: R.Action) returns (after: map<Name, Configuration>)
    requires !a.Handle? && (if a.Create? then a.name !in configs else a.name in configs)
    ensures forall addons, charts | R.Enabled(R.World(configs, addons, charts), a) ::
              R.Step(R.World(configs, addons, charts), a) == R.World(after, addons, charts)
    ensures forall ns | AllProper(ns, configs) :: AllProper(ns, after)
  {
    match a
    case Create(name, repositories) =>
      after := configs[name := Configuration(1, false, false, 0, repositories, Status(Unset, 0, []))];
    case Change(name, repositories, request) =>
      var c := configs[name];
      after := configs[name := c.(repositories := repositories, reprocessRequest := request,
                                  generation := c.generation + 1)];
    case Delete(name) =>
      var c := configs[name];
      after := if c.finalizer then configs[name := c.(deleting := true, generation := c.generation + 1)]
               else configs - {name};
  }

  ghost predicate AllProper(ns: string, configs: map<Name, Configuration>) {
    forall o | o in configs :: ProperStatus(ns, configs[o].status.repositories)
  }

  /** One step of anybody's. */
  method Act(c: Common, a: R.Action)
    requires c.Valid() && c.ProperConfigs() && R.Enabled(c.View(), a) && ProperAction(c.ids, c.namespace, a)
    modifies c, c.addonStorage
    ensures c.Valid() && c.ProperConfigs() && c.View() == R.Step(old(c.View()), a)
  {
    hide Keeps, ProperStatus, ProperOutcomes, R.Reconcile;
    if a.Handle? {
      c.Reconcile(a.name, a.outcomes);
    } else {
      assert AllProper(c.namespace, c.configs);
      var after := ChangeObjects(c.configs, a);
      c.configs := after;
      assert AllProper(c.namespace, c.configs);
    }
  }

  /** The code, driven by the actions of a run, ends where the run ends. */
  method Drive(namespace: string, ghost ids: Ids, actions: seq<R.Action>, ghost run: seq<R.World>) returns (c: Common)
    requires AddonTable.OneToOne(ids) && R.IsRun(run, actions)
    requires forall a | a in actions :: ProperAction(ids, namespace, a)
    ensures fresh(c) && fresh(c.addonStorage) && c.namespace == namespace && c.ids == ids
    ensures c.Valid() && c.ProperConfigs() && c.View() == run[|actions|]
  {
    hide Keeps, ProperStatus, ProperAction, R.Step, R.Enabled, AddonTable.OneToOne;
    c := new Common(namespace, ids);
    for n := 0 to |actions|
      invariant fresh(c) && fresh(c.addonStorage) && c.namespace == namespace && c.ids == ids
      invariant c.Valid() && c.ProperConfigs() && c.View() == run[n]
    {
      assert R.Enabled(run[n], actions[n]) && run[n + 1] == R.Step(run[n], actions[n]);
      Act(c, actions[n]);
    }
  }

  /**
   After every run of the code, the store answers with what a ready configuration lists: by name and version, and by
   the ID it finds with it.
   */
  method LookUpListed(
    namespace: string, ghost ids: Ids, actions: seq<R.Action>, ghost run: seq<R.World>, ghost o: Name, p: Pair)
    returns (byName: AddonStore.Result<AddonStore.Addon>, byID: AddonStore.Result<AddonStore.Addon>)
    requires AddonTable.OneToOne(ids) && R.IsRun(run, actions)
    requires forall a | a in actions :: ProperAction(ids, namespace, a)
    requires Invariant.IsReadyIn(run[|actions|], o)
    requires p in Pairs(run[|actions|].configs[o].status.repositories)
    ensures byName.Ok? && byName.value.name == p.name && byName.value.version.canonical == p.version
    ensures p in run[|actions|].addons && R.Record(byName.value.id, byName.value.chart) == run[|actions|].addons[p]
    ensures byID == byName
  {
    var c := Drive(namespace, ids, actions, run);
    assert ProperStatus(namespace, c.configs[o].status.repositories);
    assert Proper(namespace, p);
    Retrieval.ListedAddonsAreFound(
      run, actions, |actions|, o, p, c.addonStorage.Contents(), ids, namespace, VersionOf(p));
    hide Keeps, AddonStore.Gotten, R.IsRun, Proper, ProperStatus, ProperAction;
    byName := c.addonStorage.Get(namespace, p.name, VersionOf(p));
    byID := c.addonStorage.GetByID(namespace, byName.value.id);
  }
}
