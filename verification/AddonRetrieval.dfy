/** The run theorems of the reconciler, read at the store: what `Get` and `GetByID` answer. */
module AddonRetrieval {
  import opened AddonsConfigurations
  import opened Reconciler
  import opened ReconcilerInvariant
  import opened ReconcilerRuns
  import opened AddonRecords
  import AddonStore
  import AddonTable

  /** A recorded pair is found by name and version, and again by the ID found with it. */
  lemma RecordedIsFound(
    t: Tables, ids: Ids, ns: string, records: map<Pair, Record>, p: Pair, v: AddonStore.Version)
    requires Keeps(t, ids, ns, records) && p in records && v.canonical == p.version && v.original != ""
    ensures var got := AddonStore.Gotten(t, ns, p.name, v).0;
            && got.Ok?
            && got.value.name == p.name && got.value.version.canonical == p.version
            && Record(got.value.id, got.value.chart) == records[p]
            && AddonStore.GottenByID(t, ns, got.value.id) == got
  {
    var e := RowOf(ns, p);
    RecordsAre(AddonTable.Rows(t, ids), ns);
    AddonTable.RowFacts(t, ids, e);
    assert AddonTable.Plain(e);
    hide Records, AddonTable.OneToOne, AddonTable.Consistent, AddonTable.Plain, AddonStore.Tidy;
    AddonTable.IdentifiedIffRow(t, ids, ns, p.name, v);
    hide AddonStore.Key;
  }

  /**
   In every reachable state, with a store in order: whatever a ready configuration lists is what `Get` returns for
   its name and version, and `GetByID` for its ID.
   */
  lemma ListedAddonsAreFound(
    run: seq<World>, actions: seq<Action>, n: nat, o: Name, p: Pair,
    t: Tables, ids: Ids, ns: string, v: AddonStore.Version)
    requires IsRun(run, actions) && n < |run| && IsReadyIn(run[n], o)
    requires p in Pairs(run[n].configs[o].status.repositories)
    requires Keeps(t, ids, ns, run[n].addons) && v.canonical == p.version && v.original != ""
    ensures p in run[n].addons
    ensures var got := AddonStore.Gotten(t, ns, p.name, v).0;
            && got.Ok?
            && got.value.name == p.name && got.value.version.canonical == p.version
            && Record(got.value.id, got.value.chart) == run[n].addons[p]
            && AddonStore.GottenByID(t, ns, got.value.id) == got
  {
    ReadyAddonsRetrievable(run, actions, n, o, p);
    hide IsRun, Keeps, AddonStore.Gotten;
    RecordedIsFound(t, ids, ns, run[n].addons, p, v);
  }
}
