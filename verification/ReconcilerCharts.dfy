/** Charts: removing an addon removes its chart, which hurts nobody as long as no two addons share one. */
module ReconcilerCharts {
  import opened AddonsConfigurations
  import opened Collections
  import opened CollectionReview
  import opened Reconciler
  import opened ReconcilerEffects
  import opened ReconcilerInvariant
  import opened ReconcilerRuns

  type Owner = map<Chart, Pair>

  predicate Owns(owner: Owner, p: Pair, chart: Chart) {
    chart in owner && owner[chart] == p
  }

  ghost predicate StoreOwned(addons: map<Pair, Record>, owner: Owner) {
    forall p | p in addons :: Owns(owner, p, addons[p].chart)
  }

  /** The chart of the addon is there. */
  predicate HasChart(w: World, p: Pair) {
    p in w.addons && w.addons[p].chart in w.charts
  }

  ghost predicate ChartInv(w: World, owner: Owner) {
    && StoreOwned(w.addons, owner)
    && forall o | IsReadyIn(w, o) :: AllCharts(w, Holding(w, o))
  }

  ghost predicate AllCharts(w: World, ps: set<Pair>) {
    forall p | p in ps :: HasChart(w, p)
  }

  lemma RemoveKeepsChart(w: World, ps: seq<Pair>, p: Pair, owner: Owner)
    requires StoreOwned(w.addons, owner) && HasChart(w, p) && p !in Elements(ps)
    ensures HasChart(Remove(w, ps), p)
  {
    assert forall q | q in ps && q in w.addons :: w.addons[q].chart != w.addons[p].chart;
  }

  ghost predicate EntriesOwned(es: seq<Entry>, owner: Owner) {
    forall e | e in es :: Owns(owner, e.pair, e.chart)
  }

  lemma SaveKeepsOwned(w: World, es: seq<Entry>, owner: Owner)
    requires StoreOwned(w.addons, owner) && EntriesOwned(es, owner)
    ensures StoreOwned(Save(w, es).addons, owner)
    ensures forall e | e in es :: HasChart(Save(w, es), e.pair)
    ensures forall p | HasChart(w, p) :: HasChart(Save(w, es), p)
  {
    SavedAre(w.addons, es);
    var w' := Save(w, es);
    hide SavedAddons;
    forall p | p in w'.addons
      ensures Owns(owner, p, w'.addons[p].chart)
      ensures (exists e | e in es :: e.pair == p) || HasChart(w, p) ==> w'.addons[p].chart in w'.charts
    {
      if Provides(es, p, w'.addons[p]) {
        var e :| e in es && e.pair == p && w'.addons[p] == Record(e.id, e.chart);
      }
    }
  }

  lemma LoadedOwned(urls: seq<string>, outcomes: seq<Outcome>, owner: Owner, name: Name, i: int, j: int)
    requires |outcomes| == |urls| && OwnCharts(Handle(name, outcomes), owner)
    requires Position(Load(urls, outcomes), i, j) && IsReady(Load(urls, outcomes)[i].addons[j])
    ensures var e := Load(urls, outcomes)[i].addons[j]; Owns(owner, e.pair, e.chart)
  {
    assert Load(urls, outcomes)[i] == LoadRepository(urls[i], outcomes[i]);
    assert LoadRepository(urls[i], outcomes[i]).addons[j] == LoadEntry(outcomes[i].attempts[j]);
  }

  /** What survives the review is as it was loaded. */
  lemma SurvivorsOwned(urls: seq<string>, outcomes: seq<Outcome>, registered: set<Pair>, owner: Owner, name: Name)
    requires |outcomes| == |urls| && OwnCharts(Handle(name, outcomes), owner)
    ensures EntriesOwned(ReadyEntries(Reviewed(Load(urls, outcomes), registered)), owner)
  {
    hide Reviewed, Load, ReadyEntries, OwnCharts;
    var loaded := Load(urls, outcomes);
    var rs := Reviewed(loaded, registered);
    ReadyEntriesAre(rs);
    ReviewedShape(loaded, registered);
    forall e | e in ReadyEntries(rs) ensures Owns(owner, e.pair, e.chart) {
      var i :| 0 <= i < |rs| && e in rs[i].addons;
      var j :| 0 <= j < |rs[i].addons| && rs[i].addons[j] == e;
      assert Position(loaded, i, j);
      ReviewedEntry(loaded, registered, i, j);
      LoadedOwned(urls, outcomes, owner, name, i, j);
    }
  }

  /** After writing and saving, and after removing what was dropped. */
  lemma WrittenCharts(w: World, self: Name, rs: seq<Repository>, owner: Owner)
    requires self in w.configs && StoreOwned(w.addons, owner) && EntriesOwned(ReadyEntries(rs), owner)
    ensures StoreOwned(Written(w, self, rs).addons, owner)
    ensures forall p | HasChart(w, p) :: HasChart(Written(w, self, rs), p)
    ensures !SomeFailed(rs) ==> AllCharts(Written(w, self, rs), ReadyPairs(Snapshot(rs)))
  {
    SaveKeepsOwned(w, ReadyEntries(rs), owner);
    SnapshotPairs(rs);
    hide Save, ReadyEntries, Snapshot, ReadyPairs;
    var saved, w' := Save(w, ReadyEntries(rs)), Written(w, self, rs);
    assert forall p | HasChart(if SomeFailed(rs) then w else saved, p) :: HasChart(w', p);
  }

  lemma OnAddCharts(w: World, self: Name, last: Status, urls: seq<string>, outcomes: seq<Outcome>, owner: Owner)
    requires self in w.configs && |outcomes| == |urls| && WithIDs(outcomes)
    requires OwnCharts(Handle(self, outcomes), owner)
    requires StoreOwned(w.addons, owner) && forall o | IsReadyIn(w, o) && o != self :: AllCharts(w, Holding(w, o))
    requires last.phase == Pending || (Inv(w) && last == w.configs[self].status)
    ensures ChartInv(OnAdd(w, self, last, Load(urls, outcomes)), owner)
  {
    var loaded := Load(urls, outcomes);
    var w' := OnAdd(w, self, last, loaded);
    LoadedFacts(urls, outcomes);
    OwnIsForeign(w, self, last);
    forall o | IsReadyIn(w', o) && o != self ensures IsReadyIn(w, o) && Holding(w', o) == Holding(w, o) {
      OnAddKeys(w, self, last, loaded);
      OnAddOthers(w, self, last, loaded, o);
    }
    if SomeFetchingError(loaded) {
      FetchErrorCharts(w, self, last, loaded, owner);
    } else {
      var rs := Verdict(w, self, loaded);
      SurvivorsOwned(urls, outcomes, RegisteredElsewhere(w.configs, self), owner, self);
      WrittenCharts(w, self, rs, owner);
      AfterRemoval(w, self, last, loaded, owner);
    }
  }

  lemma FetchErrorCharts(w: World, self: Name, last: Status, loaded: seq<Repository>, owner: Owner)
    requires self in w.configs && SomeFetchingError(loaded)
    requires StoreOwned(w.addons, owner) && forall o | IsReadyIn(w, o) && o != self :: AllCharts(w, Holding(w, o))
    requires last.phase == Pending || last == w.configs[self].status
    ensures ChartInv(OnAdd(w, self, last, loaded), owner)
  {
    var w' := OnAdd(w, self, last, loaded);
    assert w'.configs[self].status.phase == Failed;
    forall o | IsReadyIn(w', o) ensures AllCharts(w', Holding(w', o)) {
      assert o != self && w'.configs[o] == w.configs[o];
      assert IsReadyIn(w, o);
    }
  }

  lemma AfterRemoval(w: World, self: Name, last: Status, loaded: seq<Repository>, owner: Owner)
    requires self in w.configs && Identified(loaded) && !SomeFetchingError(loaded)
    requires last.phase == Ready ==> Foreign(w, self, Pairs(last.repositories))
    requires forall o | IsReadyIn(w, o) && o != self :: AllCharts(w, Holding(w, o))
    requires var rs := Verdict(w, self, loaded);
             && StoreOwned(Written(w, self, rs).addons, owner)
             && (forall p | HasChart(w, p) :: HasChart(Written(w, self, rs), p))
             && (!SomeFailed(rs) ==> AllCharts(Written(w, self, rs), ReadyPairs(Snapshot(rs))))
    requires var w' := OnAdd(w, self, last, loaded);
             forall o | IsReadyIn(w', o) && o != self :: IsReadyIn(w, o) && Holding(w', o) == Holding(w, o)
    ensures ChartInv(OnAdd(w, self, last, loaded), owner)
  {
    var rs, w' := Verdict(w, self, loaded), OnAdd(w, self, last, loaded);
    var dropped, mid := Dropped(last, SomeFailed(rs), Snapshot(rs)), Written(w, self, rs);
    DroppedIsOwn(last, SomeFailed(rs), Snapshot(rs));
    SelfAfter(w, self, last, loaded);
    if !SomeFailed(rs) {
      ReadyVerdict(w, self, loaded);
      AllReadyPairs(Snapshot(rs));
    }
    hide Verdict, Dropped, Snapshot, ReadyPairs, Pairs, Written, Hits;
    forall o, p | IsReadyIn(w', o) && p in Holding(w', o) ensures HasChart(w', p) {
      if o != self {
        assert p in Holding(w, o);
      }
      assert p !in Elements(dropped) && HasChart(mid, p);
      RemoveKeepsChart(mid, dropped, p, owner);
    }
  }

  lemma StepCharts(w: World, a: Action, owner: Owner)
    requires Inv(w) && ChartInv(w, owner) && Enabled(w, a) && OwnCharts(a, owner)
    ensures ChartInv(Step(w, a), owner)
  {
    var w' := Step(w, a);
    if a.Handle? {
      var c := w.configs[a.name];
      if c.deleting {
        OnDeleteCharts(w, a.name, owner);
      } else if InitialProcessing(c) {
        var prepared := Prepared(w, a.name);
        forall o | IsReadyIn(prepared, o) && o != a.name ensures AllCharts(prepared, Holding(prepared, o)) {
          assert IsReadyIn(w, o) && Holding(prepared, o) == Holding(w, o);
          assert AllCharts(w, Holding(w, o));
        }
        hide OnAdd, Inv;
        OnAddCharts(prepared, a.name, prepared.configs[a.name].status, c.repositories, a.outcomes, owner);
      } else {
        hide OnAdd, Inv;
        OnAddCharts(w, a.name, c.status, c.repositories, a.outcomes, owner);
      }
    } else {
      forall o | IsReadyIn(w', o) ensures AllCharts(w', Holding(w', o)) {
        assert IsReadyIn(w, o) && Holding(w', o) == Holding(w, o);
        assert AllCharts(w, Holding(w, o));
      }
    }
  }

  lemma OnDeleteCharts(w: World, self: Name, owner: Owner)
    requires Inv(w) && ChartInv(w, owner) && self in w.configs
    ensures ChartInv(OnDelete(w, self), owner)
  {
    var w', st := OnDelete(w, self), w.configs[self].status;
    OwnIsForeign(w, self, st);
    ListingPairs(st.repositories);
    hide ReadyPairs, Listing, Pairs;
    forall o, p | IsReadyIn(w', o) && p in Holding(w', o) ensures HasChart(w', p) {
      OnDeleteOthers(w, self, o);
      assert IsReadyIn(w, o) && Holding(w', o) == Holding(w, o);
      assert AllCharts(w, Holding(w, o)) && HasChart(w, p);
      if st.phase == Ready {
        RemoveKeepsChart(WakeAll(w, self), Listing(st.repositories), p, owner);
      }
    }
  }

  lemma {:induction false} RunCharts(run: seq<World>, actions: seq<Action>, owner: Owner, n: nat)
    requires IsRun(run, actions) && n < |run|
    requires forall a | a in actions :: OwnCharts(a, owner)
    ensures ChartInv(run[n], owner)
  {
    if n > 0 {
      RunCharts(run, actions, owner, n - 1);
      RunKeeps(run, actions, n - 1);
      hide Inv, Step, ChartInv, OwnCharts;
      StepCharts(run[n - 1], actions[n - 1], owner);
    }
  }

  /** In every reachable state the chart of whatever a ready configuration lists can be retrieved. */
  lemma ChartsRetrievable(run: seq<World>, actions: seq<Action>, owner: Owner, n: nat, o: Name, p: Pair)
    requires IsRun(run, actions) && n < |run| && IsReadyIn(run[n], o)
    requires forall a | a in actions :: OwnCharts(a, owner)
    requires p in Pairs(run[n].configs[o].status.repositories)
    ensures HasChart(run[n], p)
  {
    RunCharts(run, actions, owner, n);
    ReadyAddonsRetrievable(run, actions, n, o, p);
    assert AllCharts(run[n], Holding(run[n], o));
  }
}
