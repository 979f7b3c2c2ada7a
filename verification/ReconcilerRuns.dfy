/** What holds of the reconciler after any sequence of steps. */
module ReconcilerRuns {
  import opened AddonsConfigurations
  import opened Collections
  import opened CollectionReview
  import opened Reconciler
  import opened ReconcilerEffects
  import opened ReconcilerInvariant

  // ----- the other steps -----

  /** Deleting a configuration takes away what it held and nothing that another one holds. */
  lemma OnDeleteOthers(w: World, self: Name, o: Name)
    requires Inv(w) && self in w.configs && o in w.configs && o != self
    ensures var w' := OnDelete(w, self);
            && self !in w'.configs && o in w'.configs
            && w'.configs[o] == Bump(w.configs[o], if IsReadyIn(w, self) && !IsReadyIn(w, o) then 1 else 0)
            && (IsReadyIn(w, o) ==> forall p | p in Holding(w, o) :: p in w'.addons && w'.addons[p] == w.addons[p])
  {
    var st := w.configs[self].status;
    if st.phase == Ready {
      OwnIsForeign(w, self, st);
      ListingPairs(st.repositories);
      hide Pairs, Listing, ReadyPairs;
      forall p | IsReadyIn(w, o) && p in Holding(w, o)
        ensures p in OnDelete(w, self).addons && OnDelete(w, self).addons[p] == w.addons[p]
      {
        RemoveKeeps(WakeAll(w, self), Listing(st.repositories), p);
      }
    }
  }

  lemma OnDeleteKeeps(w: World, self: Name)
    requires Inv(w) && self in w.configs
    ensures Inv(OnDelete(w, self))
  {
    var w' := OnDelete(w, self);
    forall o | o in w'.configs
      ensures o in w.configs && o != self && Sound(w'.configs[o]) && w'.configs[o].status == w.configs[o].status
      ensures IsReadyIn(w, o) ==> Holding(w, o) <= w'.addons.Keys
    {
      OnDeleteOthers(w, self, o);
    }
    hide OnDelete, Sound, ReadyPairs;
    forall o | IsReadyIn(w', o) ensures IsReadyIn(w, o) && Holding(w', o) == Holding(w, o) {
    }
  }

  lemma ReconcileKeeps(w: World, self: Name, outcomes: seq<Outcome>)
    requires Inv(w) && self in w.configs && |outcomes| == |w.configs[self].repositories| && WithIDs(outcomes)
    ensures Inv(Reconcile(w, self, outcomes))
  {
    var c := w.configs[self];
    assert InvBut(w, self) && c.generation >= 1;
    hide OnAdd, OnDelete;
    if c.deleting {
      OnDeleteKeeps(w, self);
    } else if InitialProcessing(c) {
      var prepared := Prepared(w, self);
      assert forall o | o in w.configs && o != self :: prepared.configs[o] == w.configs[o];
      assert InvBut(prepared, self) by {
        hide Sound, ReadyPairs;
        assert forall o | IsReadyIn(prepared, o) && o != self ::
            IsReadyIn(w, o) && Holding(prepared, o) == Holding(w, o);
      }
      hide Inv, InvBut;
      OnAddKeeps(prepared, self, prepared.configs[self].status, c.repositories, outcomes);
    } else {
      OnAddKeeps(w, self, c.status, c.repositories, outcomes);
    }
  }

  /** A configuration changes in its specification only. */
  lemma UserKeeps(w: World, w': World, name: Name)
    requires Inv(w) && w'.addons == w.addons && name in w'.configs
    requires Sound(w'.configs[name]) && w'.configs.Keys == w.configs.Keys + {name}
    requires if name in w.configs then w'.configs[name].status == w.configs[name].status
             else w'.configs[name].status.phase == Unset
    requires forall o | o in w.configs && o != name :: w'.configs[o] == w.configs[o]
    ensures Inv(w')
  {
    hide Sound, ReadyPairs;
    forall o | IsReadyIn(w', o) ensures IsReadyIn(w, o) && Holding(w', o) == Holding(w, o) {
      assert o in w.configs;
    }
  }

  lemma StepKeeps(w: World, a: Action)
    requires Inv(w) && Enabled(w, a)
    ensures Inv(Step(w, a))
  {
    match a
    case Create(name, _) => UserKeeps(w, Step(w, a), name);
    case Change(name, _, _) =>
      assert Sound(w.configs[name]);
      UserKeeps(w, Step(w, a), name);
    case Delete(name) =>
      assert Sound(w.configs[name]);
      if w.configs[name].finalizer {
        UserKeeps(w, Step(w, a), name);
      } else {
        var w' := Step(w, a);
        assert forall o | IsReadyIn(w', o) :: IsReadyIn(w, o) && Holding(w', o) == Holding(w, o);
        hide Sound, ReadyPairs;
      }
    case Handle(name, outcomes) =>
      hide Inv, Reconcile;
      ReconcileKeeps(w, name, outcomes);
  }

  lemma {:induction false} RunKeeps(run: seq<World>, actions: seq<Action>, n: nat)
    requires IsRun(run, actions) && n < |run|
    ensures Inv(run[n])
  {
    if n > 0 {
      RunKeeps(run, actions, n - 1);
      hide Inv, Step;
      StepKeeps(run[n - 1], actions[n - 1]);
    }
  }

  // ----- safety -----

  /** In every reachable state two ready configurations report different addons. */
  lemma ReadyConfigurationsDisjoint(run: seq<World>, actions: seq<Action>, n: nat, o: Name, q: Name)
    requires IsRun(run, actions) && n < |run| && o != q && IsReadyIn(run[n], o) && IsReadyIn(run[n], q)
    ensures Pairs(run[n].configs[o].status.repositories) !! Pairs(run[n].configs[q].status.repositories)
    ensures Holding(run[n], o) !! Holding(run[n], q)
  {
    RunKeeps(run, actions, n);
    AllReadyPairs(run[n].configs[o].status.repositories);
    AllReadyPairs(run[n].configs[q].status.repositories);
  }

  /** In every reachable state whatever a ready configuration lists is ready and can be retrieved. */
  lemma ReadyAddonsRetrievable(run: seq<World>, actions: seq<Action>, n: nat, o: Name, p: Pair)
    requires IsRun(run, actions) && n < |run| && IsReadyIn(run[n], o)
    requires p in Pairs(run[n].configs[o].status.repositories)
    ensures p in Holding(run[n], o) && p in run[n].addons
  {
    RunKeeps(run, actions, n);
    AllReadyPairs(run[n].configs[o].status.repositories);
  }

  ghost predicate About(a: Action, o: Name) {
    a.name == o
  }

  /** No step about one configuration touches a record that another ready configuration lists. */
  lemma OnlyOwnAddonsTouched(run: seq<World>, actions: seq<Action>, n: nat, o: Name, p: Pair)
    requires IsRun(run, actions) && n < |actions| && !About(actions[n], o)
    requires IsReadyIn(run[n], o) && p in Holding(run[n], o)
    ensures p in run[n].addons && p in run[n + 1].addons && run[n + 1].addons[p] == run[n].addons[p]
  {
    RunKeeps(run, actions, n);
    var w, a := run[n], actions[n];
    assert run[n + 1] == Step(w, a) && Enabled(w, a);
    hide IsRun;
    assert p in w.addons;
    if a.Handle? {
      HandleTouchesOwn(w, a.name, a.outcomes, o, p);
    }
  }

  lemma HandleTouchesOwn(w: World, self: Name, outcomes: seq<Outcome>, o: Name, p: Pair)
    requires Inv(w) && self in w.configs && |outcomes| == |w.configs[self].repositories| && WithIDs(outcomes)
    requires o != self && IsReadyIn(w, o) && p in Holding(w, o) && p in w.addons
    ensures p in Reconcile(w, self, outcomes).addons && Reconcile(w, self, outcomes).addons[p] == w.addons[p]
  {
    var c := w.configs[self];
    var loaded := Load(c.repositories, outcomes);
    LoadedFacts(c.repositories, outcomes);
    if c.deleting {
      OnDeleteOthers(w, self, o);
    } else if InitialProcessing(c) {
      var prepared := Prepared(w, self);
      assert IsReadyIn(prepared, o) && Holding(prepared, o) == Holding(w, o);
      hide OnAdd, ReadyPairs;
      OthersKeepAddon(prepared, self, prepared.configs[self].status, loaded, o, p);
    } else if Reprocessing(c) {
      OwnIsForeign(w, self, c.status);
      hide OnAdd, ReadyPairs, Pairs;
      OthersKeepAddon(w, self, c.status, loaded, o, p);
    }
  }

  // ----- the verdict -----

  /** The reconcile handles the configuration to the end: it is due, and every address could be fetched. */
  ghost predicate Completes(w: World, self: Name, outcomes: seq<Outcome>)
    requires self in w.configs && |outcomes| == |w.configs[self].repositories|
  {
    var c := w.configs[self];
    && !c.deleting && (InitialProcessing(c) || Reprocessing(c))
    && !SomeFetchingError(Load(c.repositories, outcomes))
  }

  /** A reconcile that completes ends ready exactly when nothing is wrong, here or with the others. */
  lemma EndsReadyIff(w: World, self: Name, outcomes: seq<Outcome>)
    requires Enabled(w, Handle(self, outcomes)) && Completes(w, self, outcomes)
    ensures var loaded := Load(w.configs[self].repositories, outcomes);
            IsReadyIn(Reconcile(w, self, outcomes), self) <==>
            AllLoaded(loaded) && IDsDistinct(loaded) && NoneRegistered(loaded, RegisteredElsewhere(w.configs, self))
  {
    var c := w.configs[self];
    var loaded := Load(c.repositories, outcomes);
    var start := if InitialProcessing(c) then Prepared(w, self) else w;
    LoadedFacts(c.repositories, outcomes);
    ReadyIff(loaded, RegisteredElsewhere(w.configs, self));
    PreparedRegistered(w, self);
    SelfAfter(start, self, start.configs[self].status, loaded);
    hide OnAdd, Load, Reviewed, RegisteredElsewhere;
    assert Reconcile(w, self, outcomes) == OnAdd(start, self, start.configs[self].status, loaded);
  }

  lemma PreparedRegistered(w: World, self: Name)
    requires self in w.configs
    ensures RegisteredElsewhere(Prepared(w, self).configs, self) == RegisteredElsewhere(w.configs, self)
  {
    var w' := Prepared(w, self);
    hide ReadyPairs;
    assert forall o | o in w.configs && o != self :: w'.configs[o] == w.configs[o];
  }

  /** The status marks exactly the entries that did not load, repeat an ID or are registered elsewhere. */
  lemma EndsWithOffendersFailed(w: World, self: Name, outcomes: seq<Outcome>, i: int, j: int)
    requires Enabled(w, Handle(self, outcomes)) && Completes(w, self, outcomes)
    requires Position(Load(w.configs[self].repositories, outcomes), i, j)
    ensures self in Reconcile(w, self, outcomes).configs
    ensures var loaded := Load(w.configs[self].repositories, outcomes);
            var now := Reconcile(w, self, outcomes).configs[self].status.repositories;
            && i < |now| && j < |now[i].addons|
            && now[i].addons[j].pair == loaded[i].addons[j].pair
            && (now[i].addons[j].status == AddonFailed <==>
                || !IsReady(loaded[i].addons[j])
                || loaded[i].addons[j].pair in RegisteredElsewhere(w.configs, self)
                || Late(loaded, i, j))
  {
    var c := w.configs[self];
    var loaded := Load(c.repositories, outcomes);
    var start := if InitialProcessing(c) then Prepared(w, self) else w;
    LoadedFacts(c.repositories, outcomes);
    PreparedRegistered(w, self);
    ReviewedEntry(loaded, RegisteredElsewhere(w.configs, self), i, j);
    SelfAfter(start, self, start.configs[self].status, loaded);
    hide OnAdd, Load, Reviewed, RegisteredElsewhere, Late;
    assert Reconcile(w, self, outcomes) == OnAdd(start, self, start.configs[self].status, loaded);
    var rs := Verdict(start, self, loaded);
    assert Snapshot(rs)[i].addons[j] == Report(rs[i].addons[j]);
  }
}
