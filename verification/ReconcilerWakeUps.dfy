/** Who is asked to try again when a configuration lets go of addons, and what stays in the store. */
module ReconcilerWakeUps {
  import opened AddonsConfigurations
  import opened Collections
  import opened CollectionReview
  import opened Reconciler
  import opened ReconcilerEffects
  import opened ReconcilerInvariant
  import opened ReconcilerRuns

  /** Before, the status listed the pair; now the configuration has failed or lists no pair with that key. */
  ghost predicate LetsGo(before: Status, after: Status, p: Pair) {
    && p in Pairs(before.repositories)
    && (after.phase == Ready ==> forall q | q in Pairs(after.repositories) :: Key(q) != Key(p))
  }

  ghost predicate SomeConflict(before: Status, after: Status, st: Status) {
    exists p :: LetsGo(before, after, p) && InConflict(Key(p), st)
  }

  lemma DroppedIsLetGo(before: Status, failed: bool, generation: nat, now: seq<StatusRepository>)
    requires before.phase == Ready
    ensures var after := Status(if failed then Failed else Ready, generation, now);
            forall p :: p in Dropped(before, failed, now) <==> LetsGo(before, after, p)
  {
    ListingPairs(before.repositories);
    OrphansAre(Listing(before.repositories), StayingKeys(now));
    StayingKeysAre(now);
    hide Listing, StayingKeys, Orphans, Key, Pairs;
    assert forall p :: p in Listing(before.repositories) <==> p in Elements(Listing(before.repositories));
  }

  lemma KeysAre(ps: seq<Pair>)
    ensures forall k :: k in Keys(ps) <==> exists p | p in ps :: Key(p) == k
  {
    hide Key;
    forall p | p in ps ensures Key(p) in Keys(ps) {
      var n :| 0 <= n < |ps| && ps[n] == p;
      assert Keys(ps)[n] == Key(p);
    }
  }

  /** A completed reconcile of a ready configuration asks exactly those in conflict about what it lets go. */
  lemma OnAddAsksIff(w: World, self: Name, last: Status, loaded: seq<Repository>, o: Name)
    requires self in w.configs && o in w.configs && o != self && !SomeFetchingError(loaded)
    ensures self in OnAdd(w, self, last, loaded).configs
    ensures var after := OnAdd(w, self, last, loaded).configs[self].status;
            Woken(w, self, last, loaded, o) > 0 <==>
            last.phase == Ready && SomeConflict(last, after, w.configs[o].status)
  {
    var rs, st := Verdict(w, self, loaded), w.configs[o].status;
    var dropped := Dropped(last, SomeFailed(rs), Snapshot(rs));
    SelfAfter(w, self, last, loaded);
    HitsPositive(Keys(dropped), st);
    KeysAre(dropped);
    if last.phase == Ready {
      DroppedIsLetGo(last, SomeFailed(rs), w.configs[self].generation, Snapshot(rs));
    } else {
      assert dropped == [];
    }
    hide OnAdd, Verdict, Dropped, Snapshot, Hits, InConflict, LetsGo, Keys, Key;
  }

  /**
   Who is asked to reprocess: on deletion of a ready configuration everyone who is not ready; otherwise
   exactly those in conflict about a pair that a ready configuration lets go in a reconcile it completes.
   Whoever is not asked is left as it was, and whoever is asked is due.
   */
  lemma AskedIff(w: World, self: Name, outcomes: seq<Outcome>, o: Name)
    requires Inv(w) && Enabled(w, Handle(self, outcomes)) && o in w.configs && o != self
    ensures var w' := Reconcile(w, self, outcomes);
            && o in w'.configs
            && w'.configs[o].status == w.configs[o].status
            && (if w'.configs[o].reprocessRequest > w.configs[o].reprocessRequest
                then Reprocessing(w'.configs[o]) else w'.configs[o] == w.configs[o])
    ensures var w' := Reconcile(w, self, outcomes);
            w'.configs[o].reprocessRequest > w.configs[o].reprocessRequest <==>
              && IsReadyIn(w, self)
              && (if w.configs[self].deleting then !IsReadyIn(w, o)
                  else && Completes(w, self, outcomes)
                       && self in w'.configs
                       && SomeConflict(w.configs[self].status, w'.configs[self].status, w.configs[o].status))
  {
    var c, w' := w.configs[self], Reconcile(w, self, outcomes);
    var loaded := Load(c.repositories, outcomes);
    assert Sound(c) && Sound(w.configs[o]);
    if c.deleting {
      OnDeleteOthers(w, self, o);
    } else if InitialProcessing(c) || Reprocessing(c) {
      var start := if InitialProcessing(c) then Prepared(w, self) else w;
      var last := start.configs[self].status;
      assert last.phase == Ready <==> c.status.phase == Ready;
      assert last.phase == Ready ==> start == w;
      OnAddOthers(start, self, last, loaded, o);
      if !SomeFetchingError(loaded) {
        OnAddAsksIff(start, self, last, loaded, o);
      }
      hide OnAdd, Woken, Load, Inv, SomeConflict;
      assert w' == OnAdd(start, self, last, loaded);
    }
  }

  /** No missed wake-up: who was blocked over a pair that a ready configuration lets go is due again. */
  lemma BlockedIsAsked(w: World, self: Name, outcomes: seq<Outcome>, o: Name, p: Pair, i: nat, j: nat)
    requires Inv(w) && Enabled(w, Handle(self, outcomes)) && o in w.configs && o != self
    requires Blocked(w.configs[o].status, p, i, j)
    requires IsReadyIn(w, self) && !w.configs[self].deleting && Completes(w, self, outcomes)
    ensures var w' := Reconcile(w, self, outcomes);
            self in w'.configs && o in w'.configs &&
            (LetsGo(w.configs[self].status, w'.configs[self].status, p) ==>
               w'.configs[o].reprocessRequest > w.configs[o].reprocessRequest && Reprocessing(w'.configs[o]))
  {
    var w' := Reconcile(w, self, outcomes);
    AskedIff(w, self, outcomes, o);
    SelfStays(w, self, outcomes);
    BlockedIsInConflict(w.configs[o], p, i, j);
    hide Reconcile, Completes, LetsGo, InConflict;
    if LetsGo(w.configs[self].status, w'.configs[self].status, p) {
      assert SomeConflict(w.configs[self].status, w'.configs[self].status, w.configs[o].status);
    }
  }

  lemma SelfStays(w: World, self: Name, outcomes: seq<Outcome>)
    requires Enabled(w, Handle(self, outcomes)) && !w.configs[self].deleting
    ensures self in Reconcile(w, self, outcomes).configs
  {
    hide OnAdd, Load;
    var c := w.configs[self];
    OnAddKeys(w, self, c.status, Load(c.repositories, outcomes));
    var prepared := Prepared(w, self);
    OnAddKeys(prepared, self, prepared.configs[self].status, Load(c.repositories, outcomes));
  }

  /** The status reports the pair as taken by another configuration. */
  ghost predicate Blocked(st: Status, p: Pair, i: nat, j: nat) {
    && i < |st.repositories| && j < |st.repositories[i].addons|
    && st.repositories[i].addons[j].pair == p
    && st.repositories[i].addons[j].reason == ConflictWithAlreadyRegisteredAddons
  }

  lemma BlockedIsInConflict(c: Configuration, p: Pair, i: nat, j: nat)
    requires Sound(c) && Blocked(c.status, p, i, j)
    ensures InConflict(Key(p), c.status)
  {
  }

  /** In every run: whoever is in conflict about a pair that a ready configuration lets go, or loses, is due again. */
  lemma NoMissedWakeUp(run: seq<World>, actions: seq<Action>, n: nat, o: Name, p: Pair)
    requires IsRun(run, actions) && n < |actions| && actions[n].Handle?
    requires var self := actions[n].name;
             && o in run[n].configs && o != self && !IsReadyIn(run[n], o)
             && IsReadyIn(run[n], self)
             && (if run[n].configs[self].deleting then true
                 else && Completes(run[n], self, actions[n].outcomes)
                      && self in run[n + 1].configs
                      && LetsGo(run[n].configs[self].status, run[n + 1].configs[self].status, p)
                      && InConflict(Key(p), run[n].configs[o].status))
    ensures o in run[n + 1].configs
    ensures run[n + 1].configs[o].reprocessRequest > run[n].configs[o].reprocessRequest
    ensures Reprocessing(run[n + 1].configs[o])
  {
    RunKeeps(run, actions, n);
    hide Inv, Reconcile, Completes, LetsGo, InConflict, Key;
    AskedIff(run[n], actions[n].name, actions[n].outcomes, o);
  }

  /** Nothing is wrong with what was loaded, neither here nor with the others. */
  ghost predicate NothingWrong(w: World, self: Name, loaded: seq<Repository>) {
    AllLoaded(loaded) && IDsDistinct(loaded) && NoneRegistered(loaded, RegisteredElsewhere(w.configs, self))
  }

  /** The same as `LetsGo`, known before the reconcile: something is wrong, or no loaded entry has the key. */
  ghost predicate WillLetGo(w: World, self: Name, loaded: seq<Repository>, p: Pair)
    requires self in w.configs
  {
    && p in Pairs(w.configs[self].status.repositories)
    && (NothingWrong(w, self, loaded) ==>
          forall i, j | Position(loaded, i, j) :: Key(loaded[i].addons[j].pair) != Key(p))
  }

  lemma LetsGoIffLoaded(w: World, self: Name, outcomes: seq<Outcome>, p: Pair)
    requires Enabled(w, Handle(self, outcomes)) && Completes(w, self, outcomes)
    ensures self in Reconcile(w, self, outcomes).configs
    ensures LetsGo(w.configs[self].status, Reconcile(w, self, outcomes).configs[self].status, p) <==>
            WillLetGo(w, self, Load(w.configs[self].repositories, outcomes), p)
  {
    var loaded := Load(w.configs[self].repositories, outcomes);
    EndsReadyIff(w, self, outcomes);
    SelfStays(w, self, outcomes);
    var after := Reconcile(w, self, outcomes).configs[self].status;
    ListsWhatLoaded(w, self, outcomes);
    hide Reconcile, Load, Key, Completes, AllLoaded, IDsDistinct, NoneRegistered, RegisteredElsewhere;
  }

  /** A completed reconcile lists the pairs that were loaded. */
  lemma ListsWhatLoaded(w: World, self: Name, outcomes: seq<Outcome>)
    requires Enabled(w, Handle(self, outcomes)) && Completes(w, self, outcomes)
    ensures self in Reconcile(w, self, outcomes).configs
    ensures var loaded := Load(w.configs[self].repositories, outcomes);
            var now := Pairs(Reconcile(w, self, outcomes).configs[self].status.repositories);
            && (forall p | p in now :: exists i, j | Position(loaded, i, j) :: loaded[i].addons[j].pair == p)
            && (forall i, j | Position(loaded, i, j) :: loaded[i].addons[j].pair in now)
  {
    var c := w.configs[self];
    var loaded := Load(c.repositories, outcomes);
    var start := if InitialProcessing(c) then Prepared(w, self) else w;
    SelfAfter(start, self, start.configs[self].status, loaded);
    hide OnAdd, Load;
    assert Reconcile(w, self, outcomes) == OnAdd(start, self, start.configs[self].status, loaded);
    var registered := RegisteredElsewhere(start.configs, self);
    var rs := Reviewed(loaded, registered);
    ReviewedShape(loaded, registered);
    forall i, j | Position(loaded, i, j)
      ensures Position(rs, i, j) && rs[i].addons[j].pair == loaded[i].addons[j].pair
    {
      ReviewedEntry(loaded, registered, i, j);
    }
    hide Reviewed, RegisteredElsewhere, Late;
    SnapshotLists(loaded, rs);
  }

  lemma SnapshotLists(loaded: seq<Repository>, rs: seq<Repository>)
    requires |rs| == |loaded| && forall i | 0 <= i < |rs| :: |rs[i].addons| == |loaded[i].addons|
    requires forall i, j | Position(loaded, i, j) :: rs[i].addons[j].pair == loaded[i].addons[j].pair
    ensures var now := Pairs(Snapshot(rs));
            && (forall p | p in now :: exists i, j | Position(loaded, i, j) :: loaded[i].addons[j].pair == p)
            && (forall i, j | Position(loaded, i, j) :: loaded[i].addons[j].pair in now)
  {
    var snap := Snapshot(rs);
    forall p | p in Pairs(snap) ensures exists i, j | Position(loaded, i, j) :: loaded[i].addons[j].pair == p {
      var i, j :| 0 <= i < |snap| && 0 <= j < |snap[i].addons| && snap[i].addons[j].pair == p;
      assert Position(loaded, i, j) && snap[i].addons[j] == Report(rs[i].addons[j]);
    }
    forall i, j | Position(loaded, i, j) ensures loaded[i].addons[j].pair in Pairs(snap) {
      assert snap[i].addons[j] == Report(rs[i].addons[j]);
    }
  }

  /** Who is asked when a configuration is not being deleted, in terms of what was loaded. */
  lemma AskedIffLoaded(w: World, self: Name, outcomes: seq<Outcome>, o: Name)
    requires Inv(w) && Enabled(w, Handle(self, outcomes)) && o in w.configs && o != self
    requires !w.configs[self].deleting
    ensures o in Reconcile(w, self, outcomes).configs
    ensures Reconcile(w, self, outcomes).configs[o].reprocessRequest > w.configs[o].reprocessRequest <==>
            && IsReadyIn(w, self) && Completes(w, self, outcomes)
            && exists p :: WillLetGo(w, self, Load(w.configs[self].repositories, outcomes), p)
                           && InConflict(Key(p), w.configs[o].status)
  {
    var w', loaded := Reconcile(w, self, outcomes), Load(w.configs[self].repositories, outcomes);
    AskedIff(w, self, outcomes, o);
    if Completes(w, self, outcomes) {
      forall p
        ensures self in w'.configs
        ensures LetsGo(w.configs[self].status, w'.configs[self].status, p) <==> WillLetGo(w, self, loaded, p)
      {
        LetsGoIffLoaded(w, self, outcomes, p);
      }
      hide Reconcile, Load, LetsGo, WillLetGo, InConflict, Key, Inv, Completes;
    }
  }

  /** A fetching error ends readiness, leaves everything in the store and asks nobody. */
  lemma FetchErrorAsksNobody(w: World, self: Name, outcomes: seq<Outcome>, o: Name)
    requires Inv(w) && Enabled(w, Handle(self, outcomes)) && o in w.configs && o != self
    requires IsReadyIn(w, self) && !w.configs[self].deleting && Reprocessing(w.configs[self])
    requires SomeFetchingError(Load(w.configs[self].repositories, outcomes))
    ensures var w' := Reconcile(w, self, outcomes);
            && w'.addons == w.addons && w'.charts == w.charts
            && self in w'.configs && w'.configs[self].status.phase == Failed
            && o in w'.configs && w'.configs[o] == w.configs[o]
  {
    assert Sound(w.configs[self]);
    hide Load, Snapshot;
  }

  /** Neither does a configuration that is not ready, whatever it listed as ready and lets go now. */
  lemma NotReadyAsksNobody(w: World, self: Name, outcomes: seq<Outcome>, o: Name)
    requires Inv(w) && Enabled(w, Handle(self, outcomes)) && o in w.configs && o != self
    requires !IsReadyIn(w, self)
    ensures o in Reconcile(w, self, outcomes).configs
    ensures Reconcile(w, self, outcomes).configs[o] == w.configs[o]
  {
    hide Inv, Reconcile, Completes;
    AskedIff(w, self, outcomes, o);
  }

  /** Neither is a ready configuration ever asked. */
  lemma ReadyIsNeverAsked(w: World, self: Name, outcomes: seq<Outcome>, o: Name)
    requires Inv(w) && Enabled(w, Handle(self, outcomes)) && o in w.configs && o != self && IsReadyIn(w, o)
    ensures o in Reconcile(w, self, outcomes).configs
    ensures Reconcile(w, self, outcomes).configs[o] == w.configs[o]
  {
    hide Inv, Reconcile, Completes;
    AskedIff(w, self, outcomes, o);
  }

  // ----- what the store holds afterwards -----

  /** Neither the addon nor the chart it had is there any more. */
  ghost predicate Cleared(w: World, w': World, p: Pair) {
    p in w.addons && p !in w'.addons && w.addons[p].chart !in w'.charts
  }

  /** Whatever a deleted configuration that was ready listed is gone, with its charts. */
  lemma DeletedIsCleared(w: World, self: Name, outcomes: seq<Outcome>, p: Pair)
    requires Inv(w) && Enabled(w, Handle(self, outcomes)) && w.configs[self].deleting
    requires IsReadyIn(w, self) && p in Pairs(w.configs[self].status.repositories)
    ensures Cleared(w, Reconcile(w, self, outcomes), p) && self !in Reconcile(w, self, outcomes).configs
  {
    var repos := w.configs[self].status.repositories;
    assert Sound(w.configs[self]) && Holding(w, self) <= w.addons.Keys;
    AllReadyPairs(repos);
    ListingPairs(repos);
    hide Inv, Pairs, ReadyPairs, Listing;
    assert p in Elements(Listing(repos));
  }

  /** So is whatever a ready configuration lets go in a reconcile it completes. */
  lemma LetGoIsCleared(w: World, self: Name, outcomes: seq<Outcome>, p: Pair)
    requires Inv(w) && Enabled(w, Handle(self, outcomes)) && IsReadyIn(w, self) && !w.configs[self].deleting
    requires Completes(w, self, outcomes) && WillLetGo(w, self, Load(w.configs[self].repositories, outcomes), p)
    ensures Cleared(w, Reconcile(w, self, outcomes), p)
  {
    var c := w.configs[self];
    var loaded := Load(c.repositories, outcomes);
    LetsGoIffLoaded(w, self, outcomes, p);
    assert Sound(c) && Holding(w, self) <= w.addons.Keys;
    AllReadyPairs(c.status.repositories);
    SelfAfter(w, self, c.status, loaded);
    var rs := Verdict(w, self, loaded);
    DroppedIsLetGo(c.status, SomeFailed(rs), c.generation, Snapshot(rs));
    hide Inv, Load, Verdict, WillLetGo, OnAdd, Snapshot;
    assert Reconcile(w, self, outcomes) == OnAdd(w, self, c.status, loaded);
    hide Reconcile;
    NotSavedAgain(w, self, rs, p);
    assert p in Dropped(c.status, SomeFailed(rs), Snapshot(rs));
    hide LetsGo, Dropped, ReadyPairs, Pairs;
    RemovedWithChart(w, self, c.status, loaded, p);
  }

  /** A pair that the new status does not list keeps its record until it is removed. */
  lemma NotSavedAgain(w: World, self: Name, rs: seq<Repository>, p: Pair)
    requires self in w.configs && p in w.addons && (!SomeFailed(rs) ==> p !in Pairs(Snapshot(rs)))
    ensures p in Written(w, self, rs).addons && Written(w, self, rs).addons[p] == w.addons[p]
  {
    SavedAre(w.addons, ReadyEntries(rs));
    SnapshotPairs(rs);
    assert ReadyPairs(Snapshot(rs)) <= Pairs(Snapshot(rs));
    hide SavedAddons, ReadyEntries, Snapshot, Pairs, ReadyPairs;
  }

  lemma RemovedWithChart(w: World, self: Name, last: Status, loaded: seq<Repository>, p: Pair)
    requires self in w.configs && !SomeFetchingError(loaded) && p in w.addons
    requires var rs := Verdict(w, self, loaded);
             && p in Dropped(last, SomeFailed(rs), Snapshot(rs))
             && p in Written(w, self, rs).addons && Written(w, self, rs).addons[p] == w.addons[p]
    ensures Cleared(w, OnAdd(w, self, last, loaded), p)
  {
    hide Verdict, Written, Dropped, Snapshot, Hits;
  }

  lemma {:induction false} SavedKeys(addons: map<Pair, Record>, es: seq<Entry>)
    ensures SavedAddons(addons, es).Keys == addons.Keys + set e | e in es :: e.pair
  {
    if es != [] {
      var n := |es| - 1;
      SavedKeys(addons, es[..n]);
      assert es == es[..n] + [es[n]];
    }
  }

  ghost predicate SlashFree(repos: seq<StatusRepository>) {
    forall p | p in Pairs(repos) :: '/' !in p.version
  }

  /** A completed reconcile leaves in the store what was there, plus what is new, minus what was given up. */
  lemma StoreAfter(w: World, self: Name, last: Status, loaded: seq<Repository>)
    requires self in w.configs && Identified(loaded) && !SomeFetchingError(loaded)
    requires SlashFree(last.repositories) && SlashFree(Snapshot(Verdict(w, self, loaded)))
    ensures self in OnAdd(w, self, last, loaded).configs
    ensures var w' := OnAdd(w, self, last, loaded);
            var listed: set<Pair> := if last.phase == Ready then Pairs(last.repositories) else {};
            var now := w'.configs[self].status;
            w'.addons.Keys ==
              if now.phase == Ready then (w.addons.Keys - listed) + Pairs(now.repositories) else w.addons.Keys - listed
  {
    var rs := Verdict(w, self, loaded);
    SelfAfter(w, self, last, loaded);
    WrittenKeys(w, self, rs);
    if !SomeFailed(rs) {
      ReadyVerdict(w, self, loaded);
      AllReadyPairs(Snapshot(rs));
    }
    if last.phase == Ready {
      DroppedExactly(last, SomeFailed(rs), w.configs[self].generation, Snapshot(rs));
    }
    hide Verdict, Snapshot, Pairs, ReadyPairs, Written, Listing, Orphans, StayingKeys, SlashFree, AllReady;
    RemovesDropped(w, self, last, loaded);
    assert last.phase != Ready ==> Elements(Dropped(last, SomeFailed(rs), Snapshot(rs))) == {};
    hide OnAdd, Dropped, Elements, SomeFailed, SomeFetchingError;
  }

  lemma WrittenKeys(w: World, self: Name, rs: seq<Repository>)
    requires self in w.configs
    ensures Written(w, self, rs).addons.Keys ==
            if SomeFailed(rs) then w.addons.Keys else w.addons.Keys + ReadyPairs(Snapshot(rs))
  {
    var es := ReadyEntries(rs);
    SavedKeys(w.addons, es);
    SnapshotPairs(rs);
    hide SavedAddons, ReadyEntries, Snapshot, ReadyPairs;
    assert (set e | e in es :: e.pair) == ReadyPairs(Snapshot(rs));
  }

  lemma RemovesDropped(w: World, self: Name, last: Status, loaded: seq<Repository>)
    requires self in w.configs && !SomeFetchingError(loaded)
    ensures var rs := Verdict(w, self, loaded);
            OnAdd(w, self, last, loaded).addons.Keys ==
            Written(w, self, rs).addons.Keys - Elements(Dropped(last, SomeFailed(rs), Snapshot(rs)))
  {
    hide Verdict, Written, Dropped, Snapshot, Hits, Elements;
  }

  lemma DroppedExactly(last: Status, failed: bool, generation: nat, now: seq<StatusRepository>)
    requires last.phase == Ready && SlashFree(last.repositories) && SlashFree(now)
    ensures Elements(Dropped(last, failed, now)) ==
            if failed then Pairs(last.repositories) else Pairs(last.repositories) - Pairs(now)
  {
    DroppedIsLetGo(last, failed, generation, now);
    var after := Status(if failed then Failed else Ready, generation, now);
    hide Dropped, Pairs, Key;
    forall p ensures LetsGo(last, after, p) <==> p in Pairs(last.repositories) && (failed || p !in Pairs(now)) {
      if p in Pairs(last.repositories) && !failed && p !in Pairs(now) {
        forall q | q in Pairs(now) ensures Key(q) != Key(p) {
          if Key(q) == Key(p) {
            KeyInjective(p, q);
          }
        }
      }
    }
    hide LetsGo;
  }
}
