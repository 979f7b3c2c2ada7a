/** What every step of the reconciler keeps. */
module ReconcilerInvariant {
  import opened AddonsConfigurations
  import opened Collections
  import opened Reconciler
  import opened ReconcilerEffects

  ghost predicate Sound(c: Configuration) {
    && c.status.observedGeneration <= c.generation
    && c.generation >= 1
    && c.status.phase != Pending
    && BlockedVisible(c.status.repositories)
    && (c.status.phase == Ready ==> c.status.observedGeneration >= 1 && AllReady(c.status.repositories))
  }

  ghost predicate IsReadyIn(w: World, o: Name) {
    o in w.configs && w.configs[o].status.phase == Ready
  }

  /** The pairs a configuration reports as ready. */
  ghost function Holding(w: World, o: Name): set<Pair>
    requires o in w.configs
  {
    ReadyPairs(w.configs[o].status.repositories)
  }

  /** The invariant, with one configuration left aside. */
  ghost predicate InvBut(w: World, self: Name) {
    && (forall o | o in w.configs && o != self :: Sound(w.configs[o]))
    && (forall o, q | IsReadyIn(w, o) && IsReadyIn(w, q) && o != q && o != self && q != self ::
          Holding(w, o) !! Holding(w, q))
    && (forall o | IsReadyIn(w, o) && o != self :: Holding(w, o) <= w.addons.Keys)
  }

  ghost predicate Inv(w: World) {
    && (forall o | o in w.configs :: Sound(w.configs[o]))
    && (forall o, q | IsReadyIn(w, o) && IsReadyIn(w, q) && o != q :: Holding(w, o) !! Holding(w, q))
    && (forall o | IsReadyIn(w, o) :: Holding(w, o) <= w.addons.Keys)
  }

  /** `ps` holds nothing that a ready configuration other than `self` holds. */
  ghost predicate Foreign(w: World, self: Name, ps: set<Pair>) {
    forall o | IsReadyIn(w, o) && o != self :: ps !! Holding(w, o)
  }

  // ----- one reconcile: the others -----

  /** Nothing about another configuration changes but its request counter and its generation. */
  lemma OnAddOthers(w: World, self: Name, last: Status, loaded: seq<Repository>, o: Name)
    requires self in w.configs && o in w.configs && o != self
    ensures var w' := OnAdd(w, self, last, loaded);
            && w'.configs.Keys == w.configs.Keys
            && w'.configs[o] == Bump(w.configs[o], Woken(w, self, last, loaded, o))
  {
    hide Reviewed, Remove, Save, Snapshot, Hits, Dropped, SameStatus;
    if SomeFetchingError(loaded) {
      assert Bump(w.configs[o], 0) == w.configs[o];
    }
  }

  /** How often another configuration is asked to reprocess. */
  ghost function Woken(w: World, self: Name, last: Status, loaded: seq<Repository>, o: Name): nat
    requires o in w.configs
  {
    if SomeFetchingError(loaded) then 0
    else
      var rs := Verdict(w, self, loaded);
      Hits(Keys(Dropped(last, SomeFailed(rs), Snapshot(rs))), w.configs[o].status)
  }

  // ----- one reconcile: the store -----

  /** What happens to a pair that was in the store. */
  lemma RemoveKeeps(w: World, ps: seq<Pair>, p: Pair)
    requires p in w.addons && p !in Elements(ps)
    ensures p in Remove(w, ps).addons && Remove(w, ps).addons[p] == w.addons[p]
  {
  }

  /** Everything a reconcile gives up was its own, and is not listed any more if it comes out ready. */
  lemma DroppedIsOwn(last: Status, failed: bool, now: seq<StatusRepository>)
    ensures Elements(Dropped(last, failed, now)) <= Pairs(last.repositories)
    ensures last.phase != Ready ==> Dropped(last, failed, now) == []
    ensures !failed ==> Elements(Dropped(last, failed, now)) !! Pairs(now)
  {
    hide Key;
    ListingPairs(last.repositories);
    OrphansAre(Listing(last.repositories), StayingKeys(now));
    StayingKeysAre(now);
    hide Listing, Orphans, StayingKeys, Pairs;
    assert forall p | p in Elements(Dropped(last, failed, now)) :: p in Elements(Listing(last.repositories));
  }

  /** Another ready configuration's addons come through a reconcile untouched. */
  lemma OthersKeepAddon(w: World, self: Name, last: Status, loaded: seq<Repository>, o: Name, p: Pair)
    requires self in w.configs && Identified(loaded)
    requires last.phase == Ready ==> Foreign(w, self, Pairs(last.repositories))
    requires IsReadyIn(w, o) && o != self && p in Holding(w, o) && p in w.addons
    ensures var w' := OnAdd(w, self, last, loaded); p in w'.addons && w'.addons[p] == w.addons[p]
  {
    if !SomeFetchingError(loaded) {
      var rs := Verdict(w, self, loaded);
      var es, dropped := ReadyEntries(rs), Dropped(last, SomeFailed(rs), Snapshot(rs));
      DroppedIsOwn(last, SomeFailed(rs), Snapshot(rs));
      SavedAre(w.addons, es);
      if !SomeFailed(rs) {
        assert p in RegisteredElsewhere(w.configs, self);
        ReadyVerdict(w, self, loaded);
        SnapshotPairs(rs);
      }
      hide Verdict, SavedAddons, Dropped, Snapshot, ReadyEntries, RegisteredElsewhere, Pairs;
      RemoveKeeps(Written(w, self, rs), dropped, p);
    }
  }

  /** What a configuration that comes out ready reports is in the store. */
  lemma ReadyIsStored(w: World, self: Name, last: Status, loaded: seq<Repository>)
    requires self in w.configs && Identified(loaded)
    requires !SomeFetchingError(loaded) && !SomeFailed(Verdict(w, self, loaded))
    ensures var w' := OnAdd(w, self, last, loaded);
            && IsReadyIn(w', self)
            && Holding(w', self) <= w'.addons.Keys
            && w'.configs[self].status == Status(Ready, w.configs[self].generation, Snapshot(Verdict(w, self, loaded)))
  {
    var rs := Verdict(w, self, loaded);
    var snap, es := Snapshot(rs), ReadyEntries(rs);
    DroppedIsOwn(last, false, snap);
    SavedAre(w.addons, es);
    SnapshotPairs(rs);
    ReadyVerdict(w, self, loaded);
    AllReadyPairs(snap);
    hide Verdict, SavedAddons, Dropped, Snapshot, ReadyEntries, RegisteredElsewhere, Hits;
    var w' := OnAdd(w, self, last, loaded);
    forall p | p in ReadyPairs(snap) ensures p in w'.addons {
      RemoveKeeps(Written(w, self, rs), Dropped(last, false, snap), p);
    }
  }

  // ----- one reconcile: the invariant -----

  lemma OnAddSelfSound(w: World, self: Name, last: Status, urls: seq<string>, outcomes: seq<Outcome>)
    requires self in w.configs && |outcomes| == |urls| && WithIDs(outcomes)
    requires w.configs[self].generation >= 1
    requires last.phase == Pending || (Sound(w.configs[self]) && last == w.configs[self].status)
    ensures Sound(OnAdd(w, self, last, Load(urls, outcomes)).configs[self])
  {
    var loaded := Load(urls, outcomes);
    LoadedFacts(urls, outcomes);
    if SomeFetchingError(loaded) {
      SnapshotBlockedVisible(loaded);
    } else {
      VerdictBlockedVisible(loaded, RegisteredElsewhere(w.configs, self));
      if !SomeFailed(Verdict(w, self, loaded)) {
        ReadyVerdict(w, self, loaded);
      }
      hide Reviewed, RegisteredElsewhere, Dropped, Hits, Snapshot;
    }
  }

  lemma OnAddKeeps(w: World, self: Name, last: Status, urls: seq<string>, outcomes: seq<Outcome>)
    requires self in w.configs && |outcomes| == |urls| && WithIDs(outcomes)
    requires InvBut(w, self) && w.configs[self].generation >= 1
    requires last.phase == Pending || (Inv(w) && last == w.configs[self].status)
    ensures Inv(OnAdd(w, self, last, Load(urls, outcomes)))
  {
    var loaded := Load(urls, outcomes);
    var w' := OnAdd(w, self, last, loaded);
    LoadedFacts(urls, outcomes);
    assert Inv(w) ==> Sound(w.configs[self]);
    OnAddSelfSound(w, self, last, urls, outcomes);
    OwnIsForeign(w, self, last);
    OnAddSelf(w, self, last, loaded);
    forall o | o in w.configs && o != self ensures SameButBumped(w, w', o) {
      OnAddOthers(w, self, last, loaded, o);
    }
    forall o | IsReadyIn(w, o) && o != self ensures Holding(w, o) <= w'.addons.Keys {
      forall p | p in Holding(w, o) ensures p in w'.addons {
        OthersKeepAddon(w, self, last, loaded, o, p);
      }
    }
    OnAddKeys(w, self, last, loaded);
    hide OnAdd, Load, Inv, Identified, WithIDs;
    InvFromParts(w, w', self);
  }

  ghost predicate SameButBumped(w: World, w': World, o: Name) {
    o in w.configs && o in w'.configs && exists n: nat :: w'.configs[o] == Bump(w.configs[o], n)
  }

  lemma OnAddKeys(w: World, self: Name, last: Status, loaded: seq<Repository>)
    requires self in w.configs
    ensures OnAdd(w, self, last, loaded).configs.Keys == w.configs.Keys
  {
    hide Reviewed, Remove, Save, Snapshot, Hits, Dropped;
  }

  /** The status a completed reconcile leaves behind. */
  lemma SelfAfter(w: World, self: Name, last: Status, loaded: seq<Repository>)
    requires self in w.configs && !SomeFetchingError(loaded)
    ensures var rs, w' := Verdict(w, self, loaded), OnAdd(w, self, last, loaded);
            && self in w'.configs
            && w'.configs[self].status ==
               Status(if SomeFailed(rs) then Failed else Ready, w.configs[self].generation, Snapshot(rs))
  {
    hide Verdict, Dropped, Snapshot, Hits;
  }

  lemma InvFromParts(w: World, w': World, self: Name)
    requires InvBut(w, self) && self in w.configs && w'.configs.Keys == w.configs.Keys
    requires Sound(w'.configs[self])
    requires forall o | o in w.configs && o != self :: SameButBumped(w, w', o)
    requires forall o | IsReadyIn(w, o) && o != self :: Holding(w, o) <= w'.addons.Keys
    requires IsReadyIn(w', self) ==> Holding(w', self) <= w'.addons.Keys && Foreign(w, self, Holding(w', self))
    ensures Inv(w')
  {
    forall o | o in w.configs && o != self
      ensures Sound(w'.configs[o]) && w'.configs[o].status == w.configs[o].status
    {
      assert Sound(w.configs[o]);
    }
    hide Sound, ReadyPairs;
    forall o | IsReadyIn(w', o) && o != self ensures IsReadyIn(w, o) && Holding(w', o) == Holding(w, o) {
    }
  }

  /** A ready configuration's own listing is nobody else's. */
  lemma OwnIsForeign(w: World, self: Name, last: Status)
    requires self in w.configs
    requires last.phase == Pending || (Inv(w) && last == w.configs[self].status)
    ensures last.phase == Ready ==> Foreign(w, self, Pairs(last.repositories))
  {
    if last.phase == Ready {
      assert IsReadyIn(w, self);
      AllReadyPairs(last.repositories);
    }
  }

  /** If the configuration comes out ready, what it holds is stored and nobody else's. */
  lemma OnAddSelf(w: World, self: Name, last: Status, loaded: seq<Repository>)
    requires self in w.configs && Identified(loaded)
    requires last.phase == Pending || (Inv(w) && last == w.configs[self].status)
    ensures var w' := OnAdd(w, self, last, loaded);
            && self in w'.configs
            && (IsReadyIn(w', self) ==> Holding(w', self) <= w'.addons.Keys && Foreign(w, self, Holding(w', self)))
  {
    var w' := OnAdd(w, self, last, loaded);
    if SomeFetchingError(loaded) {
      assert w'.configs[self].status.phase == Failed || w' == w;
      assert IsReadyIn(w', self) ==> false;
    } else if SomeFailed(Verdict(w, self, loaded)) {
      hide Reviewed, RegisteredElsewhere, Dropped, Hits, Snapshot;
      assert w'.configs[self].status.phase == Failed;
    } else {
      ReadyIsStored(w, self, last, loaded);
      ReadyVerdict(w, self, loaded);
      var snap := Snapshot(Verdict(w, self, loaded));
      forall o | IsReadyIn(w, o) && o != self ensures ReadyPairs(snap) !! Holding(w, o) {
        assert forall p | p in Holding(w, o) :: p in RegisteredElsewhere(w.configs, self);
      }
    }
  }
}
