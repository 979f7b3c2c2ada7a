/**
 Over whole runs: why a configuration is left behind, and how a ready one can be evicted by another that
 never was.
 */
module ReconcilerCauses {
  import opened AddonsConfigurations
  import opened Collections
  import opened CollectionReview
  import opened Reconciler
  import opened ReconcilerEffects
  import opened ReconcilerInvariant
  import opened ReconcilerRuns
  import opened ReconcilerWakeUps
  import opened ReconcilerStranded

  // ----- configurations the controller has not seen -----

  /** Without a finalizer nothing has been reported yet. */
  ghost predicate Untouched(w: World) {
    forall o | o in w.configs && !w.configs[o].finalizer :: w.configs[o].status == Status(Unset, 0, [])
  }

  lemma OnAddKeepsUntouched(w: World, self: Name, last: Status, loaded: seq<Repository>)
    requires self in w.configs && w.configs[self].finalizer && Untouched(w)
    ensures Untouched(OnAdd(w, self, last, loaded))
  {
    hide Reviewed, Remove, Save, Snapshot, Hits, Dropped, SameStatus, SomeFailed;
  }

  lemma StepKeepsUntouched(w: World, a: Action)
    requires Enabled(w, a) && Untouched(w)
    ensures Untouched(Step(w, a))
  {
    if a.Handle? {
      var c := w.configs[a.name];
      var loaded := Load(c.repositories, a.outcomes);
      hide Load, OnAdd;
      if !c.deleting && InitialProcessing(c) {
        var prepared := Prepared(w, a.name);
        assert Untouched(prepared);
        OnAddKeepsUntouched(prepared, a.name, prepared.configs[a.name].status, loaded);
      } else if !c.deleting && Reprocessing(c) {
        OnAddKeepsUntouched(w, a.name, c.status, loaded);
      }
    }
  }

  lemma {:induction false} RunUntouched(run: seq<World>, actions: seq<Action>, n: nat)
    requires IsRun(run, actions) && n < |run|
    ensures Untouched(run[n])
  {
    if n > 0 {
      RunUntouched(run, actions, n - 1);
      hide Step, Untouched;
      StepKeepsUntouched(run[n - 1], actions[n - 1]);
    }
  }

  // ----- why somebody is left behind -----

  /** Something will make the controller try again. */
  ghost predicate Due(c: Configuration) {
    InitialProcessing(c) || Reprocessing(c)
  }

  /**
   The step at `k` is a reconcile of another configuration that stops reporting the pair, while it was not ready or
   could not fetch an address.
   */
  ghost predicate BadRelease(run: seq<World>, actions: seq<Action>, k: nat, o: Name, p: Pair)
    requires IsRun(run, actions) && k < |actions|
  {
    && actions[k].Handle? && actions[k].name != o
    && p in Holding(run[k], actions[k].name)
    && p !in RegisteredElsewhere(run[k + 1].configs, o)
    && var c := run[k].configs[actions[k].name];
       || !IsReadyIn(run[k], actions[k].name)
       || (!c.deleting && SomeFetchingError(Load(c.repositories, actions[k].outcomes)))
  }

  ghost predicate SomeBadRelease(run: seq<World>, actions: seq<Action>, n: nat, o: Name, p: Pair)
    requires IsRun(run, actions) && n <= |actions|
  {
    exists k | 0 <= k < n :: BadRelease(run, actions, k, o, p)
  }

  /** Whoever is blocked has a reason: the pair is registered, it is due, or somebody released the pair badly. */
  ghost predicate Accounted(run: seq<World>, actions: seq<Action>, n: nat, o: Name, p: Pair)
    requires IsRun(run, actions) && n < |run| && o in run[n].configs
  {
    || p in RegisteredElsewhere(run[n].configs, o)
    || Due(run[n].configs[o])
    || SomeBadRelease(run, actions, n, o, p)
  }

  ghost predicate BlockedOver(st: Status, p: Pair) {
    exists i: nat, j: nat :: Blocked(st, p, i, j)
  }

  /** Every status a reconcile of one's own writes blocks only over registered pairs. */
  lemma OwnReviewBlocks(w: World, self: Name, outcomes: seq<Outcome>, p: Pair)
    requires Inv(w) && Enabled(w, Handle(self, outcomes)) && !w.configs[self].deleting
    requires self in Reconcile(w, self, outcomes).configs
    requires BlockedOver(Reconcile(w, self, outcomes).configs[self].status, p)
    ensures Reconcile(w, self, outcomes) == w || p in RegisteredElsewhere(w.configs, self)
  {
    var c := w.configs[self];
    var loaded := Load(c.repositories, outcomes);
    LoadedFacts(c.repositories, outcomes);
    if InitialProcessing(c) || Reprocessing(c) {
      var start := if InitialProcessing(c) then Prepared(w, self) else w;
      PreparedRegistered(w, self);
      assert InitialProcessing(c) ==> start.configs[self].status.phase == Pending;
      hide Load, OnAdd;
      assert Reconcile(w, self, outcomes) == OnAdd(start, self, start.configs[self].status, loaded);
      hide Reconcile, Inv;
      OnAddBlocks(start, self, start.configs[self].status, loaded, p);
    }
  }

  lemma OnAddBlocks(w: World, self: Name, last: Status, loaded: seq<Repository>, p: Pair)
    requires self in w.configs && (last.phase == Pending || last == w.configs[self].status)
    requires forall i, j | Position(loaded, i, j) :: loaded[i].addons[j].reason != ConflictWithAlreadyRegisteredAddons
    requires self in OnAdd(w, self, last, loaded).configs
    requires BlockedOver(OnAdd(w, self, last, loaded).configs[self].status, p)
    ensures (last.phase != Pending && OnAdd(w, self, last, loaded) == w) || p in RegisteredElsewhere(w.configs, self)
  {
    var w' := OnAdd(w, self, last, loaded);
    if SomeFetchingError(loaded) {
      UnreviewedBlocksNothing(loaded, p, w.configs[self].generation);
      hide Snapshot;
    } else {
      SelfAfter(w, self, last, loaded);
      hide OnAdd, RegisteredElsewhere, Reviewed;
      VerdictBlocks(loaded, RegisteredElsewhere(w.configs, self), p, w'.configs[self].status);
    }
  }

  lemma UnreviewedBlocksNothing(loaded: seq<Repository>, p: Pair, generation: nat)
    requires forall i, j | Position(loaded, i, j) :: loaded[i].addons[j].reason != ConflictWithAlreadyRegisteredAddons
    ensures !BlockedOver(Status(Failed, generation, Snapshot(loaded)), p)
  {
    forall i: nat, j: nat ensures !Blocked(Status(Failed, generation, Snapshot(loaded)), p, i, j) {
      if i < |loaded| && j < |loaded[i].addons| {
        assert Position(loaded, i, j);
        assert Snapshot(loaded)[i].addons[j] == Report(loaded[i].addons[j]);
      }
    }
  }

  lemma VerdictBlocks(loaded: seq<Repository>, registered: set<Pair>, p: Pair, st: Status)
    requires forall i, j | Position(loaded, i, j) :: loaded[i].addons[j].reason != ConflictWithAlreadyRegisteredAddons
    requires st.repositories == Snapshot(Reviewed(loaded, registered)) && BlockedOver(st, p)
    ensures p in registered
  {
    var rs := Reviewed(loaded, registered);
    ReviewedShape(loaded, registered);
    var i: nat, j: nat :| Blocked(st, p, i, j);
    assert Position(loaded, i, j);
    ReviewedEntry(loaded, registered, i, j);
    hide Reviewed, Late;
    assert st.repositories[i].addons[j] == Report(rs[i].addons[j]);
  }

  /** A reconcile of one's own does not touch what others report. */
  lemma OwnHandleKeepsOthers(w: World, self: Name, outcomes: seq<Outcome>)
    requires Inv(w) && Enabled(w, Handle(self, outcomes)) && !w.configs[self].deleting
    ensures RegisteredElsewhere(Reconcile(w, self, outcomes).configs, self) == RegisteredElsewhere(w.configs, self)
  {
    var w' := Reconcile(w, self, outcomes);
    SelfStays(w, self, outcomes);
    ReconcileNames(w, self, outcomes);
    forall o | o in w.configs && o != self ensures o in w'.configs && w'.configs[o].status == w.configs[o].status {
      AskedIff(w, self, outcomes, o);
    }
    hide Reconcile, Inv, ReadyPairs;
  }

  lemma ReconcileNames(w: World, self: Name, outcomes: seq<Outcome>)
    requires Enabled(w, Handle(self, outcomes)) && !w.configs[self].deleting
    ensures Reconcile(w, self, outcomes).configs.Keys == w.configs.Keys
  {
    hide OnAdd, Load;
    var c := w.configs[self];
    OnAddKeys(w, self, c.status, Load(c.repositories, outcomes));
    var prepared := Prepared(w, self);
    OnAddKeys(prepared, self, prepared.configs[self].status, Load(c.repositories, outcomes));
  }

  ghost predicate SlashFreeWorld(w: World) {
    forall q | q in w.configs :: SlashFree(w.configs[q].status.repositories)
  }

  /** Users change nothing that is reported; what they delete without the controller reports nothing. */
  lemma UserStepAccounts(w: World, a: Action, o: Name, p: Pair)
    requires Inv(w) && Untouched(w) && Enabled(w, a) && !a.Handle?
    requires o in Step(w, a).configs && BlockedOver(Step(w, a).configs[o].status, p)
    ensures o in w.configs && w.configs[o].status == Step(w, a).configs[o].status
    ensures Due(Step(w, a).configs[o]) || Step(w, a).configs[o] == w.configs[o]
    ensures RegisteredElsewhere(w.configs, o) <= RegisteredElsewhere(Step(w, a).configs, o)
  {
    var w' := Step(w, a);
    assert Sound(w.configs[o]);
    forall q, r | q in w.configs && q != o && r in ReadyPairs(w.configs[q].status.repositories)
      ensures q in w'.configs && w'.configs[q].status == w.configs[q].status
    {
    }
    hide Inv, Step, ReadyPairs;
  }

  /** A reconcile of another configuration. */
  lemma OtherHandleAccounts(w: World, self: Name, outcomes: seq<Outcome>, o: Name, p: Pair)
    requires Inv(w) && Enabled(w, Handle(self, outcomes)) && self != o
    requires SlashFreeWorld(w) && SlashFreeWorld(Reconcile(w, self, outcomes))
    requires o in Reconcile(w, self, outcomes).configs
    requires BlockedOver(Reconcile(w, self, outcomes).configs[o].status, p)
    ensures o in w.configs && w.configs[o].status == Reconcile(w, self, outcomes).configs[o].status
    ensures Due(w.configs[o]) ==> Due(Reconcile(w, self, outcomes).configs[o])
    ensures p in RegisteredElsewhere(w.configs, o) ==>
              || p in RegisteredElsewhere(Reconcile(w, self, outcomes).configs, o)
              || Due(Reconcile(w, self, outcomes).configs[o])
              || (p in Holding(w, self) &&
                  (!IsReadyIn(w, self) ||
                   (!w.configs[self].deleting && SomeFetchingError(Load(w.configs[self].repositories, outcomes)))))
  {
    var w' := Reconcile(w, self, outcomes);
    OtherWasThere(w, self, outcomes, o);
    AskedIff(w, self, outcomes, o);
    if p in RegisteredElsewhere(w.configs, o) && p !in RegisteredElsewhere(w'.configs, o) {
      ReleasedBySelf(w, self, outcomes, o, p);
      if IsReadyIn(w, self) &&
         (w.configs[self].deleting || !SomeFetchingError(Load(w.configs[self].repositories, outcomes))) {
        var i: nat, j: nat :| Blocked(w'.configs[o].status, p, i, j);
        hide Inv, Reconcile, SlashFree, RegisteredElsewhere, Reprocessing;
        BlockedIsDueWhenReleased(w, self, outcomes, o, p, i, j);
      }
    }
  }

  lemma OtherWasThere(w: World, self: Name, outcomes: seq<Outcome>, o: Name)
    requires Enabled(w, Handle(self, outcomes)) && o in Reconcile(w, self, outcomes).configs
    ensures o in w.configs
  {
    if !w.configs[self].deleting {
      ReconcileNames(w, self, outcomes);
      hide Reconcile;
    }
  }

  lemma {:induction false} RunAccounted(run: seq<World>, actions: seq<Action>, n: nat, o: Name, p: Pair)
    requires IsRun(run, actions) && n < |run|
    requires forall k | 0 <= k <= n :: SlashFreeWorld(run[k])
    requires o in run[n].configs && BlockedOver(run[n].configs[o].status, p)
    ensures Accounted(run, actions, n, o, p)
  {
    hide Step, Inv, Untouched, SlashFreeWorld, RegisteredElsewhere, Due, BlockedOver;
    if n > 0 {
      var w, a := run[n - 1], actions[n - 1];
      assert Enabled(w, a) && run[n] == Step(w, a);
      RunKeeps(run, actions, n - 1);
      RunUntouched(run, actions, n - 1);
      if !a.Handle? {
        UserStepAccounts(w, a, o, p);
        RunAccounted(run, actions, n - 1, o, p);
      } else {
        HandleIsReconcile(w, a);
        if a.name == o {
          OwnHandleAccounts(w, a.outcomes, o, p);
          if run[n] == w {
            RunAccounted(run, actions, n - 1, o, p);
          }
        } else {
          OtherHandleAccounts(w, a.name, a.outcomes, o, p);
          RunAccounted(run, actions, n - 1, o, p);
          if p in RegisteredElsewhere(w.configs, o) && !Due(run[n].configs[o]) {
            assert p in RegisteredElsewhere(run[n].configs, o) || BadRelease(run, actions, n - 1, o, p);
          }
        }
      }
    }
  }

  lemma HandleIsReconcile(w: World, a: Action)
    requires Enabled(w, a) && a.Handle?
    ensures Step(w, a) == Reconcile(w, a.name, a.outcomes)
  {
    hide Reconcile;
  }

  lemma OwnHandleAccounts(w: World, outcomes: seq<Outcome>, o: Name, p: Pair)
    requires Inv(w) && Enabled(w, Handle(o, outcomes))
    requires o in Reconcile(w, o, outcomes).configs && BlockedOver(Reconcile(w, o, outcomes).configs[o].status, p)
    ensures Reconcile(w, o, outcomes) == w || p in RegisteredElsewhere(Reconcile(w, o, outcomes).configs, o)
  {
    assert !w.configs[o].deleting;
    hide Reconcile, Inv, RegisteredElsewhere;
    OwnReviewBlocks(w, o, outcomes, p);
    OwnHandleKeepsOthers(w, o, outcomes);
  }

  /**
   In every run, whoever is left behind was left behind by a reconcile of another configuration that stopped
   reporting the pair while it was not ready, or with a fetching error.
   */
  lemma StrandedHasCause(run: seq<World>, actions: seq<Action>, n: nat, o: Name, p: Pair)
    requires IsRun(run, actions) && n < |run| && Stranded(run[n], o, p)
    requires forall k | 0 <= k <= n :: SlashFreeWorld(run[k])
    ensures SomeBadRelease(run, actions, n, o, p)
  {
    hide Step, SlashFreeWorld, RegisteredElsewhere;
    var i, j :| Blocked(run[n].configs[o].status, p, i, j);
    RunAccounted(run, actions, n, o, p);
  }

  // ----- eviction -----

  /**
   A ready configuration that is reconciled with nothing wrong of its own loses its readiness exactly when another
   one, which then is not ready, reports one of its pairs as ready; and then all its addons leave the store.
   */
  lemma EvictedIff(w: World, self: Name, outcomes: seq<Outcome>)
    requires Inv(w) && Enabled(w, Handle(self, outcomes)) && IsReadyIn(w, self) && Completes(w, self, outcomes)
    requires var loaded := Load(w.configs[self].repositories, outcomes);
             && AllLoaded(loaded) && IDsDistinct(loaded)
             && forall i, j | Position(loaded, i, j) :: loaded[i].addons[j].pair in Holding(w, self)
    ensures !IsReadyIn(Reconcile(w, self, outcomes), self) <==>
            exists q, p :: Evicts(w, self, Load(w.configs[self].repositories, outcomes), q, p)
    ensures !IsReadyIn(Reconcile(w, self, outcomes), self) ==>
              Reconcile(w, self, outcomes).addons.Keys !! Holding(w, self)
  {
    var loaded := Load(w.configs[self].repositories, outcomes);
    EndsReadyIff(w, self, outcomes);
    forall q, p | Evicts(w, self, loaded, q, p) ensures p in RegisteredElsewhere(w.configs, self) {
    }
    if !IsReadyIn(Reconcile(w, self, outcomes), self) {
      var i, j :| Position(loaded, i, j) && loaded[i].addons[j].pair in RegisteredElsewhere(w.configs, self);
      var p := loaded[i].addons[j].pair;
      var q :| q in w.configs && q != self && p in ReadyPairs(w.configs[q].status.repositories);
      assert p in Holding(w, q) && p in Holding(w, self);
      assert Evicts(w, self, loaded, q, p);
      EvictedLosesAll(w, self, outcomes);
    }
  }

  /** `q` is not ready and reports a pair as ready that was loaded for `self`. */
  ghost predicate Evicts(w: World, self: Name, loaded: seq<Repository>, q: Name, p: Pair) {
    && q in w.configs && q != self && !IsReadyIn(w, q) && p in Holding(w, q)
    && exists i, j | Position(loaded, i, j) :: loaded[i].addons[j].pair == p
  }

  lemma EvictedLosesAll(w: World, self: Name, outcomes: seq<Outcome>)
    requires Inv(w) && Enabled(w, Handle(self, outcomes)) && IsReadyIn(w, self) && Completes(w, self, outcomes)
    requires !IsReadyIn(Reconcile(w, self, outcomes), self)
    ensures Reconcile(w, self, outcomes).addons.Keys !! Holding(w, self)
  {
    var c := w.configs[self];
    assert Sound(c);
    var loaded := Load(c.repositories, outcomes);
    var rs := Verdict(w, self, loaded);
    hide Load;
    assert Reconcile(w, self, outcomes) == OnAdd(w, self, c.status, loaded);
    SelfAfter(w, self, c.status, loaded);
    AllReadyPairs(c.status.repositories);
    ListingPairs(c.status.repositories);
    hide Reconcile, Inv, Verdict, Snapshot, Pairs, ReadyPairs, Listing, Written;
    assert SomeFailed(rs);
    RemovesDropped(w, self, c.status, loaded);
  }

  /** What the other one reports after failing to fetch its second address: the first, unreviewed. */
  lemma ReportsUnreviewed(w: World, r: Rivals, second: string, message: string)
    requires Sensible(r) && second != "" && r.other in w.configs && w.configs[r.other] == Fresh([r.url, second])
    ensures Enabled(w, Handle(r.other, [Wanted(r), Unfetched(message)]))
    ensures var w' := Reconcile(w, r.other, [Wanted(r), Unfetched(message)]);
            && w'.configs.Keys == w.configs.Keys
            && (forall o | o in w.configs && o != r.other :: w'.configs[o] == w.configs[o])
            && r.pair in Holding(w', r.other)
  {
    var outcomes := [Wanted(r), Unfetched(message)];
    var loaded := Load([r.url, second], outcomes);
    assert loaded[0] == LoadRepository(r.url, Wanted(r)) && loaded[1] == LoadRepository(second, Unfetched(message));
    assert IsFetchingError(loaded[1]);
    var snap := Snapshot(loaded);
    assert snap[0].addons[0] == Report(loaded[0].addons[0]) == Addon(r.pair, AddonReady, NoReason);
    assert r.pair in ReadyPairs(snap);
    hide Load, Snapshot, ReadyPairs;
    var w' := Reconcile(w, r.other, outcomes);
    assert w' == WithStatus(Prepared(w, r.other), r.other, Status(Failed, 1, snap));
  }

  /** A ready owner, and beside it another one that reports the addon too. */
  lemma ReportedTwice(r: Rivals, second: string, message: string)
    returns (run: seq<World>, actions: seq<Action>, w: World)
    requires Sensible(r) && second != ""
    ensures EndsIn(run, actions, w)
    ensures r.owner in w.configs && w.configs[r.owner] == Owning(r, [])
    ensures r.other in w.configs && r.pair in Holding(w, r.other)
  {
    hide EndsIn, Owning, Reconcile, ReadyPairs;
    var w2;
    run, actions, w2 := OwnerSettles(r, []);
    var a3, a4 := Create(r.other, [r.url, second]), Handle(r.other, [Wanted(r), Unfetched(message)]);
    var w3 := Step(w2, a3);
    run, actions := RunGoesOn(run, actions, w2, a3);
    ReportsUnreviewed(w3, r, second, message);
    HandleIsReconcile(w3, a4);
    w := Step(w3, a4);
    hide Step, Enabled;
    run, actions := RunGoesOn(run, actions, w3, a4);
  }

  /**
   A run, for all names, addresses and addons: a ready configuration is touched, finds its addon reported by another
   one that never got past a fetching error, fails, and deletes the addon.
   */
  lemma FetchErrorEvicts(r: Rivals, second: string, message: string) returns (run: seq<World>, actions: seq<Action>)
    requires Sensible(r) && second != ""
    ensures IsRun(run, actions) && |actions| > 0
    ensures var before := run[|actions| - 1]; IsReadyIn(before, r.owner) && r.pair in Holding(before, r.owner)
    ensures var after := run[|actions|]; !IsReadyIn(after, r.owner) && r.pair !in after.addons
  {
    var w4;
    run, actions, w4 := ReportedTwice(r, second, message);
    var a5, a6 := Change(r.owner, [r.url], 0), Handle(r.owner, [Wanted(r)]);
    var w5 := Step(w4, a5);
    hide Reconcile, Owning;
    run, actions := RunGoesOn(run, actions, w4, a5);
    RunKeeps(run, actions, |actions|);
    hide Inv, IsRun;
    ReadyOwner(w5, r);
    HandleIsReconcile(w5, a6);
    hide Step, Enabled;
    run, actions := RunGoesOn(run, actions, w5, a6);
  }

  /** The owner, touched, with the pair reported elsewhere: it is evicted. */
  lemma ReadyOwner(w: World, r: Rivals)
    requires Inv(w) && Sensible(r) && r.owner in w.configs && r.other in w.configs && r.pair in Holding(w, r.other)
    requires w.configs[r.owner] == Owning(r, []).(generation := 2, repositories := [r.url])
    ensures IsReadyIn(w, r.owner) && r.pair in Holding(w, r.owner)
    ensures Enabled(w, Handle(r.owner, [Wanted(r)]))
    ensures var w' := Reconcile(w, r.owner, [Wanted(r)]); !IsReadyIn(w', r.owner) && r.pair !in w'.addons
  {
    var repos := w.configs[r.owner].status.repositories;
    assert repos[0].addons[0] == Addon(r.pair, AddonReady, NoReason);
    assert r.pair in Holding(w, r.owner);
    LoadsOne(r);
    BrokenHasIDs(r, []);
    assert [Wanted(r)] + Broken([]) == [Wanted(r)];
    var loaded := Load([r.url], [Wanted(r)]);
    assert Position(loaded, 0, 0) && loaded[0].addons[0].pair == r.pair;
    assert r.pair in RegisteredElsewhere(w.configs, r.owner);
    assert !NoneRegistered(loaded, RegisteredElsewhere(w.configs, r.owner));
    assert !SomeFetchingError(loaded);
    assert Completes(w, r.owner, [Wanted(r)]);
    hide Reconcile, Load, Inv, RegisteredElsewhere;
    EndsReadyIff(w, r.owner, [Wanted(r)]);
    EvictedLosesAll(w, r.owner, [Wanted(r)]);
  }
}
