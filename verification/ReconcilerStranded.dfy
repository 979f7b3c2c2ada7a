/**
 Where wake-ups are missed. A configuration can stay blocked over an addon that nobody registers any
 more, with no reason to try again: when the owner ran into a fetching error, and when the owner had
 failed all along for another reason. Each lemma is a run from the beginning that ends so, for all names,
 addresses and addons.
 */
module ReconcilerStranded {
  import opened AddonsConfigurations
  import opened Collections
  import opened CollectionReview
  import opened Reconciler
  import opened ReconcilerEffects
  import opened ReconcilerInvariant
  import opened ReconcilerRuns
  import opened ReconcilerWakeUps

  /** Blocked over a pair that nobody else reports as ready, and not due. */
  ghost predicate Stranded(w: World, o: Name, p: Pair) {
    && o in w.configs && !w.configs[o].deleting
    && (exists i, j :: Blocked(w.configs[o].status, p, i, j))
    && p !in RegisteredElsewhere(w.configs, o)
    && !InitialProcessing(w.configs[o]) && !Reprocessing(w.configs[o])
  }

  // ----- runs, step by step -----

  ghost predicate EndsIn(run: seq<World>, actions: seq<Action>, w: World) {
    IsRun(run, actions) && run[|actions|] == w
  }

  lemma RunBegins() returns (run: seq<World>, actions: seq<Action>)
    ensures EndsIn(run, actions, World(map[], map[], {}))
  {
    run, actions := [World(map[], map[], {})], [];
  }

  lemma RunGoesOn(run: seq<World>, actions: seq<Action>, w: World, a: Action)
    returns (run': seq<World>, actions': seq<Action>)
    requires EndsIn(run, actions, w) && Enabled(w, a)
    ensures EndsIn(run', actions', Step(w, a))
    ensures run' == run + [Step(w, a)] && actions' == actions + [a]
  {
    hide Step, Enabled;
    run', actions' := run + [Step(w, a)], actions + [a];
    forall n | 0 <= n < |actions'|
      ensures Enabled(run'[n], actions'[n]) && run'[n + 1] == Step(run'[n], actions'[n])
    {
      if n < |actions| {
        assert run'[n] == run[n] && run'[n + 1] == run[n + 1] && actions'[n] == actions[n];
      }
    }
  }

  /** What handling a configuration for the first time, with every address fetched, does to configurations. */
  lemma HandledFirst(w: World, self: Name, outcomes: seq<Outcome>)
    requires Enabled(w, Handle(self, outcomes))
    requires !w.configs[self].deleting && w.configs[self].status.observedGeneration == 0
    requires !SomeFetchingError(Load(w.configs[self].repositories, outcomes))
    ensures var c, rs := w.configs[self], Verdict(w, self, Load(w.configs[self].repositories, outcomes));
            Reconcile(w, self, outcomes).configs ==
            w.configs[self := c.(finalizer := true,
                                 status := Status(if SomeFailed(rs) then Failed else Ready, c.generation,
                                                  Snapshot(rs)))]
  {
    var c := w.configs[self];
    var loaded, prepared := Load(c.repositories, outcomes), Prepared(w, self);
    PreparedRegistered(w, self);
    NothingDropped(prepared, self, prepared.configs[self].status, loaded);
    hide Load, Reviewed, RegisteredElsewhere, Snapshot, OnAdd, Save;
  }

  /** Unless it was ready, a configuration whose reconcile completes only has its own status written. */
  lemma NothingDropped(w: World, self: Name, last: Status, loaded: seq<Repository>)
    requires self in w.configs && last.phase != Ready && !SomeFetchingError(loaded)
    ensures OnAdd(w, self, last, loaded) == Written(w, self, Verdict(w, self, loaded))
  {
    var written := Written(w, self, Verdict(w, self, loaded));
    RemoveNone(written);
    WakeNone(written, self);
    hide Verdict, Written, Wake, Remove;
  }

  // ----- one addon, and possibly an address that fails -----

  /** What is loaded from an address with this one addon. */
  function Single(url: string, e: Entry): Repository {
    Repository(url, RepositoryReady, NoRepositoryReason, "", [e])
  }

  function Reported(url: string, p: Pair): StatusRepository {
    StatusRepository(url, RepositoryReady, NoRepositoryReason, "", [Addon(p, AddonReady, NoReason)])
  }

  function ReportedBlocked(url: string, p: Pair): StatusRepository {
    StatusRepository(url, RepositoryFailed, NoRepositoryReason, "",
                     [Addon(p, AddonFailed, ConflictWithAlreadyRegisteredAddons)])
  }

  /** The review of one addon beside repositories without any. */
  lemma SingleReviewed(url: string, e: Entry, tail: seq<Repository>, registered: set<Pair>)
    requires IsComplete(e) && e.status == AddonReady && e.reason == NoReason
    requires forall i | 0 <= i < |tail| :: tail[i].addons == []
    ensures var rs := Reviewed([Single(url, e)] + tail, registered);
            && Snapshot(rs) == [if e.pair in registered then ReportedBlocked(url, e.pair) else Reported(url, e.pair)]
                               + Snapshot(tail)
            && (SomeFailed(rs) <==> e.pair in registered || SomeFailed(tail))
  {
    var loaded := [Single(url, e)] + tail;
    var rs := Reviewed(loaded, registered);
    assert Position(loaded, 0, 0) && loaded[0].addons[0] == e;
    ReviewedEntry(loaded, registered, 0, 0);
    ReviewedShape(loaded, registered);
    assert !Late(loaded, 0, 0);
    hide Reviewed, Late;
    assert rs[0].addons == [if e.pair in registered then Fail(e, ConflictWithAlreadyRegisteredAddons) else e];
    assert HasFailedAddons(rs[0]) <==> e.pair in registered;
    forall i | 0 < i < |loaded| ensures rs[i] == loaded[i] {
      assert loaded[i] == tail[i - 1] && rs[i].addons == [] && !HasFailedAddons(rs[i]);
    }
    hide HasFailedAddons;
    SnapshotOfTail(rs, tail);
  }

  lemma SnapshotOfTail(rs: seq<Repository>, tail: seq<Repository>)
    requires |rs| == |tail| + 1 && |rs[0].addons| == 1
    requires forall i | 0 < i < |rs| :: rs[i] == tail[i - 1]
    ensures Snapshot(rs) == [StatusRepository(rs[0].url, rs[0].status, rs[0].reason, rs[0].message,
                                              [Report(rs[0].addons[0])])] + Snapshot(tail)
    ensures SomeFailed(rs) <==> rs[0].status == RepositoryFailed || SomeFailed(tail)
  {
    var snap, rest := Snapshot(rs), Snapshot(tail);
    forall i | 0 <= i < |tail| ensures snap[i + 1] == rest[i] && rs[i + 1] == tail[i] {
    }
    assert snap[0].addons == [Report(rs[0].addons[0])];
    assert snap == [snap[0]] + rest;
  }

  // ----- the common beginning -----

  /** Two configurations that want one addon from one address. */
  datatype Rivals = Rivals(owner: Name, other: Name, url: string, id: string, pair: Pair, chart: Chart)

  ghost predicate Sensible(r: Rivals) {
    r.owner != r.other && r.url != "" && r.id != ""
  }

  function Wanted(r: Rivals): Outcome {
    Index([Got(r.id, r.pair, r.chart)])
  }

  function EntryOf(r: Rivals): Entry {
    Entry(r.id, r.pair, r.chart, AddonReady, NoReason)
  }

  /** Addresses that cannot be templated. */
  function Broken(urls: seq<string>): seq<Outcome> {
    seq(|urls|, _ => Untemplated("broken"))
  }

  lemma LoadsBroken(urls: seq<string>)
    ensures var tail := Load(urls, Broken(urls));
            && (forall i | 0 <= i < |tail| :: tail[i].addons == [] && tail[i].status == RepositoryFailed)
            && (forall i | 0 <= i < |tail| :: !IsFetchingError(tail[i]))
            && (SomeFailed(tail) <==> urls != [])
  {
    var tail := Load(urls, Broken(urls));
    forall i | 0 <= i < |tail|
      ensures tail[i].addons == [] && tail[i].status == RepositoryFailed && !IsFetchingError(tail[i])
    {
      assert tail[i] == LoadRepository(urls[i], Untemplated("broken"));
    }
    if urls != [] {
      assert tail[0].status == RepositoryFailed;
    }
  }

  lemma LoadsSingle(r: Rivals, more: seq<string>)
    requires Sensible(r)
    ensures var tail := Load(more, Broken(more));
            && Load([r.url] + more, [Wanted(r)] + Broken(more)) == [Single(r.url, EntryOf(r))] + tail
            && !SomeFetchingError([Single(r.url, EntryOf(r))] + tail)
            && WithIDs([Wanted(r)] + Broken(more))
  {
    LoadsBroken(more);
    LoadsOne(r);
    hide Load, LoadRepository, Broken;
    LoadsBoth([r.url], [Wanted(r)], more, Broken(more));
    BrokenHasIDs(r, more);
  }

  lemma LoadsOne(r: Rivals)
    requires Sensible(r)
    ensures Load([r.url], [Wanted(r)]) == [Single(r.url, EntryOf(r))]
  {
    assert LoadRepository(r.url, Wanted(r)).addons == [EntryOf(r)];
  }

  lemma LoadsBoth(urls: seq<string>, outcomes: seq<Outcome>, more: seq<string>, others: seq<Outcome>)
    requires |urls| == |outcomes| && |more| == |others|
    ensures Load(urls + more, outcomes + others) == Load(urls, outcomes) + Load(more, others)
  {
    hide LoadRepository;
  }

  lemma BrokenHasIDs(r: Rivals, more: seq<string>)
    requires Sensible(r)
    ensures WithIDs([Wanted(r)] + Broken(more))
  {
    var outcomes := [Wanted(r)] + Broken(more);
    assert forall i | 0 < i < |outcomes| :: outcomes[i] == Untemplated("broken");
  }

  function Fresh(urls: seq<string>): Configuration {
    Configuration(1, false, false, 0, urls, Status(Unset, 0, []))
  }

  function Owning(r: Rivals, more: seq<string>): Configuration {
    Configuration(1, false, true, 0, [r.url] + more,
                  Status(if more == [] then Ready else Failed, 1,
                         [Reported(r.url, r.pair)] + Snapshot(Load(more, Broken(more)))))
  }

  function Waiting(r: Rivals): Configuration {
    Configuration(1, false, true, 0, [r.url], Status(Failed, 1, [ReportedBlocked(r.url, r.pair)]))
  }

  /** The first handling of either rival. */
  lemma RivalHandled(w: World, r: Rivals, self: Name, more: seq<string>)
    requires Sensible(r) && self in w.configs && w.configs[self] == Fresh([r.url] + more)
    ensures Enabled(w, Handle(self, [Wanted(r)] + Broken(more)))
    ensures Reconcile(w, self, [Wanted(r)] + Broken(more)).configs[self].status.observedGeneration == 1
    ensures r.pair !in RegisteredElsewhere(w.configs, self) ==>
              Reconcile(w, self, [Wanted(r)] + Broken(more)).configs == w.configs[self := Owning(r, more)]
    ensures r.pair in RegisteredElsewhere(w.configs, self) && more == [] ==>
              Reconcile(w, self, [Wanted(r)] + Broken(more)).configs == w.configs[self := Waiting(r)]
  {
    LoadsSingle(r, more);
    LoadsBroken(more);
    SingleReviewed(r.url, EntryOf(r), Load(more, Broken(more)), RegisteredElsewhere(w.configs, self));
    assert more == [] ==> [r.url] + more == [r.url];
    assert more == [] ==> [ReportedBlocked(r.url, r.pair)] + Snapshot(Load(more, Broken(more))) ==
                          [ReportedBlocked(r.url, r.pair)];
    hide Load, Reviewed, RegisteredElsewhere, Snapshot, Reconcile, Broken, SomeFailed, SomeFetchingError;
    hide Reported, ReportedBlocked, WithIDs;
    HandledFirst(w, self, [Wanted(r)] + Broken(more));
  }

  /** The owner alone. */
  lemma OwnerSettles(r: Rivals, more: seq<string>) returns (run: seq<World>, actions: seq<Action>, w: World)
    requires Sensible(r)
    ensures EndsIn(run, actions, w)
    ensures w.configs == map[r.owner := Owning(r, more)]
  {
    run, actions := RunBegins();
    var a1, a2 := Create(r.owner, [r.url] + more), Handle(r.owner, [Wanted(r)] + Broken(more));
    var w1 := Step(World(map[], map[], {}), a1);
    hide EndsIn;
    run, actions := RunGoesOn(run, actions, World(map[], map[], {}), a1);
    assert RegisteredElsewhere(w1.configs, r.owner) == {};
    hide Reconcile, Owning, Broken, RegisteredElsewhere;
    RivalHandled(w1, r, r.owner, more);
    w := Step(w1, a2);
    run, actions := RunGoesOn(run, actions, w1, a2);
  }

  /** The owner reports the pair as ready, even if it has failed for another reason; the other one is blocked. */
  lemma OneBlocksOther(r: Rivals, more: seq<string>) returns (run: seq<World>, actions: seq<Action>, w: World)
    requires Sensible(r)
    ensures EndsIn(run, actions, w)
    ensures w.configs == map[r.owner := Owning(r, more), r.other := Waiting(r)]
  {
    hide EndsIn, Owning, RegisteredElsewhere;
    var w2;
    run, actions, w2 := OwnerSettles(r, more);
    var a3, a4 := Create(r.other, [r.url]), Handle(r.other, [Wanted(r)] + Broken([]));
    var w3 := Step(w2, a3);
    run, actions := RunGoesOn(run, actions, w2, a3);
    assert [r.url] + [] == [r.url];
    assert w3.configs == map[r.owner := Owning(r, more), r.other := Fresh([r.url] + [])];
    OwnerRegisters(w3, r, more);
    RivalHandled(w3, r, r.other, []);
    hide Reconcile, Broken, Waiting;
    w := Step(w3, a4);
    run, actions := RunGoesOn(run, actions, w3, a4);
  }

  lemma OwnerRegisters(w: World, r: Rivals, more: seq<string>)
    requires r.owner in w.configs && r.owner != r.other && w.configs[r.owner] == Owning(r, more)
    ensures r.pair in RegisteredElsewhere(w.configs, r.other)
  {
    var repos := Owning(r, more).status.repositories;
    assert repos[0].addons[0] == Addon(r.pair, AddonReady, NoReason);
    assert r.pair in ReadyPairs(repos);
  }

  /** Once the owner reports nothing, the other one is stranded. */
  lemma LeftBehind(w: World, r: Rivals)
    requires r.other in w.configs && w.configs[r.other] == Waiting(r)
    requires forall o | o in w.configs && o != r.other :: ReadyPairs(w.configs[o].status.repositories) == {}
    ensures Stranded(w, r.other, r.pair)
  {
    var c := w.configs[r.other];
    assert Blocked(c.status, r.pair, 0, 0);
    assert forall i | 0 <= i < |c.status.repositories| :: c.status.repositories[i].reason == NoRepositoryReason;
  }

  // ----- three ways to be left behind -----

  /** The owner is ready, is touched, and cannot fetch its address: it reports nothing any more and wakes nobody. */
  lemma FetchErrorStrands(r: Rivals, message: string) returns (run: seq<World>, actions: seq<Action>, w: World)
    requires Sensible(r)
    ensures EndsIn(run, actions, w) && Stranded(w, r.other, r.pair)
  {
    var w4;
    run, actions, w4 := OneBlocksOther(r, []);
    var a5, a6 := Change(r.owner, [r.url], 0), Handle(r.owner, [Unfetched(message)]);
    var w5 := Step(w4, a5);
    hide EndsIn;
    run, actions := RunGoesOn(run, actions, w4, a5);
    w := FetchFails(w5, r, message);
    run, actions := RunGoesOn(run, actions, w5, a6);
    LeftBehind(w, r);
  }

  lemma FetchFails(w: World, r: Rivals, message: string) returns (w': World)
    requires Sensible(r)
    requires w.configs == map[r.owner := Owning(r, []).(generation := 2, repositories := [r.url]),
                              r.other := Waiting(r)]
    ensures Enabled(w, Handle(r.owner, [Unfetched(message)]))
    ensures w' == Step(w, Handle(r.owner, [Unfetched(message)]))
    ensures r.other in w'.configs && w'.configs[r.other] == Waiting(r)
    ensures forall o | o in w'.configs && o != r.other :: ReadyPairs(w'.configs[o].status.repositories) == {}
  {
    var outcomes := [Unfetched(message)];
    w' := Step(w, Handle(r.owner, outcomes));
    var loaded := Load([r.url], outcomes);
    assert loaded == [Repository(r.url, RepositoryFailed, URLFetchingError, message, [])];
    assert IsFetchingError(loaded[0]);
    assert w' == WithStatus(w, r.owner, Status(Failed, 2, Snapshot(loaded)));
    assert Snapshot(loaded)[0].addons == [];
  }

  /** The owner has failed over another address, which never stops it from blocking; then it drops the addon. */
  lemma FailedOwnerDropsAndStrands(r: Rivals, broken: string) returns (run: seq<World>, actions: seq<Action>, w: World)
    requires Sensible(r)
    ensures EndsIn(run, actions, w) && Stranded(w, r.other, r.pair)
  {
    var w4;
    run, actions, w4 := OneBlocksOther(r, [broken]);
    var a5, a6 := Change(r.owner, [], 0), Handle(r.owner, []);
    var w5 := Step(w4, a5);
    hide EndsIn;
    run, actions := RunGoesOn(run, actions, w4, a5);
    w := DropsAll(w5, r, broken);
    run, actions := RunGoesOn(run, actions, w5, a6);
    LeftBehind(w, r);
  }

  lemma DropsAll(w: World, r: Rivals, broken: string) returns (w': World)
    requires Sensible(r)
    requires w.configs == map[r.owner := Owning(r, [broken]).(generation := 2, repositories := []),
                              r.other := Waiting(r)]
    ensures Enabled(w, Handle(r.owner, []))
    ensures w' == Step(w, Handle(r.owner, []))
    ensures r.other in w'.configs && w'.configs[r.other] == Waiting(r)
    ensures forall o | o in w'.configs && o != r.other :: ReadyPairs(w'.configs[o].status.repositories) == {}
  {
    w' := Step(w, Handle(r.owner, []));
    assert Load([], []) == [];
    var c := w.configs[r.owner];
    NothingDropped(w, r.owner, c.status, []);
    assert Verdict(w, r.owner, []) == [];
    assert w' == Written(w, r.owner, []);
    assert Snapshot([]) == [];
  }

  /** ... or is deleted. */
  lemma FailedOwnerDeletedStrands(r: Rivals, broken: string) returns (run: seq<World>, actions: seq<Action>, w: World)
    requires Sensible(r)
    ensures EndsIn(run, actions, w) && Stranded(w, r.other, r.pair)
  {
    var w4;
    run, actions, w4 := OneBlocksOther(r, [broken]);
    var a5, a6 := Delete(r.owner), Handle(r.owner, [Wanted(r)] + Broken([broken]));
    var w5 := Step(w4, a5);
    hide EndsIn;
    run, actions := RunGoesOn(run, actions, w4, a5);
    LoadsSingle(r, [broken]);
    w := Step(w5, a6);
    assert w == OnDelete(w5, r.owner);
    run, actions := RunGoesOn(run, actions, w5, a6);
    LeftBehind(w, r);
  }

  // ----- there is no fourth -----

  /** Another configuration's report changes only in a reconcile of its own. */
  lemma ReleasedBySelf(w: World, self: Name, outcomes: seq<Outcome>, o: Name, p: Pair)
    requires Inv(w) && Enabled(w, Handle(self, outcomes)) && o in w.configs && o != self
    requires p in RegisteredElsewhere(w.configs, o)
    requires p !in RegisteredElsewhere(Reconcile(w, self, outcomes).configs, o)
    ensures p in Holding(w, self)
    ensures self in Reconcile(w, self, outcomes).configs ==> p !in Holding(Reconcile(w, self, outcomes), self)
  {
    var w' := Reconcile(w, self, outcomes);
    var q :| q in w.configs && q != o && p in ReadyPairs(w.configs[q].status.repositories);
    if q != self {
      AskedIff(w, self, outcomes, q);
    }
  }

  /**
   When a ready configuration that can fetch its addresses, or is being deleted, releases a pair, whoever is blocked
   over it is due: the fetching error and the owner that was not ready are the only ways to be left behind.
   */
  lemma BlockedIsDueWhenReleased(w: World, self: Name, outcomes: seq<Outcome>, o: Name, p: Pair, i: nat, j: nat)
    requires Inv(w) && Enabled(w, Handle(self, outcomes)) && o in w.configs && o != self
    requires Blocked(w.configs[o].status, p, i, j)
    requires p in RegisteredElsewhere(w.configs, o)
    requires p !in RegisteredElsewhere(Reconcile(w, self, outcomes).configs, o)
    requires IsReadyIn(w, self)
    requires w.configs[self].deleting || !SomeFetchingError(Load(w.configs[self].repositories, outcomes))
    requires SlashFree(w.configs[self].status.repositories)
    requires self in Reconcile(w, self, outcomes).configs ==>
               SlashFree(Reconcile(w, self, outcomes).configs[self].status.repositories)
    ensures o in Reconcile(w, self, outcomes).configs
    ensures Reprocessing(Reconcile(w, self, outcomes).configs[o])
    ensures !Stranded(Reconcile(w, self, outcomes), o, p)
  {
    var w' := Reconcile(w, self, outcomes);
    AskedIff(w, self, outcomes, o);
    ReleasedBySelf(w, self, outcomes, o, p);
    assert Sound(w.configs[o]);
    BlockedIsInConflict(w.configs[o], p, i, j);
    if !w.configs[self].deleting {
      ReconcileKeeps(w, self, outcomes);
      SelfStays(w, self, outcomes);
      NotDueUnlessCompleted(w, self, outcomes);
      hide Reconcile, Inv, InConflict, SlashFree, RegisteredElsewhere;
      assert Completes(w, self, outcomes);
      ReleaseIsLetGo(w, w', self, p);
      hide LetsGo;
      assert SomeConflict(w.configs[self].status, w'.configs[self].status, w.configs[o].status);
    }
  }

  lemma ReleaseIsLetGo(w: World, w': World, self: Name, p: Pair)
    requires Inv(w') && self in w.configs && self in w'.configs
    requires p in Holding(w, self) && p !in Holding(w', self)
    requires SlashFree(w.configs[self].status.repositories) && SlashFree(w'.configs[self].status.repositories)
    ensures LetsGo(w.configs[self].status, w'.configs[self].status, p)
  {
    var before, after := w.configs[self].status, w'.configs[self].status;
    assert p in Pairs(before.repositories);
    if after.phase == Ready {
      assert Sound(w'.configs[self]);
      AllReadyPairs(after.repositories);
      forall q | q in Pairs(after.repositories) ensures Key(q) != Key(p) {
        if Key(q) == Key(p) {
          KeyInjective(p, q);
        }
      }
    }
  }

  /** A configuration that is not due is left as it is. */
  lemma NotDueUnlessCompleted(w: World, self: Name, outcomes: seq<Outcome>)
    requires Enabled(w, Handle(self, outcomes)) && !w.configs[self].deleting
    requires !SomeFetchingError(Load(w.configs[self].repositories, outcomes))
    ensures Completes(w, self, outcomes) || Reconcile(w, self, outcomes) == w
  {
    hide OnAdd, Load;
  }
}
