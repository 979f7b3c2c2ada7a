/**
 The controller as the source writes it: loops over statuses and repositories, the two-map addon store,
 and configurations changed one by one. Every operation is proved to take the world where `Reconciler`
 says it goes.
 */
module Controller {
  import opened AddonsConfigurations
  import opened Collections
  import opened AddonRecords
  import AddonStore
  import AddonTable
  import R = Reconciler
  import Fx = ReconcilerEffects
  import Invariant = ReconcilerInvariant

  type Name = R.Name

  datatype Existing = Existing(name: Name, config: Configuration)

  /** The list holds every configuration but `self`, once each. */
  ghost predicate Others(list: seq<Existing>, configs: map<Name, Configuration>, self: Name) {
    && (forall m | 0 <= m < |list| ::
          list[m].name != self && list[m].name in configs && configs[list[m].name] == list[m].config)
    && (forall m, n | 0 <= m < n < |list| :: list[m].name != list[n].name)
    && (forall o | o in configs && o != self :: exists m | 0 <= m < |list| :: list[m].name == o)
  }

  function ConfigsOf(list: seq<Existing>): seq<Configuration> {
    seq(|list|, m requires 0 <= m < |list| => list[m].config)
  }

  lemma OthersRegister(list: seq<Existing>, configs: map<Name, Configuration>, self: Name)
    requires Others(list, configs, self)
    ensures RegisteredBy(ConfigsOf(list)) == R.RegisteredElsewhere(configs, self)
  {
    var cs := ConfigsOf(list);
    hide ReadyPairs;
    forall p | p in R.RegisteredElsewhere(configs, self) ensures p in RegisteredBy(cs) {
      var o :| o in configs && o != self && p in ReadyPairs(configs[o].status.repositories);
      var m :| 0 <= m < |list| && list[m].name == o;
      assert cs[m] == configs[o];
    }
    forall p | p in RegisteredBy(cs) ensures p in R.RegisteredElsewhere(configs, self) {
      var m :| 0 <= m < |cs| && p in ReadyPairs(cs[m].status.repositories);
      assert cs[m] == configs[list[m].name];
    }
  }

  // ----- lists step by step -----

  lemma ListingNext(repos: seq<StatusRepository>, i: nat)
    requires i < |repos|
    ensures R.Listing(repos[..i + 1]) == R.Listing(repos[..i]) + R.PairsOf(repos[i].addons)
  {
    assert repos[..i + 1][..i] == repos[..i];
  }

  lemma PairsNext(ps: seq<Pair>, addons: seq<Addon>, j: nat)
    requires j < |addons|
    ensures ps + R.PairsOf(addons[..j + 1]) == ps + R.PairsOf(addons[..j]) + [addons[j].pair]
  {
    assert R.PairsOf(addons[..j + 1]) == R.PairsOf(addons[..j]) + [addons[j].pair];
  }

  lemma KeysNext(ps: seq<Pair>, p: Pair)
    ensures R.Keys(ps + [p]) == R.Keys(ps) + [Key(p)]
  {
  }

  lemma OrphansNext(ps: seq<Pair>, p: Pair, stay: set<string>)
    ensures R.Orphans(ps + [p], stay) == R.Orphans(ps, stay) + if Key(p) in stay then [] else [p]
  {
    assert (ps + [p])[..|ps|] == ps;
  }

  lemma RemoveNext(w: R.World, ps: seq<Pair>, p: Pair)
    ensures R.Remove(R.Remove(w, ps), [p]) == R.Remove(w, ps + [p])
  {
    var once, both := R.Remove(w, ps), R.Remove(w, ps + [p]);
    assert forall q :: q in R.Elements(ps + [p]) <==> q in R.Elements(ps) || q == p;
    assert R.Remove(once, [p]).addons == both.addons;
    var gone := set q | q in ps && q in w.addons :: w.addons[q].chart;
    var gone' := set q | q in ps + [p] && q in w.addons :: w.addons[q].chart;
    assert gone' == gone + if p in w.addons then {w.addons[p].chart} else {};
    assert p !in once.addons ==> p in ps || p !in w.addons;
    forall c | c in R.Remove(once, [p]).charts ensures c in both.charts {
      assert p in once.addons ==> p in R.Elements([p]);
    }
  }

  lemma SaveNext(w: R.World, es: seq<Entry>, e: Entry)
    ensures R.Save(w, es + [e]) ==
            R.Save(w, es).(addons := R.Save(w, es).addons[e.pair := R.Record(e.id, e.chart)],
                           charts := R.Save(w, es).charts + {e.chart})
  {
    assert (es + [e])[..|es|] == es;
    assert R.ChartsOf(es + [e]) == R.ChartsOf(es) + {e.chart};
  }

  // ----- loading -----

  method LoadRepositories(urls: seq<string>, outcomes: seq<Outcome>) returns (repositories: Collection)
    requires |outcomes| == |urls|
    ensures fresh(repositories) && repositories.repositories == Load(urls, outcomes)
  {
    repositories := new Collection();
    for i := 0 to |urls|
      invariant fresh(repositories)
      invariant repositories.repositories == Load(urls, outcomes)[..i]
    {
      if urls[i] == "" {
        repositories.AddRepository(Repository(urls[i], RepositoryFailed, EmptyURLError, "", []));
        continue;
      }
      if outcomes[i].Untemplated? {
        repositories.AddRepository(Repository(urls[i], RepositoryFailed, URLTemplatingError, outcomes[i].message, []));
        continue;
      }
      if outcomes[i].Unfetched? {
        repositories.AddRepository(Repository(urls[i], RepositoryFailed, URLFetchingError, outcomes[i].message, []));
        continue;
      }
      var adds := CreateAddons(outcomes[i].attempts);
      repositories.AddRepository(Repository(urls[i], RepositoryReady, NoRepositoryReason, "", adds));
    }
  }

  method CreateAddons(attempts: seq<Attempt>) returns (adds: seq<Entry>)
    ensures adds == seq(|attempts|, j requires 0 <= j < |attempts| => LoadEntry(attempts[j]))
  {
    adds := [];
    for j := 0 to |attempts|
      invariant |adds| == j && forall n | 0 <= n < j :: adds[n] == LoadEntry(attempts[n])
    {
      adds := adds + [LoadEntry(attempts[j])];
    }
  }

  method StatusSnapshot(rs: seq<Repository>) returns (repos: seq<StatusRepository>)
    ensures repos == R.Snapshot(rs)
  {
    repos := [];
    for i := 0 to |rs|
      invariant |repos| == i && forall n | 0 <= n < i :: repos[n] == R.ReportRepository(rs[n])
    {
      var addons: seq<Addon> := [];
      for j := 0 to |rs[i].addons|
        invariant |addons| == j && forall n | 0 <= n < j :: addons[n] == R.Report(rs[i].addons[n])
      {
        addons := addons + [Addon(rs[i].addons[j].pair, rs[i].addons[j].status, rs[i].addons[j].reason)];
      }
      repos := repos + [StatusRepository(rs[i].url, rs[i].status, rs[i].reason, rs[i].message, addons)];
      assert repos[i].addons == R.ReportRepository(rs[i]).addons;
    }
  }

  method IsConfigurationInConflict(key: string, st: Status) returns (conflict: bool)
    ensures conflict <==> R.InConflict(key, st)
  {
    if st.phase == Ready {
      return false;
    }
    var repos := st.repositories;
    for i := 0 to |repos|
      invariant forall a, b | 0 <= a < i && 0 <= b < |repos[a].addons| ::
                  !(repos[a].status != RepositoryReady && Key(repos[a].addons[b].pair) == key)
    {
      if repos[i].status != RepositoryReady {
        for j := 0 to |repos[i].addons|
          invariant forall b | 0 <= b < j :: Key(repos[i].addons[b].pair) != key
        {
          if Key(repos[i].addons[j].pair) == key {
            return true;
          }
        }
      }
    }
    return false;
  }

  /** The keys that stay. */
  method KeysToStay(repos: seq<StatusRepository>) returns (stay: set<string>)
    ensures stay == R.StayingKeys(repos)
  {
    stay := {};
    ghost var done: seq<Pair> := [];
    for i := 0 to |repos|
      invariant done == R.Listing(repos[..i]) && stay == set k | k in R.Keys(done)
    {
      for j := 0 to |repos[i].addons|
        invariant done == R.Listing(repos[..i]) + R.PairsOf(repos[i].addons[..j])
        invariant stay == set k | k in R.Keys(done)
      {
        var p := repos[i].addons[j].pair;
        PairsNext(R.Listing(repos[..i]), repos[i].addons, j);
        KeysNext(done, p);
        stay, done := stay + {Key(p)}, done + [p];
      }
      ListingNext(repos, i);
      assert repos[i].addons[..|repos[i].addons|] == repos[i].addons;
    }
    assert repos[..|repos|] == repos;
  }

  // ----- what the controller may assume -----

  /** All listed pairs can be looked up. */
  ghost predicate ProperStatus(ns: string, repos: seq<StatusRepository>) {
    forall p | p in Pairs(repos) :: Proper(ns, p)
  }

  ghost predicate ProperAttempt(ids: Ids, ns: string, a: Attempt) {
    if a.Got? then Foreseen(ids, ns, LoadEntry(a)) else Proper(ns, a.pair)
  }

  /** Names and versions are proper, and correspond to IDs as `ids` says. */
  ghost predicate ProperOutcomes(ids: Ids, ns: string, outcomes: seq<Outcome>) {
    forall i, j | 0 <= i < |outcomes| && outcomes[i].Index? && 0 <= j < |outcomes[i].attempts| ::
      ProperAttempt(ids, ns, outcomes[i].attempts[j])
  }

  ghost predicate ProperEntries(ids: Ids, ns: string, rs: seq<Repository>) {
    forall i, j | 0 <= i < |rs| && 0 <= j < |rs[i].addons| ::
      && Proper(ns, rs[i].addons[j].pair)
      && (IsReady(rs[i].addons[j]) ==> Foreseen(ids, ns, rs[i].addons[j]))
  }

  lemma LoadedProper(ids: Ids, ns: string, urls: seq<string>, outcomes: seq<Outcome>)
    requires |outcomes| == |urls| && ProperOutcomes(ids, ns, outcomes)
    ensures ProperEntries(ids, ns, Load(urls, outcomes))
  {
    hide Proper;
    var rs := Load(urls, outcomes);
    forall i, j | 0 <= i < |rs| && 0 <= j < |rs[i].addons|
      ensures Proper(ns, rs[i].addons[j].pair)
      ensures IsReady(rs[i].addons[j]) ==> Foreseen(ids, ns, rs[i].addons[j])
    {
      assert rs[i] == LoadRepository(urls[i], outcomes[i]);
      assert rs[i].addons[j] == LoadEntry(outcomes[i].attempts[j]);
      assert ProperAttempt(ids, ns, outcomes[i].attempts[j]);
    }
  }

  lemma ReviewedProper(ids: Ids, ns: string, rs: seq<Repository>, registered: set<Pair>)
    requires ProperEntries(ids, ns, rs)
    ensures ProperEntries(ids, ns, Reviewed(rs, registered))
  {
    hide Proper, Seen;
    var after := Reviewed(rs, registered);
    forall i, j | 0 <= i < |after| && 0 <= j < |after[i].addons|
      ensures Proper(ns, after[i].addons[j].pair)
      ensures IsReady(after[i].addons[j]) ==> Foreseen(ids, ns, after[i].addons[j])
    {
      assert Unique(rs)[i].addons[j] == UniqueEntry(rs, i, j);
      assert Free(Unique(rs), registered)[i].addons[j] == FreeEntry(UniqueEntry(rs, i, j), registered);
    }
  }

  lemma SnapshotProper(ids: Ids, ns: string, rs: seq<Repository>)
    requires ProperEntries(ids, ns, rs)
    ensures ProperStatus(ns, R.Snapshot(rs))
    ensures forall e | e in ReadyEntries(rs) :: Foreseen(ids, ns, e)
  {
    hide Proper;
    var snap := R.Snapshot(rs);
    forall p | p in Pairs(snap) ensures Proper(ns, p) {
      var i, j :| 0 <= i < |snap| && 0 <= j < |snap[i].addons| && snap[i].addons[j].pair == p;
      assert snap[i].addons[j] == R.Report(rs[i].addons[j]);
    }
    Fx.ReadyEntriesAre(rs);
  }

  lemma ProperAt(ns: string, repos: seq<StatusRepository>, i: nat, j: nat)
    requires i < |repos| && j < |repos[i].addons| && ProperStatus(ns, repos)
    ensures Proper(ns, repos[i].addons[j].pair)
  {
    assert repos[i].addons[j].pair in Pairs(repos);
  }

  class Common {
    const namespace: string
    const addonStorage: AddonStore.Store
    ghost const ids: Ids

    /** The API objects of the scope, and the chart store. */
    var configs: map<Name, Configuration>
    var charts: set<Chart>

    /** What the addon store stands for. */
    ghost var addons: map<Pair, R.Record>

    ghost predicate Valid()
      reads this, addonStorage
    {
      Keeps(addonStorage.Contents(), ids, namespace, addons)
    }

    ghost predicate ProperConfigs()
      reads this
    {
      forall o | o in configs :: ProperStatus(namespace, configs[o].status.repositories)
    }

    ghost function View(): R.World
      reads this
    {
      R.World(configs, addons, charts)
    }

    constructor (namespace: string, ghost ids: Ids)
      requires AddonTable.OneToOne(ids)
      ensures Valid() && ProperConfigs() && View() == R.World(map[], map[], {})
      ensures this.namespace == namespace && this.ids == ids && fresh(addonStorage)
    {
      hide Keeps, Foreseen, Proper, ProperStatus, ProperEntries, AddonTable.OneToOne, AddonStore.Tidy,
        AddonStore.Upserted, AddonStore.Gotten, AddonStore.Removed;
      this.namespace, this.ids := namespace, ids;
      addonStorage := new AddonStore.Store();
      configs, charts, addons := map[], {}, map[];
      new;
      EmptyKeeps(ids, namespace);
    }

    method SaveAddon(e: Entry)
      requires Valid() && Foreseen(ids, namespace, e)
      modifies this, addonStorage
      ensures Valid()
      ensures View() == old(View()).(addons := old(addons)[e.pair := R.Record(e.id, e.chart)],
                                     charts := old(charts) + {e.chart})
    {
      hide Keeps, Foreseen, Proper, ProperStatus, ProperEntries, AddonTable.OneToOne, AddonStore.Tidy,
        AddonStore.Upserted, AddonStore.Gotten, AddonStore.Removed;
      UpsertKeeps(addonStorage.Contents(), ids, namespace, addons, e);
      KeepsTidy(addonStorage.Contents(), ids, namespace, addons);
      var _ := addonStorage.Upsert(namespace, AddonOf(e));
      addons := addons[e.pair := R.Record(e.id, e.chart)];
      charts := charts + {e.chart};
    }

    method SaveAddons(repositories: Collection) returns (saved: bool)
      requires Valid() && ProperEntries(ids, namespace, repositories.repositories)
      modifies this, addonStorage
      ensures Valid()
      ensures View() == R.Save(old(View()), ReadyEntries(repositories.repositories))
      ensures saved <==> ReadyEntries(repositories.repositories) != []
    {
      hide Keeps, Foreseen, Proper, ProperStatus, ProperEntries, AddonTable.OneToOne, AddonStore.Tidy,
        AddonStore.Upserted, AddonStore.Gotten, AddonStore.Removed;
      hide R.Save, ReadyEntries;
      var ready := repositories.ReadyAddons();
      SnapshotProper(ids, namespace, repositories.repositories);
      saved := false;
      SaveNone(View());
      for n := 0 to |ready|
        invariant Valid() && View() == R.Save(old(View()), ready[..n])
        invariant saved <==> n > 0
      {
        SaveNext(old(View()), ready[..n], ready[n]);
        assert ready[..n + 1] == ready[..n] + [ready[n]];
        SaveAddon(ready[n]);
        saved := true;
      }
      assert ready[..|ready|] == ready;
    }

    /** `removeAddon`: what is not found is passed over by every caller. */
    method RemoveAddon(p: Pair) returns (removed: bool)
      requires Valid() && Proper(namespace, p)
      modifies this, addonStorage
      ensures Valid() && removed == (p in old(addons))
      ensures View() == R.Remove(old(View()), [p])
    {
      hide Keeps, Foreseen, Proper, ProperStatus, ProperEntries, AddonTable.OneToOne, AddonStore.Tidy,
        AddonStore.Upserted, AddonStore.Gotten, AddonStore.Removed;
      hide R.Remove;
      RemoveOne(View(), p);
      GetKeeps(addonStorage.Contents(), ids, namespace, addons, p);
      var add := addonStorage.Get(namespace, p.name, VersionOf(p));
      if add.Err? {
        return false;
      }
      AddonRecords.RemoveKeeps(addonStorage.Contents(), ids, namespace, addons, p, add.value.version);
      KeepsTidy(addonStorage.Contents(), ids, namespace, addons);
      var _ := addonStorage.Remove(namespace, p.name, add.value.version);
      addons := addons - {p};
      charts := charts - {add.value.chart};
      return true;
    }

    /** `deletePreviousAddons`: everything a status lists. */
    method DeletePreviousAddons(repos: seq<StatusRepository>) returns (deleted: seq<string>)
      requires Valid() && ProperStatus(namespace, repos)
      modifies this, addonStorage
      ensures Valid()
      ensures View() == R.Remove(old(View()), R.Listing(repos)) && deleted == R.Keys(R.Listing(repos))
    {
      hide Keeps, Foreseen, Proper, ProperStatus, R.Remove, R.Listing, R.PairsOf, R.Keys, R.Orphans, Key;
      deleted := [];
      ghost var done: seq<Pair> := [];
      NothingListed(repos);
      Fx.RemoveNone(View());
      for i := 0 to |repos|
        invariant Valid() && View() == R.Remove(old(View()), done) && deleted == R.Keys(done)
        invariant done == R.Listing(repos[..i])
      {
        for j := 0 to |repos[i].addons|
          invariant Valid() && View() == R.Remove(old(View()), done) && deleted == R.Keys(done)
          invariant done == R.Listing(repos[..i]) + R.PairsOf(repos[i].addons[..j])
        {
          var p := repos[i].addons[j].pair;
          ProperAt(namespace, repos, i, j);
          PairsNext(R.Listing(repos[..i]), repos[i].addons, j);
          KeysNext(done, p);
          RemoveNext(old(View()), done, p);
          var _ := RemoveAddon(p);
          deleted, done := deleted + [Key(p)], done + [p];
        }
        ListingNext(repos, i);
        assert repos[i].addons[..|repos[i].addons|] == repos[i].addons;
      }
      assert repos[..|repos|] == repos;
    }

    /** `deleteOrphanAddons`: what the last status lists and the new one does not. */
    method DeleteOrphanAddons(repos: seq<StatusRepository>, lastRepos: seq<StatusRepository>)
      returns (deleted: seq<string>)
      requires Valid() && ProperStatus(namespace, lastRepos)
      modifies this, addonStorage
      ensures Valid()
      ensures var orphans := R.Orphans(R.Listing(lastRepos), R.StayingKeys(repos));
              View() == R.Remove(old(View()), orphans) && deleted == R.Keys(orphans)
    {
      hide Keeps, Foreseen, Proper, ProperStatus, R.Remove, R.Listing, R.PairsOf, R.Keys, R.Orphans, Key;
      hide R.StayingKeys;
      var stay := KeysToStay(repos);
      deleted := [];
      ghost var done: seq<Pair>, orphans: seq<Pair> := [], [];
      NothingListed(lastRepos);
      NoOrphans(stay);
      Fx.RemoveNone(View());
      for i := 0 to |lastRepos|
        invariant Valid() && View() == R.Remove(old(View()), orphans) && deleted == R.Keys(orphans)
        invariant orphans == R.Orphans(done, stay) && done == R.Listing(lastRepos[..i])
      {
        for j := 0 to |lastRepos[i].addons|
          invariant Valid() && View() == R.Remove(old(View()), orphans) && deleted == R.Keys(orphans)
          invariant orphans == R.Orphans(done, stay)
          invariant done == R.Listing(lastRepos[..i]) + R.PairsOf(lastRepos[i].addons[..j])
        {
          var p := lastRepos[i].addons[j].pair;
          PairsNext(R.Listing(lastRepos[..i]), lastRepos[i].addons, j);
          OrphansNext(done, p, stay);
          if Key(p) !in stay {
            ProperAt(namespace, lastRepos, i, j);
            KeysNext(orphans, p);
            RemoveNext(old(View()), orphans, p);
            var _ := RemoveAddon(p);
            deleted, orphans := deleted + [Key(p)], orphans + [p];
          }
          done := done + [p];
        }
        ListingNext(lastRepos, i);
        assert lastRepos[i].addons[..|lastRepos[i].addons|] == lastRepos[i].addons;
      }
      assert lastRepos[..|lastRepos|] == lastRepos;
    }

    method ListExistingConfigurations(self: Name) returns (list: seq<Existing>)
      ensures Others(list, configs, self)
    {
      list := [];
      var todo := configs.Keys;
      while todo != {}
        invariant todo <= configs.Keys
        invariant forall m | 0 <= m < |list| ::
                    && list[m].name != self && list[m].name in configs && list[m].name !in todo
                    && configs[list[m].name] == list[m].config
        invariant forall m, n | 0 <= m < n < |list| :: list[m].name != list[n].name
        invariant forall o | o in configs && o != self && o !in todo :: exists m | 0 <= m < |list| :: list[m].name == o
        decreases |todo|
      {
        var o :| o in todo;
        ghost var before := list;
        if o != self {
          list := list + [Existing(o, configs[o])];
          assert list[|before|].name == o;
        }
        assert forall m | 0 <= m < |before| :: list[m] == before[m];
        todo := todo - {o};
      }
    }

    /** Raises the request counter, and with it the generation. */
    method ReprocessRequest(name: Name)
      requires name in configs
      modifies this`configs
      ensures configs == old(configs)[name := R.Bump(old(configs)[name], 1)]
    {
      var c := configs[name];
      configs := configs[name := c.(reprocessRequest := c.reprocessRequest + 1, generation := c.generation + 1)];
    }

    method ReprocessConfigurationsInConflict(self: Name, deleted: seq<string>, list: seq<Existing>)
      requires Others(list, configs, self)
      modifies this`configs
      ensures View() == R.Wake(old(View()), self, deleted)
    {
      ghost var was := configs;
      NoHitsYet(was, list, deleted);
      hide R.InConflict, Others, R.Hits, R.Bump, R.Wake, Asked;
      for n := 0 to |deleted|
        invariant configs.Keys == was.Keys && (self in was ==> configs[self] == was[self])
        invariant Asked(configs, was, list, deleted[..n], deleted[..n], 0)
      {
        ReprocessForKey(self, deleted, n, list, was);
      }
      assert deleted[..|deleted|] == deleted;
      AllAsked(configs, was, self, list, deleted, addons, charts);
    }

    /** The inner loop: one key, every configuration of the list. */
    method ReprocessForKey(
      self: Name, deleted: seq<string>, n: nat, list: seq<Existing>, ghost was: map<Name, Configuration>)
      requires n < |deleted| && Others(list, was, self)
      requires configs.Keys == was.Keys && (self in was ==> configs[self] == was[self])
      requires Asked(configs, was, list, deleted[..n], deleted[..n], 0)
      modifies this`configs
      ensures configs.Keys == was.Keys && (self in was ==> configs[self] == was[self])
      ensures Asked(configs, was, list, deleted[..n + 1], deleted[..n + 1], 0)
    {
      hide R.InConflict, Others, R.Hits, R.Bump, Asked;
      NextKey(configs, was, list, deleted, n);
      for m := 0 to |list|
        invariant configs.Keys == was.Keys && (self in was ==> configs[self] == was[self])
        invariant Asked(configs, was, list, deleted[..n], deleted[..n + 1], m)
      {
        var hasConflict := IsConfigurationInConflict(deleted[n], list[m].config.status);
        AskNext(configs, was, self, list, deleted, n, m);
        if hasConflict {
          ReprocessRequest(list[m].name);
        }
      }
      NextRound(configs, was, list, deleted, n);
    }

    /** Writes a status and stamps it with the generation it was made for. */
    method UpdateAddonStatus(self: Name, phase: Phase, repos: seq<StatusRepository>)
      requires self in configs
      modifies this`configs
      ensures View() == R.WithStatus(old(View()), self, Status(phase, old(configs)[self].generation, repos))
    {
      configs := configs[self := configs[self].(status := Status(phase, configs[self].generation, repos))];
    }

    /** What both reviews and the verdict leave of the loaded repositories. */
    method Review(self: Name, repositories: Collection) returns (failed: bool, list: seq<Existing>)
      requires self in configs
      modifies repositories
      ensures Others(list, configs, self)
      ensures repositories.repositories == R.Verdict(View(), self, old(repositories.repositories))
      ensures failed <==> SomeFailed(repositories.repositories)
    {
      hide Others, Unique, Free, Settled, R.RegisteredElsewhere, RegisteredBy, SomeFailed;
      repositories.ReviseAddonDuplicationInRepository();
      list := ListExistingConfigurations(self);
      OthersRegister(list, configs, self);
      repositories.ReviseAddonDuplicationInStorage(ConfigsOf(list));
      failed := repositories.IsRepositoriesFailed();
    }

    method OnAdd(self: Name, last: Status, outcomes: seq<Outcome>)
      requires Valid() && self in configs && |outcomes| == |configs[self].repositories|
      requires ProperStatus(namespace, last.repositories) && ProperOutcomes(ids, namespace, outcomes)
      modifies this, addonStorage
      ensures Valid()
      ensures View() == R.OnAdd(old(View()), self, last, Load(old(configs)[self].repositories, outcomes))
    {
      hide Keeps, ProperStatus, ProperOutcomes, ProperEntries, Others;
      hide Load, SomeFetchingError, SomeFailed, SameStatus, R.Verdict, R.Snapshot;
      hide R.Save, R.Remove, R.Wake, R.Listing, R.Orphans, R.Keys, R.StayingKeys, ReadyEntries;
      var repositories := LoadRepositories(configs[self].repositories, outcomes);
      ghost var loaded := repositories.repositories;
      LoadedProper(ids, namespace, configs[self].repositories, outcomes);
      var fetching := repositories.IsRepositoriesFetchingError();
      if fetching {
        var snapshot := StatusSnapshot(repositories.repositories);
        var same := Equals(Status(Failed, configs[self].generation, snapshot), last);
        if !same {
          UpdateAddonStatus(self, Failed, snapshot);
        }
        return;
      }
      var failed, list := Review(self, repositories);
      VerdictProper(ids, namespace, View(), self, loaded);
      var deleted := [];
      ghost var dropped: seq<Pair> := [];
      var snapshot := StatusSnapshot(repositories.repositories);
      if failed {
        UpdateAddonStatus(self, Failed, snapshot);
        Fx.RemoveNone(View());
        if last.phase == Ready {
          deleted := DeletePreviousAddons(last.repositories);
          dropped := R.Listing(last.repositories);
        }
      } else {
        var _ := SaveAddons(repositories);
        UpdateAddonStatus(self, Ready, snapshot);
        Fx.RemoveNone(View());
        if last.phase == Ready {
          deleted := DeleteOrphanAddons(snapshot, last.repositories);
          dropped := R.Orphans(R.Listing(last.repositories), R.StayingKeys(snapshot));
        }
      }
      OthersStay(list, old(configs), configs, self);
      Fx.WakeNone(View(), self);
      if |deleted| > 0 {
        ReprocessConfigurationsInConflict(self, deleted, list);
      }
    }

    /** Everyone who is not ready is asked to try again. */
    method ReprocessNotReady(self: Name)
      modifies this`configs
      ensures View() == R.WakeAll(old(View()), self)
    {
      hide Others, Nudged, R.Bump, R.WakeAll;
      ghost var was := configs;
      var list := ListExistingConfigurations(self);
      NudgeNone(was, self, list);
      for m := 0 to |list|
        invariant configs.Keys == was.Keys && (self in was ==> configs[self] == was[self])
        invariant Nudged(configs, was, list, m)
      {
        NudgeNext(configs, was, self, list, m);
        if list[m].config.status.phase != Ready {
          ReprocessRequest(list[m].name);
        }
      }
      AllNudged(configs, was, self, list, addons, charts);
    }

    method OnDelete(self: Name)
      requires Valid() && self in configs && ProperStatus(namespace, configs[self].status.repositories)
      modifies this, addonStorage
      ensures Valid()
      ensures View() == R.OnDelete(old(View()), self)
    {
      hide Keeps, ProperStatus, R.Listing;
      if configs[self].status.phase == Ready {
        var repos := configs[self].status.repositories;
        ReprocessNotReady(self);
        hide R.WakeAll, R.Remove;
        var _ := DeletePreviousAddons(repos);
      }
      configs := configs - {self};
    }

    method PrepareForProcessing(self: Name)
      requires self in configs
      modifies this`configs
      ensures View() == R.Prepared(old(View()), self)
    {
      configs := configs[self := configs[self].(finalizer := true)];
      var c := configs[self];
      configs := configs[self := c.(status := c.status.(phase := Pending, observedGeneration := c.generation))];
      assert configs == R.Prepared(old(View()), self).configs;
    }

    method Reconcile(self: Name, outcomes: seq<Outcome>)
      requires Valid() && ProperConfigs() && self in configs
      requires |outcomes| == |configs[self].repositories| && ProperOutcomes(ids, namespace, outcomes)
      modifies this, addonStorage
      ensures Valid() && ProperConfigs()
      ensures View() == R.Reconcile(old(View()), self, outcomes)
    {
      ReconcileProper(ids, namespace, View(), self, outcomes);
      hide Keeps, ProperStatus, ProperOutcomes, R.OnAdd, R.OnDelete, Load, Reprocessing;
      if configs[self].deleting {
        OnDelete(self);
        return;
      }
      if InitialProcessing(configs[self]) {
        PrepareForProcessing(self);
        OnAdd(self, configs[self].status, outcomes);
        return;
      }
      var ready := IsReadyForReprocessing(configs[self]);
      if ready {
        OnAdd(self, configs[self].status, outcomes);
      }
    }
  }

  ghost predicate ProperWorld(ns: string, w: R.World) {
    forall o | o in w.configs :: ProperStatus(ns, w.configs[o].status.repositories)
  }

  lemma OnAddProper(ids: Ids, ns: string, w: R.World, self: Name, last: Status, loaded: seq<Repository>)
    requires self in w.configs && ProperWorld(ns, w) && ProperEntries(ids, ns, loaded)
    ensures ProperWorld(ns, R.OnAdd(w, self, last, loaded))
  {
    var w' := R.OnAdd(w, self, last, loaded);
    Invariant.OnAddKeys(w, self, last, loaded);
    VerdictProper(ids, ns, w, self, loaded);
    SnapshotProper(ids, ns, loaded);
    SnapshotProper(ids, ns, R.Verdict(w, self, loaded));
    if !SomeFetchingError(loaded) {
      Invariant.SelfAfter(w, self, last, loaded);
    }
    hide ProperStatus, R.Verdict, R.Snapshot, R.Remove, R.Save, R.Hits, R.Dropped;
    forall o | o in w'.configs ensures ProperStatus(ns, w'.configs[o].status.repositories) {
      if o != self {
        Invariant.OnAddOthers(w, self, last, loaded, o);
      }
    }
  }

  lemma ReconcileProper(ids: Ids, ns: string, w: R.World, self: Name, outcomes: seq<Outcome>)
    requires self in w.configs && |outcomes| == |w.configs[self].repositories|
    requires ProperWorld(ns, w) && ProperOutcomes(ids, ns, outcomes)
    ensures ProperWorld(ns, R.Reconcile(w, self, outcomes))
  {
    var c := w.configs[self];
    var loaded := Load(c.repositories, outcomes);
    LoadedProper(ids, ns, c.repositories, outcomes);
    var prepared := R.Prepared(w, self);
    hide ProperStatus, R.OnAdd, Load, ProperOutcomes, ProperEntries;
    OnAddProper(ids, ns, w, self, c.status, loaded);
    OnAddProper(ids, ns, prepared, self, prepared.configs[self].status, loaded);
  }

  lemma VerdictProper(ids: Ids, ns: string, w: R.World, self: Name, loaded: seq<Repository>)
    requires ProperEntries(ids, ns, loaded)
    ensures ProperEntries(ids, ns, R.Verdict(w, self, loaded))
  {
    ReviewedProper(ids, ns, loaded, R.RegisteredElsewhere(w.configs, self));
  }

  lemma OthersStay(
    list: seq<Existing>, configs: map<Name, Configuration>, configs': map<Name, Configuration>, self: Name)
    requires Others(list, configs, self) && configs'.Keys == configs.Keys
    requires forall o | o in configs && o != self :: configs'[o] == configs[o]
    ensures Others(list, configs', self)
  {
  }

  lemma NothingListed(repos: seq<StatusRepository>)
    ensures R.Listing(repos[..0]) == [] && R.Keys([]) == []
    ensures forall i | 0 <= i < |repos| :: R.PairsOf(repos[i].addons[..0]) == []
  {
  }

  lemma NoOrphans(stay: set<string>)
    ensures R.Orphans([], stay) == []
  {
  }

  // ----- waking, round by round -----

  /** The first `m` of the list have been asked about the keys in `more`, the rest about those in `keys`. */
  ghost predicate Asked(configs: map<Name, Configuration>, was: map<Name, Configuration>, list: seq<Existing>,
                        keys: seq<string>, more: seq<string>, m: nat) {
    forall k | 0 <= k < |list| ::
      && list[k].name in configs && list[k].name in was
      && configs[list[k].name] ==
         R.Bump(was[list[k].name], R.Hits(if k < m then more else keys, was[list[k].name].status))
  }

  lemma NoHitsYet(was: map<Name, Configuration>, list: seq<Existing>, deleted: seq<string>)
    requires forall k | 0 <= k < |list| :: list[k].name in was
    ensures Asked(was, was, list, deleted[..0], deleted[..0], 0)
  {
  }

  lemma NextKey(
    configs: map<Name, Configuration>, was: map<Name, Configuration>, list: seq<Existing>, deleted: seq<string>, n: nat)
    requires n < |deleted| && Asked(configs, was, list, deleted[..n], deleted[..n], 0)
    ensures Asked(configs, was, list, deleted[..n], deleted[..n + 1], 0)
  {
  }

  lemma NextRound(
    configs: map<Name, Configuration>, was: map<Name, Configuration>, list: seq<Existing>, deleted: seq<string>, n: nat)
    requires n < |deleted| && Asked(configs, was, list, deleted[..n], deleted[..n + 1], |list|)
    ensures Asked(configs, was, list, deleted[..n + 1], deleted[..n + 1], 0)
  {
  }

  lemma AskNext(configs: map<Name, Configuration>, was: map<Name, Configuration>, self: Name, list: seq<Existing>,
                deleted: seq<string>, n: nat, m: nat)
    requires Others(list, was, self) && n < |deleted| && m < |list|
    requires Asked(configs, was, list, deleted[..n], deleted[..n + 1], m)
    ensures var name := list[m].name;
            && name in configs && name != self
            && Asked(if R.InConflict(deleted[n], list[m].config.status)
                     then configs[name := R.Bump(configs[name], 1)] else configs,
                     was, list, deleted[..n], deleted[..n + 1], m + 1)
  {
    hide R.InConflict;
    assert deleted[..n + 1][..n] == deleted[..n];
  }

  /** The first `m` of the list have been asked once if they are not ready. */
  ghost predicate Nudged(
    configs: map<Name, Configuration>, was: map<Name, Configuration>, list: seq<Existing>, m: nat)
  {
    forall k | 0 <= k < |list| ::
      && list[k].name in configs && list[k].name in was && list[k].config == was[list[k].name]
      && configs[list[k].name] ==
         if k < m && was[list[k].name].status.phase != Ready then R.Bump(was[list[k].name], 1) else was[list[k].name]
  }

  lemma NudgeNone(was: map<Name, Configuration>, self: Name, list: seq<Existing>)
    requires Others(list, was, self)
    ensures Nudged(was, was, list, 0)
  {
  }

  lemma NudgeNext(
    configs: map<Name, Configuration>, was: map<Name, Configuration>, self: Name, list: seq<Existing>, m: nat)
    requires Others(list, was, self) && m < |list| && Nudged(configs, was, list, m)
    ensures var name := list[m].name;
            && name in configs && name != self
            && Nudged(if list[m].config.status.phase == Ready then configs
                      else configs[name := R.Bump(configs[name], 1)],
                      was, list, m + 1)
  {
  }

  lemma AllNudged(configs: map<Name, Configuration>, was: map<Name, Configuration>, self: Name, list: seq<Existing>,
                  addons: map<Pair, R.Record>, charts: set<Chart>)
    requires Others(list, was, self) && Nudged(configs, was, list, |list|)
    requires configs.Keys == was.Keys && (self in was ==> configs[self] == was[self])
    ensures R.World(configs, addons, charts) == R.WakeAll(R.World(was, addons, charts), self)
  {
    hide R.Bump;
    var woken := R.WakeAll(R.World(was, addons, charts), self).configs;
    forall o | o in was ensures configs[o] == woken[o] {
      if o != self {
        var k :| 0 <= k < |list| && list[k].name == o;
      }
    }
  }

  lemma AllAsked(configs: map<Name, Configuration>, was: map<Name, Configuration>, self: Name, list: seq<Existing>,
                 deleted: seq<string>, addons: map<Pair, R.Record>, charts: set<Chart>)
    requires Others(list, was, self) && Asked(configs, was, list, deleted, deleted, 0)
    requires configs.Keys == was.Keys && (self in was ==> configs[self] == was[self])
    ensures R.World(configs, addons, charts) == R.Wake(R.World(was, addons, charts), self, deleted)
  {
    hide R.Hits;
    var woken := R.Wake(R.World(was, addons, charts), self, deleted).configs;
    forall o | o in was ensures configs[o] == woken[o] {
      if o != self {
        var k :| 0 <= k < |list| && list[k].name == o;
      }
    }
  }

  lemma EmptyKeeps(ids: Ids, ns: string)
    requires AddonTable.OneToOne(ids)
    ensures Keeps(AddonStore.Tables(map[], map[]), ids, ns, map[])
  {
    hide AddonStore.Key, AddonTable.Plain, AddonTable.OneToOne;
    var t := AddonStore.Tables(map[], map[]);
    assert AddonTable.Rows(t, ids) == map[];
    assert AddonTable.Consistent(t, ids) && AddonStore.Tidy(t);
    hide AddonTable.Rows, AddonTable.Consistent, AddonStore.Tidy;
    assert Records(map[], ns) == map[];
  }

  lemma KeepsTidy(t: Tables, ids: Ids, ns: string, records: map<Pair, R.Record>)
    requires Keeps(t, ids, ns, records)
    ensures AddonStore.Tidy(t)
  {
  }

  lemma SaveNone(w: R.World)
    ensures R.Save(w, []) == w
  {
    assert R.ChartsOf([]) == {};
  }

  lemma RemoveOne(w: R.World, p: Pair)
    ensures R.Remove(w, [p]) ==
            if p in w.addons then w.(addons := w.addons - {p}, charts := w.charts - {w.addons[p].chart}) else w
  {
    assert R.Elements([p]) == {p};
    if p in w.addons {
      assert (set q | q in [p] && q in w.addons :: w.addons[q].chart) == {w.addons[p].chart} by {
        assert p in [p];
      }
    }
  }
}
