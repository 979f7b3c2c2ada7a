/**
 The repositories one configuration asked for, as loaded, and the review that decides which of their
 addons may be registered.
 */
module Collections {
  import opened AddonsConfigurations
  import AddonStore

  type Chart = AddonStore.Chart

  /** One index entry. Entries that could not be loaded have no ID; the others carry the addon's one chart. */
  datatype Entry = Entry(id: string, pair: Pair, chart: Chart, status: AddonStatus, reason: AddonReason)

  datatype Repository = Repository(
    url: string,
    status: RepositoryStatus,
    reason: RepositoryReason,
    message: string,
    addons: seq<Entry>)

  predicate IsComplete(e: Entry) {
    e.id != ""
  }

  predicate IsReady(e: Entry) {
    e.status == AddonReady
  }

  predicate IsFetchingError(r: Repository) {
    r.status == RepositoryFailed && r.reason == URLFetchingError
  }

  // ----- loading -----

  /** What became of one index entry. */
  datatype Attempt =
    | Got(id: string, pair: Pair, chart: Chart)
    | NotFetched(pair: Pair)
    | NotLoaded(pair: Pair)

  /** What became of one repository address. */
  datatype Outcome = Untemplated(message: string) | Unfetched(message: string) | Index(attempts: seq<Attempt>)

  function LoadEntry(a: Attempt): Entry {
    var none := AddonStore.Chart("", "");
    match a
    case Got(id, pair, chart) => Entry(id, pair, chart, AddonReady, NoReason)
    case NotFetched(pair) => Entry("", pair, none, AddonFailed, FetchingError)
    case NotLoaded(pair) => Entry("", pair, none, AddonFailed, LoadingError)
  }

  function LoadRepository(url: string, outcome: Outcome): Repository {
    if url == "" then Repository(url, RepositoryFailed, EmptyURLError, "", [])
    else match outcome
      case Untemplated(message) => Repository(url, RepositoryFailed, URLTemplatingError, message, [])
      case Unfetched(message) => Repository(url, RepositoryFailed, URLFetchingError, message, [])
      case Index(attempts) =>
        Repository(url, RepositoryReady, NoRepositoryReason, "",
                   seq(|attempts|, j requires 0 <= j < |attempts| => LoadEntry(attempts[j])))
  }

  /** The repositories of a specification, given what became of each address. */
  function Load(urls: seq<string>, outcomes: seq<Outcome>): seq<Repository>
    requires |outcomes| == |urls|
  {
    seq(|urls|, i requires 0 <= i < |urls| => LoadRepository(urls[i], outcomes[i]))
  }

  /** The loader accepts no addon without an ID. */
  ghost predicate Identified(rs: seq<Repository>) {
    forall i, j | 0 <= i < |rs| && 0 <= j < |rs[i].addons| && IsReady(rs[i].addons[j]) :: IsComplete(rs[i].addons[j])
  }

  // ----- what the review computes -----

  /** The IDs of complete entries before position (i, j), reading the repositories in order. */
  ghost function Seen(rs: seq<Repository>, i: int, j: int): set<string> {
    set a, b | 0 <= a < |rs| && 0 <= b < |rs[a].addons| && (a < i || (a == i && b < j))
               && IsComplete(rs[a].addons[b]) ::
      rs[a].addons[b].id
  }

  function Fail(e: Entry, reason: AddonReason): Entry {
    e.(status := AddonFailed, reason := reason)
  }

  ghost function UniqueEntry(rs: seq<Repository>, i: nat, j: nat): Entry
    requires i < |rs| && j < |rs[i].addons|
  {
    var e := rs[i].addons[j];
    if IsComplete(e) && e.id in Seen(rs, i, j) then Fail(e, ConflictInSpecifiedRepositories) else e
  }

  /** After the review of one's own repositories. */
  ghost function Unique(rs: seq<Repository>): seq<Repository> {
    seq(|rs|, i requires 0 <= i < |rs| =>
      rs[i].(addons := seq(|rs[i].addons|, j requires 0 <= j < |rs[i].addons| => UniqueEntry(rs, i, j))))
  }

  function FreeEntry(e: Entry, registered: set<Pair>): Entry {
    if IsComplete(e) && e.pair in registered then Fail(e, ConflictWithAlreadyRegisteredAddons) else e
  }

  function FreeEntries(es: seq<Entry>, registered: set<Pair>): seq<Entry> {
    seq(|es|, j requires 0 <= j < |es| => FreeEntry(es[j], registered))
  }

  /** After the review against the other configurations. */
  function Free(rs: seq<Repository>, registered: set<Pair>): seq<Repository> {
    seq(|rs|, i requires 0 <= i < |rs| => rs[i].(addons := FreeEntries(rs[i].addons, registered)))
  }

  predicate HasFailedAddons(r: Repository) {
    exists j | 0 <= j < |r.addons| :: !IsReady(r.addons[j])
  }

  function SettledRepository(r: Repository): Repository {
    if HasFailedAddons(r) then r.(status := RepositoryFailed) else r
  }

  /** After the verdict: repositories with failed addons have failed. */
  function Settled(rs: seq<Repository>): seq<Repository> {
    seq(|rs|, i requires 0 <= i < |rs| => SettledRepository(rs[i]))
  }

  predicate SomeFailed(rs: seq<Repository>) {
    exists i | 0 <= i < |rs| :: rs[i].status == RepositoryFailed
  }

  predicate SomeFetchingError(rs: seq<Repository>) {
    exists i | 0 <= i < |rs| :: IsFetchingError(rs[i])
  }

  ghost function Reviewed(rs: seq<Repository>, registered: set<Pair>): seq<Repository> {
    Settled(Free(Unique(rs), registered))
  }

  /** The pairs that configurations of the list report as ready, whatever their phase. */
  ghost function RegisteredBy(list: seq<Configuration>): set<Pair> {
    set n, p | 0 <= n < |list| && p in ReadyPairs(list[n].status.repositories) :: p
  }

  // ----- the code -----

  class Collection {
    var repositories: seq<Repository>

    constructor ()
      ensures repositories == []
    {
      repositories := [];
    }

    method AddRepository(repo: Repository)
      modifies this
      ensures repositories == old(repositories) + [repo]
    {
      repositories := repositories + [repo];
    }

    method IsRepositoriesFetchingError() returns (found: bool)
      ensures found <==> SomeFetchingError(repositories)
    {
      for i := 0 to |repositories|
        invariant forall n | 0 <= n < i :: !IsFetchingError(repositories[n])
      {
        if IsFetchingError(repositories[i]) {
          return true;
        }
      }
      return false;
    }

    /** Replaces the entry at a position: the pointer the source holds. */
    method Put(i: nat, j: nat, e: Entry)
      requires i < |repositories| && j < |repositories[i].addons|
      modifies this
      ensures var was := old(repositories);
              repositories == was[i := was[i].(addons := was[i].addons[j := e])]
    {
      repositories := repositories[i := repositories[i].(addons := repositories[i].addons[j := e])];
    }

    method ReviseAddonDuplicationInRepository()
      modifies this
      ensures repositories == Unique(old(repositories))
    {
      ghost var was := repositories;
      var ids: set<string> := {};
      SeenNothing(was);
      hide Seen;
      for i := 0 to |repositories|
        invariant |repositories| == |was|
        invariant forall n | 0 <= n < i :: repositories[n] == Unique(was)[n]
        invariant forall n | i <= n < |was| :: repositories[n] == was[n]
        invariant ids == Seen(was, i, 0)
      {
        for j := 0 to |repositories[i].addons|
          invariant |repositories| == |was|
          invariant forall n | 0 <= n < i :: repositories[n] == Unique(was)[n]
          invariant forall n | i < n < |was| :: repositories[n] == was[n]
          invariant repositories[i] == was[i].(addons := repositories[i].addons)
          invariant |repositories[i].addons| == |was[i].addons|
          invariant forall m | 0 <= m < j :: repositories[i].addons[m] == UniqueEntry(was, i, m)
          invariant forall m | j <= m < |was[i].addons| :: repositories[i].addons[m] == was[i].addons[m]
          invariant ids == Seen(was, i, j)
        {
          var e := repositories[i].addons[j];
          SeenNext(was, i, j);
          if IsComplete(e) {
            if e.id in ids {
              Put(i, j, Fail(e, ConflictInSpecifiedRepositories));
            } else {
              ids := ids + {e.id};
            }
          }
        }
        SeenRow(was, i);
        assert repositories[i].addons == Unique(was)[i].addons;
      }
    }

    /** `list` is what the API server knows of the other configurations. */
    method ReviseAddonDuplicationInStorage(list: seq<Configuration>)
      modifies this
      ensures repositories == Free(old(repositories), RegisteredBy(list))
    {
      ghost var was, registered := repositories, RegisteredBy(list);
      hide RegisteredBy;
      for i := 0 to |repositories|
        invariant |repositories| == |was|
        invariant forall n | 0 <= n < i :: repositories[n] == Free(was, registered)[n]
        invariant forall n | i <= n < |was| :: repositories[n] == was[n]
      {
        for j := 0 to |repositories[i].addons|
          invariant |repositories| == |was|
          invariant forall n | 0 <= n < i :: repositories[n] == Free(was, registered)[n]
          invariant forall n | i < n < |was| :: repositories[n] == was[n]
          invariant repositories[i] == was[i].(addons := repositories[i].addons)
          invariant |repositories[i].addons| == |was[i].addons|
          invariant forall m | 0 <= m < j :: repositories[i].addons[m] == FreeEntry(was[i].addons[m], registered)
          invariant forall m | j <= m < |was[i].addons| :: repositories[i].addons[m] == was[i].addons[m]
        {
          var e := repositories[i].addons[j];
          if IsComplete(e) {
            var found := FindExistingAddon(e.pair, list);
            if found {
              Put(i, j, Fail(e, ConflictWithAlreadyRegisteredAddons));
            }
          }
        }
        assert repositories[i].addons == Free(was, registered)[i].addons;
      }
    }

    /** Has any repository failed? Marks the ones that only failed through their addons on the way. */
    method IsRepositoriesFailed() returns (result: bool)
      modifies this
      ensures repositories == Settled(old(repositories))
      ensures result <==> SomeFailed(repositories)
    {
      ghost var was := repositories;
      result := false;
      for i := 0 to |repositories|
        invariant |repositories| == |was|
        invariant forall n | 0 <= n < i :: repositories[n] == SettledRepository(was[n])
        invariant forall n | i <= n < |was| :: repositories[n] == was[n]
        invariant result <==> exists n | 0 <= n < i :: repositories[n].status == RepositoryFailed
      {
        if repositories[i].status == RepositoryFailed {
          result := true;
          continue;
        }
        var bad := FindFailedAddon(repositories[i]);
        if bad {
          repositories := repositories[i := repositories[i].(status := RepositoryFailed)];
          result := true;
        }
      }
    }

    method ReadyAddons() returns (ready: seq<Entry>)
      ensures ready == ReadyEntries(repositories)
    {
      ready := [];
      for i := 0 to |repositories|
        invariant ready == ReadyEntries(repositories[..i])
      {
        ghost var before := ready;
        for j := 0 to |repositories[i].addons|
          invariant ready == before + OnlyReady(repositories[i].addons[..j])
        {
          var es := repositories[i].addons;
          assert es[..j + 1][..j] == es[..j];
          if IsReady(es[j]) {
            ready := ready + [es[j]];
          }
        }
        assert repositories[i].addons[..|repositories[i].addons|] == repositories[i].addons;
        assert repositories[..i + 1][..i] == repositories[..i];
      }
      assert repositories[..|repositories|] == repositories;
    }
  }

  method FindFailedAddon(r: Repository) returns (found: bool)
    ensures found == HasFailedAddons(r)
  {
    for j := 0 to |r.addons|
      invariant forall n | 0 <= n < j :: IsReady(r.addons[n])
    {
      if !IsReady(r.addons[j]) {
        return true;
      }
    }
    return false;
  }

  method FindExistingAddon(p: Pair, list: seq<Configuration>) returns (found: bool)
    ensures found <==> p in RegisteredBy(list)
  {
    found := false;
    for n := 0 to |list|
      invariant found <==> exists m | 0 <= m < n :: p in ReadyPairs(list[m].status.repositories)
    {
      var here := AlreadyRegistered(p, list[n].status.repositories);
      found := found || here;
    }
  }

  method AlreadyRegistered(p: Pair, repos: seq<StatusRepository>) returns (found: bool)
    ensures found <==> p in ReadyPairs(repos)
  {
    found := false;
    for i := 0 to |repos|
      invariant found <==> exists a, b | 0 <= a < i && 0 <= b < |repos[a].addons| ::
                             repos[a].addons[b].status == AddonReady && repos[a].addons[b].pair == p
    {
      var here := IsListedReady(p, repos[i].addons);
      found := found || here;
    }
  }

  method IsListedReady(p: Pair, addons: seq<Addon>) returns (found: bool)
    ensures found <==> exists j | 0 <= j < |addons| :: addons[j].status == AddonReady && addons[j].pair == p
  {
    for j := 0 to |addons|
      invariant forall n | 0 <= n < j :: !(addons[n].status == AddonReady && addons[n].pair == p)
    {
      if addons[j].status == AddonReady && addons[j].pair == p {
        return true;
      }
    }
    return false;
  }

  function OnlyReady(es: seq<Entry>): seq<Entry> {
    if es == [] then []
    else
      var front := OnlyReady(es[..|es| - 1]);
      if IsReady(es[|es| - 1]) then front + [es[|es| - 1]] else front
  }

  /** The ready entries of all repositories, in order. */
  function ReadyEntries(rs: seq<Repository>): seq<Entry> {
    if rs == [] then [] else ReadyEntries(rs[..|rs| - 1]) + OnlyReady(rs[|rs| - 1].addons)
  }

  // ----- the scan -----

  lemma SeenNothing(rs: seq<Repository>)
    ensures Seen(rs, 0, 0) == {}
  {
  }

  lemma SeenNext(rs: seq<Repository>, i: nat, j: nat)
    requires i < |rs| && j < |rs[i].addons|
    ensures Seen(rs, i, j + 1) == Seen(rs, i, j) + if IsComplete(rs[i].addons[j]) then {rs[i].addons[j].id} else {}
  {
    var e := rs[i].addons[j];
    forall id | id in Seen(rs, i, j + 1) ensures id in Seen(rs, i, j) || (IsComplete(e) && id == e.id) {
    }
    forall id | id in Seen(rs, i, j) ensures id in Seen(rs, i, j + 1) {
    }
  }

  lemma SeenRow(rs: seq<Repository>, i: nat)
    requires i < |rs|
    ensures Seen(rs, i, |rs[i].addons|) == Seen(rs, i + 1, 0)
  {
  }
}
