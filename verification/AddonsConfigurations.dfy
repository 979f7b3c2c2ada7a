/** The API objects: addons configurations, what they ask for and what their status reports. */
module AddonsConfigurations {

  /** What a status tells apart addons by. */
  datatype Pair = Pair(name: string, version: string)

  datatype AddonStatus = AddonReady | AddonFailed

  datatype AddonReason =
    | NoReason
    | FetchingError
    | LoadingError
    | ConflictInSpecifiedRepositories
    | ConflictWithAlreadyRegisteredAddons

  datatype RepositoryStatus = RepositoryReady | RepositoryFailed

  datatype RepositoryReason = NoRepositoryReason | URLFetchingError | URLTemplatingError | EmptyURLError

  datatype Addon = Addon(pair: Pair, status: AddonStatus, reason: AddonReason)

  datatype StatusRepository = StatusRepository(
    url: string,
    status: RepositoryStatus,
    reason: RepositoryReason,
    message: string,
    addons: seq<Addon>)

  datatype Phase = Unset | Pending | Ready | Failed

  datatype Status = Status(phase: Phase, observedGeneration: nat, repositories: seq<StatusRepository>)

  /** `repositories` are the URLs asked for. The API server raises `generation` when the specification changes. */
  datatype Configuration = Configuration(
    generation: nat,
    deleting: bool,
    finalizer: bool,
    reprocessRequest: nat,
    repositories: seq<string>,
    status: Status)

  function Key(p: Pair): string {
    p.name + "/" + p.version
  }

  /** Semantic versions have no slash; the name may have as many as it likes. */
  lemma KeyInjective(p: Pair, q: Pair)
    requires '/' !in p.version && '/' !in q.version
    requires Key(p) == Key(q)
    ensures p == q
  {
    var k := Key(p);
    assert k[|p.name|] == '/' && k[|q.name|] == '/';
    assert forall n | |p.name| < n < |k| :: k[n] == p.version[n - |p.name| - 1];
    assert forall n | |q.name| < n < |k| :: k[n] == q.version[n - |q.name| - 1];
    assert |p.name| == |q.name|;
    assert p.name == k[..|p.name|] == q.name;
    assert p.version == k[|p.name| + 1..] == q.version;
  }

  // ----- what a status lists -----

  ghost function Pairs(repos: seq<StatusRepository>): set<Pair> {
    set i, j | 0 <= i < |repos| && 0 <= j < |repos[i].addons| :: repos[i].addons[j].pair
  }

  ghost function ReadyPairs(repos: seq<StatusRepository>): set<Pair> {
    set i, j | 0 <= i < |repos| && 0 <= j < |repos[i].addons| && repos[i].addons[j].status == AddonReady ::
      repos[i].addons[j].pair
  }

  // ----- comparing and choosing -----

  predicate SameRepository(r: StatusRepository, q: StatusRepository) {
    r.url == q.url && r.status == q.status && r.reason == q.reason && r.message == q.message
  }

  ghost predicate SameStatus(a: Status, b: Status) {
    && a.phase == b.phase
    && |a.repositories| == |b.repositories|
    && forall i | 0 <= i < |a.repositories| :: SameRepository(a.repositories[i], b.repositories[i])
  }

  /** The comparison looks neither at the addons nor at the generation. */
  method Equals(st: Status, other: Status) returns (same: bool)
    ensures same <==> SameStatus(st, other)
  {
    if st.phase != other.phase {
      return false;
    }
    if |st.repositories| != |other.repositories| {
      return false;
    }
    for i := 0 to |st.repositories|
      invariant forall n | 0 <= n < i :: SameRepository(st.repositories[n], other.repositories[n])
    {
      if !SameRepository(st.repositories[i], other.repositories[i]) {
        return false;
      }
    }
    return true;
  }

  predicate InitialProcessing(c: Configuration) {
    c.status.observedGeneration == 0 || c.status.phase == Pending
  }

  ghost predicate Reprocessing(c: Configuration) {
    || c.generation > c.status.observedGeneration
    || exists i | 0 <= i < |c.status.repositories| ::
         c.status.repositories[i].status == RepositoryFailed && c.status.repositories[i].reason == URLFetchingError
  }

  method IsReadyForReprocessing(c: Configuration) returns (ready: bool)
    ensures ready <==> Reprocessing(c)
  {
    if c.generation > c.status.observedGeneration {
      return true;
    }
    var repos := c.status.repositories;
    for i := 0 to |repos|
      invariant forall n | 0 <= n < i :: !(repos[n].status == RepositoryFailed && repos[n].reason == URLFetchingError)
    {
      if repos[i].status == RepositoryFailed && repos[i].reason == URLFetchingError {
        return true;
      }
    }
    return false;
  }
}
