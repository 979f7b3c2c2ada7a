/**
 Addons configurations of one scope compete for one addon store. The controller handles one
 configuration at a time, so a whole reconcile is one step; in between users create, change and
 delete configurations. Each function here maps the world before a step to the world after it.
 */
module Reconciler {
  import opened AddonsConfigurations
  import opened Collections

  type Name = string

  /** What the store keeps of an addon. */
  datatype Record = Record(id: string, chart: Chart)

  datatype World = World(configs: map<Name, Configuration>, addons: map<Pair, Record>, charts: set<Chart>)

  // ----- the addon and chart stores -----

  /** Every ready entry is upserted with its chart, one after the other. */
  function SavedAddons(addons: map<Pair, Record>, es: seq<Entry>): map<Pair, Record> {
    if es == [] then addons
    else
      var e := es[|es| - 1];
      SavedAddons(addons, es[..|es| - 1])[e.pair := Record(e.id, e.chart)]
  }

  function ChartsOf(es: seq<Entry>): set<Chart> {
    set e | e in es :: e.chart
  }

  function Save(w: World, es: seq<Entry>): (after: World)
    ensures after.configs == w.configs
  {
    w.(addons := SavedAddons(w.addons, es), charts := w.charts + ChartsOf(es))
  }

  function Elements(ps: seq<Pair>): set<Pair> {
    set p | p in ps
  }

  /** Removing an addon removes its chart; what is not there is passed over. */
  function Remove(w: World, ps: seq<Pair>): (after: World)
    ensures after.configs == w.configs
  {
    w.(addons := w.addons - Elements(ps),
       charts := w.charts - set p | p in ps && p in w.addons :: w.addons[p].chart)
  }

  // ----- statuses -----

  function Report(e: Entry): Addon {
    Addon(e.pair, e.status, e.reason)
  }

  function ReportRepository(r: Repository): StatusRepository {
    StatusRepository(r.url, r.status, r.reason, r.message,
                     seq(|r.addons|, j requires 0 <= j < |r.addons| => Report(r.addons[j])))
  }

  function Snapshot(rs: seq<Repository>): seq<StatusRepository> {
    seq(|rs|, i requires 0 <= i < |rs| => ReportRepository(rs[i]))
  }

  function PairsOf(addons: seq<Addon>): seq<Pair> {
    seq(|addons|, j requires 0 <= j < |addons| => addons[j].pair)
  }

  /** All pairs a status lists, in order. */
  function Listing(repos: seq<StatusRepository>): seq<Pair> {
    if repos == [] then [] else Listing(repos[..|repos| - 1]) + PairsOf(repos[|repos| - 1].addons)
  }

  function Keys(ps: seq<Pair>): seq<string> {
    seq(|ps|, n requires 0 <= n < |ps| => Key(ps[n]))
  }

  /** The pairs whose keys are no longer listed. */
  function Orphans(last: seq<Pair>, stay: set<string>): seq<Pair> {
    if last == [] then []
    else
      var front, p := Orphans(last[..|last| - 1], stay), last[|last| - 1];
      if Key(p) in stay then front else front + [p]
  }

  function StayingKeys(repos: seq<StatusRepository>): set<string> {
    set k | k in Keys(Listing(repos))
  }

  ghost function RegisteredElsewhere(configs: map<Name, Configuration>, self: Name): set<Pair> {
    set o, p | o in configs && o != self && p in ReadyPairs(configs[o].status.repositories) :: p
  }

  function WithStatus(w: World, self: Name, st: Status): World
    requires self in w.configs
  {
    w.(configs := w.configs[self := w.configs[self].(status := st)])
  }

  // ----- waking the others -----

  ghost predicate InConflict(key: string, st: Status) {
    && st.phase != Ready
    && exists i, j | 0 <= i < |st.repositories| && 0 <= j < |st.repositories[i].addons| ::
         st.repositories[i].status != RepositoryReady && Key(st.repositories[i].addons[j].pair) == key
  }

  /** How many of the keys the status is in conflict about. */
  ghost function Hits(keys: seq<string>, st: Status): nat {
    if keys == [] then 0
    else Hits(keys[..|keys| - 1], st) + if InConflict(keys[|keys| - 1], st) then 1 else 0
  }

  /** A request to reprocess changes the specification, so the API server raises the generation too. */
  function Bump(c: Configuration, times: nat): Configuration {
    c.(reprocessRequest := c.reprocessRequest + times, generation := c.generation + times)
  }

  ghost function Wake(w: World, self: Name, keys: seq<string>): World {
    w.(configs := map o | o in w.configs ::
         if o == self then w.configs[o] else Bump(w.configs[o], Hits(keys, w.configs[o].status)))
  }

  // ----- a reconcile -----

  /** The pairs a completed reconcile gives up. */
  ghost function Dropped(last: Status, failed: bool, now: seq<StatusRepository>): seq<Pair> {
    if last.phase != Ready then []
    else if failed then Listing(last.repositories)
    else Orphans(Listing(last.repositories), StayingKeys(now))
  }

  /** An address could not be fetched: the status is written unreviewed, and only if it differs. */
  ghost function FetchError(w: World, self: Name, last: Status, rs: seq<Repository>): World
    requires self in w.configs
  {
    var st := Status(Failed, w.configs[self].generation, Snapshot(rs));
    if SameStatus(st, last) then w else WithStatus(w, self, st)
  }

  /** After the review, with the status written and ready addons saved. */
  ghost function Written(w: World, self: Name, rs: seq<Repository>): World
    requires self in w.configs
  {
    var failed := SomeFailed(rs);
    var st := Status(if failed then Failed else Ready, w.configs[self].generation, Snapshot(rs));
    WithStatus(if failed then w else Save(w, ReadyEntries(rs)), self, st)
  }

  ghost function Verdict(w: World, self: Name, loaded: seq<Repository>): seq<Repository> {
    Reviewed(loaded, RegisteredElsewhere(w.configs, self))
  }

  ghost function OnAdd(w: World, self: Name, last: Status, loaded: seq<Repository>): World
    requires self in w.configs
  {
    if SomeFetchingError(loaded) then FetchError(w, self, last, loaded)
    else
      var rs := Verdict(w, self, loaded);
      var dropped := Dropped(last, SomeFailed(rs), Snapshot(rs));
      Wake(Remove(Written(w, self, rs), dropped), self, Keys(dropped))
  }

  /** All configurations that are not ready are woken, whatever they list. */
  function WakeAll(w: World, self: Name): World {
    w.(configs := map o | o in w.configs ::
         if o == self || w.configs[o].status.phase == Ready then w.configs[o] else Bump(w.configs[o], 1))
  }

  function OnDelete(w: World, self: Name): World
    requires self in w.configs
  {
    var st := w.configs[self].status;
    var freed := if st.phase == Ready then Remove(WakeAll(w, self), Listing(st.repositories)) else w;
    freed.(configs := freed.configs - {self})
  }

  function Prepared(w: World, self: Name): World
    requires self in w.configs
  {
    var c := w.configs[self];
    w.(configs := w.configs[self := c.(finalizer := true,
                                       status := c.status.(phase := Pending, observedGeneration := c.generation))])
  }

  ghost function Reconcile(w: World, self: Name, outcomes: seq<Outcome>): World
    requires self in w.configs && |outcomes| == |w.configs[self].repositories|
  {
    var c := w.configs[self];
    var loaded := Load(c.repositories, outcomes);
    if c.deleting then OnDelete(w, self)
    else if InitialProcessing(c) then
      var prepared := Prepared(w, self);
      OnAdd(prepared, self, prepared.configs[self].status, loaded)
    else if Reprocessing(c) then OnAdd(w, self, c.status, loaded)
    else w
  }

  // ----- runs -----

  datatype Action =
    | Create(name: Name, repositories: seq<string>)
    | Change(name: Name, repositories: seq<string>, reprocessRequest: nat)
    | Delete(name: Name)
    | Handle(name: Name, outcomes: seq<Outcome>)

  /** The loader lets no addon without an ID through. */
  ghost predicate WithIDs(outcomes: seq<Outcome>) {
    forall i, j | 0 <= i < |outcomes| && outcomes[i].Index? && 0 <= j < |outcomes[i].attempts| ::
      outcomes[i].attempts[j].Got? ==> outcomes[i].attempts[j].id != ""
  }

  ghost predicate Enabled(w: World, a: Action) {
    match a
    case Create(name, _) => name !in w.configs
    case Change(name, _, _) => name in w.configs
    case Delete(name) => name in w.configs
    case Handle(name, outcomes) =>
      name in w.configs && |outcomes| == |w.configs[name].repositories| && WithIDs(outcomes)
  }

  /** An object with a finalizer is only marked; the controller removes it later. */
  ghost function Step(w: World, a: Action): World
    requires Enabled(w, a)
  {
    match a
    case Create(name, repositories) =>
      w.(configs := w.configs[name := Configuration(1, false, false, 0, repositories, Status(Unset, 0, []))])
    case Change(name, repositories, request) =>
      var c := w.configs[name];
      w.(configs := w.configs[name := c.(repositories := repositories, reprocessRequest := request,
                                         generation := c.generation + 1)])
    case Delete(name) =>
      var c := w.configs[name];
      if c.finalizer then w.(configs := w.configs[name := c.(deleting := true, generation := c.generation + 1)])
      else w.(configs := w.configs - {name})
    case Handle(name, outcomes) => Reconcile(w, name, outcomes)
  }

  ghost predicate IsRun(run: seq<World>, actions: seq<Action>) {
    && |run| == |actions| + 1
    && run[0] == World(map[], map[], {})
    && forall n | 0 <= n < |actions| :: Enabled(run[n], actions[n]) && run[n + 1] == Step(run[n], actions[n])
  }

  /** No two addons share a chart: `owner` tells whose it is. */
  ghost predicate OwnCharts(a: Action, owner: map<Chart, Pair>) {
    a.Handle? ==>
      forall i, j | 0 <= i < |a.outcomes| && a.outcomes[i].Index? && 0 <= j < |a.outcomes[i].attempts| ::
        var got := a.outcomes[i].attempts[j];
        got.Got? ==> got.chart in owner && owner[got.chart] == got.pair
  }
}
