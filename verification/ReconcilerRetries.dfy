/**
 When a configuration is processed, and what comes of it, in terms of what became of its addresses: fetching
 errors are reported and tried again until they are gone, everything else is decided once.
 */
module ReconcilerRetries {
  import opened AddonsConfigurations
  import opened Collections
  import opened CollectionReview
  import opened Reconciler
  import opened ReconcilerEffects
  import opened ReconcilerInvariant
  import opened ReconcilerRuns
  import opened ReconcilerWakeUps
  import opened ReconcilerCauses

  // ----- vocabulary -----

  /** A repository could not be fetched, says the status. */
  ghost predicate ReportsFetchError(st: Status) {
    exists i | 0 <= i < |st.repositories| ::
      st.repositories[i].status == RepositoryFailed && st.repositories[i].reason == URLFetchingError
  }

  /** The four reasons to process a configuration. */
  ghost predicate ToDo(c: Configuration) {
    || c.status.observedGeneration == 0
    || c.status.phase == Pending
    || c.generation > c.status.observedGeneration
    || ReportsFetchError(c.status)
  }

  /** Some address could not be fetched. */
  ghost predicate FetchFailed(urls: seq<string>, outcomes: seq<Outcome>)
    requires |outcomes| == |urls|
  {
    exists i | 0 <= i < |urls| :: urls[i] != "" && outcomes[i].Unfetched?
  }

  ghost predicate IsAttempt(urls: seq<string>, outcomes: seq<Outcome>, i: int, j: int)
    requires |outcomes| == |urls|
  {
    0 <= i < |urls| && urls[i] != "" && outcomes[i].Index? && 0 <= j < |outcomes[i].attempts|
  }

  /** Some index lists the pair. */
  ghost predicate Offered(urls: seq<string>, outcomes: seq<Outcome>, p: Pair)
    requires |outcomes| == |urls|
  {
    exists i, j | IsAttempt(urls, outcomes, i, j) :: outcomes[i].attempts[j].pair == p
  }

  /** An earlier index entry was loaded with the same ID. */
  ghost predicate Repeats(urls: seq<string>, outcomes: seq<Outcome>, i: int, j: int)
    requires |outcomes| == |urls| && IsAttempt(urls, outcomes, i, j) && outcomes[i].attempts[j].Got?
  {
    exists a, b | IsAttempt(urls, outcomes, a, b) :: Before(a, b, i, j) && SameID(urls, outcomes, a, b, i, j)
  }

  ghost predicate SameID(urls: seq<string>, outcomes: seq<Outcome>, a: int, b: int, i: int, j: int)
    requires |outcomes| == |urls| && IsAttempt(urls, outcomes, a, b) && IsAttempt(urls, outcomes, i, j)
  {
    var x, y := outcomes[a].attempts[b], outcomes[i].attempts[j];
    x.Got? && y.Got? && x.id == y.id
  }

  /** Every address has an index, every entry was loaded, under an ID and a pair that nobody else has. */
  ghost predicate AllWell(w: World, self: Name, urls: seq<string>, outcomes: seq<Outcome>)
    requires |outcomes| == |urls|
  {
    && (forall i | 0 <= i < |urls| :: urls[i] != "" && outcomes[i].Index?)
    && (forall i, j | IsAttempt(urls, outcomes, i, j) ::
          && outcomes[i].attempts[j].Got?
          && outcomes[i].attempts[j].pair !in RegisteredElsewhere(w.configs, self)
          && !Repeats(urls, outcomes, i, j))
  }

  // ----- loading -----

  lemma FetchFailedIff(urls: seq<string>, outcomes: seq<Outcome>)
    requires |outcomes| == |urls|
    ensures SomeFetchingError(Load(urls, outcomes)) <==> FetchFailed(urls, outcomes)
  {
    var rs := Load(urls, outcomes);
    forall i | 0 <= i < |urls| ensures IsFetchingError(rs[i]) <==> urls[i] != "" && outcomes[i].Unfetched? {
      assert rs[i] == LoadRepository(urls[i], outcomes[i]);
    }
    hide Load, IsFetchingError;
  }

  lemma PositionIff(urls: seq<string>, outcomes: seq<Outcome>, i: int, j: int)
    requires |outcomes| == |urls|
    ensures Position(Load(urls, outcomes), i, j) <==> IsAttempt(urls, outcomes, i, j)
  {
    if 0 <= i < |urls| {
      assert Load(urls, outcomes)[i] == LoadRepository(urls[i], outcomes[i]);
    }
  }

  lemma EntryAt(urls: seq<string>, outcomes: seq<Outcome>, i: int, j: int)
    requires |outcomes| == |urls| && IsAttempt(urls, outcomes, i, j)
    ensures Position(Load(urls, outcomes), i, j)
    ensures Load(urls, outcomes)[i].addons[j] == LoadEntry(outcomes[i].attempts[j])
  {
    assert Load(urls, outcomes)[i] == LoadRepository(urls[i], outcomes[i]);
  }

  lemma RepeatsIffLate(urls: seq<string>, outcomes: seq<Outcome>, i: int, j: int)
    requires |outcomes| == |urls| && WithIDs(outcomes) && IsAttempt(urls, outcomes, i, j)
    ensures Position(Load(urls, outcomes), i, j)
    ensures Late(Load(urls, outcomes), i, j) <==> outcomes[i].attempts[j].Got? && Repeats(urls, outcomes, i, j)
  {
    var rs := Load(urls, outcomes);
    EntryAt(urls, outcomes, i, j);
    forall a, b
      ensures Position(rs, a, b) <==> IsAttempt(urls, outcomes, a, b)
      ensures Position(rs, a, b) ==> (Clash(rs, a, b, i, j) <==> SameID(urls, outcomes, a, b, i, j))
    {
      PositionIff(urls, outcomes, a, b);
      if Position(rs, a, b) {
        EntryAt(urls, outcomes, a, b);
        hide Load, Position;
      }
    }
    hide Load, Position, Clash, SameID, IsAttempt;
  }

  lemma AllWellIff(w: World, self: Name, urls: seq<string>, outcomes: seq<Outcome>)
    requires |outcomes| == |urls| && WithIDs(outcomes)
    ensures NothingWrong(w, self, Load(urls, outcomes)) <==> AllWell(w, self, urls, outcomes)
    ensures AllWell(w, self, urls, outcomes) ==> !FetchFailed(urls, outcomes)
  {
    var rs := Load(urls, outcomes);
    forall i | 0 <= i < |urls| ensures rs[i].status == RepositoryReady <==> urls[i] != "" && outcomes[i].Index? {
      assert rs[i] == LoadRepository(urls[i], outcomes[i]);
    }
    forall i, j
      ensures Position(rs, i, j) <==> IsAttempt(urls, outcomes, i, j)
      ensures Position(rs, i, j) ==>
                && (IsReady(rs[i].addons[j]) <==> outcomes[i].attempts[j].Got?)
                && rs[i].addons[j].pair == outcomes[i].attempts[j].pair
                && (Late(rs, i, j) <==> outcomes[i].attempts[j].Got? && Repeats(urls, outcomes, i, j))
    {
      PositionIff(urls, outcomes, i, j);
      if Position(rs, i, j) {
        EntryAt(urls, outcomes, i, j);
        RepeatsIffLate(urls, outcomes, i, j);
        hide Load, Position, Late, Repeats;
      }
    }
    assert IDsDistinct(rs) <==> forall i, j | Position(rs, i, j) :: !Late(rs, i, j) by {
      hide Clash, Load, Position, Repeats;
    }
    hide Load, Position, Late, Repeats, IDsDistinct, IsAttempt, RegisteredElsewhere;
    assert |rs| == |urls| by {
      LoadedLength(urls, outcomes);
    }
  }

  lemma LoadedLength(urls: seq<string>, outcomes: seq<Outcome>)
    requires |outcomes| == |urls|
    ensures |Load(urls, outcomes)| == |urls|
  {
  }

  // ----- whether it is processed -----

  lemma ToDoIff(c: Configuration)
    ensures ToDo(c) <==> InitialProcessing(c) || Reprocessing(c)
  {
  }

  /** Without a reason nothing happens, whatever the addresses have to say. */
  lemma LeftAlone(w: World, self: Name, outcomes: seq<Outcome>)
    requires Enabled(w, Handle(self, outcomes)) && !w.configs[self].deleting && !ToDo(w.configs[self])
    ensures Reconcile(w, self, outcomes) == w
  {
    ToDoIff(w.configs[self]);
    hide OnAdd, Load, Prepared, Reprocessing;
  }

  lemma ToDoCompletes(w: World, self: Name, outcomes: seq<Outcome>)
    requires Enabled(w, Handle(self, outcomes)) && !w.configs[self].deleting && ToDo(w.configs[self])
    ensures Completes(w, self, outcomes) <==> !FetchFailed(w.configs[self].repositories, outcomes)
  {
    ToDoIff(w.configs[self]);
    FetchFailedIff(w.configs[self].repositories, outcomes);
  }

  /** With a reason, whichever it is, and nothing wrong it ends ready, holding and storing what was loaded. */
  lemma EndsReady(w: World, self: Name, outcomes: seq<Outcome>)
    requires Enabled(w, Handle(self, outcomes)) && !w.configs[self].deleting && ToDo(w.configs[self])
    requires AllWell(w, self, w.configs[self].repositories, outcomes)
    ensures var w' := Reconcile(w, self, outcomes); IsReadyIn(w', self) && Holding(w', self) <= w'.addons.Keys
    ensures forall p :: p in Holding(Reconcile(w, self, outcomes), self) <==>
              Offered(w.configs[self].repositories, outcomes, p)
  {
    var c := w.configs[self];
    var urls := c.repositories;
    var loaded := Load(urls, outcomes);
    AllWellIff(w, self, urls, outcomes);
    ToDoCompletes(w, self, outcomes);
    EndsReadyIff(w, self, outcomes);
    StoresWhatItHolds(w, self, outcomes);
    ListsWhatLoaded(w, self, outcomes);
    forall i, j
      ensures Position(loaded, i, j) <==> IsAttempt(urls, outcomes, i, j)
      ensures Position(loaded, i, j) ==> loaded[i].addons[j].pair == outcomes[i].attempts[j].pair
    {
      PositionIff(urls, outcomes, i, j);
      if Position(loaded, i, j) {
        EntryAt(urls, outcomes, i, j);
        hide Load, Position;
      }
    }
    hide Reconcile, Load, Position, IsAttempt, Pairs, ReadyPairs;
  }

  lemma StoresWhatItHolds(w: World, self: Name, outcomes: seq<Outcome>)
    requires Enabled(w, Handle(self, outcomes)) && Completes(w, self, outcomes)
    requires IsReadyIn(Reconcile(w, self, outcomes), self)
    ensures var w' := Reconcile(w, self, outcomes);
            && Holding(w', self) <= w'.addons.Keys
            && Holding(w', self) == Pairs(w'.configs[self].status.repositories)
  {
    var c := w.configs[self];
    var loaded := Load(c.repositories, outcomes);
    var start := if InitialProcessing(c) then Prepared(w, self) else w;
    LoadedFacts(c.repositories, outcomes);
    SelfAfter(start, self, start.configs[self].status, loaded);
    hide OnAdd, Load, Verdict, Snapshot;
    assert Reconcile(w, self, outcomes) == OnAdd(start, self, start.configs[self].status, loaded);
    ReadyIsStored(start, self, start.configs[self].status, loaded);
    ReadyVerdict(start, self, loaded);
    AllReadyPairs(Snapshot(Verdict(start, self, loaded)));
  }

  // ----- what the status says -----

  /** What a repository is reported as, but for the verdict on its addons. */
  ghost predicate Tells(r: StatusRepository, url: string, outcome: Outcome) {
    && r.url == url
    && (url == "" ==> r.status == RepositoryFailed && r.reason == EmptyURLError && r.message == "")
    && (url != "" && outcome.Untemplated? ==>
          r.status == RepositoryFailed && r.reason == URLTemplatingError && r.message == outcome.message)
    && (url != "" && outcome.Unfetched? ==>
          r.status == RepositoryFailed && r.reason == URLFetchingError && r.message == outcome.message)
    && (url != "" && outcome.Index? ==> r.reason == NoRepositoryReason && r.message == "")
  }

  /** The status reports the addresses after a fetching error: no addon is to blame, and it has failed. */
  ghost predicate TellsOfFailure(st: Status, urls: seq<string>, outcomes: seq<Outcome>)
    requires |outcomes| == |urls|
  {
    && st.phase == Failed
    && |st.repositories| == |urls|
    && forall i | 0 <= i < |urls| ::
         && Tells(st.repositories[i], urls[i], outcomes[i])
         && (urls[i] != "" && outcomes[i].Index? ==> st.repositories[i].status == RepositoryReady)
  }

  lemma TellsIffSame(st: Status, urls: seq<string>, outcomes: seq<Outcome>, generation: nat)
    requires |outcomes| == |urls|
    ensures SameStatus(Status(Failed, generation, Snapshot(Load(urls, outcomes))), st) <==>
            TellsOfFailure(st, urls, outcomes)
  {
    var rs := Load(urls, outcomes);
    var snap := Snapshot(rs);
    forall i | 0 <= i < |urls| && i < |st.repositories|
      ensures SameRepository(snap[i], st.repositories[i]) <==>
              && Tells(st.repositories[i], urls[i], outcomes[i])
              && (urls[i] != "" && outcomes[i].Index? ==> st.repositories[i].status == RepositoryReady)
    {
      assert rs[i] == LoadRepository(urls[i], outcomes[i]);
      assert snap[i] == ReportRepository(rs[i]);
    }
    hide SameRepository, Tells;
    assert |snap| == |urls|;
  }

  lemma SnapshotTells(urls: seq<string>, outcomes: seq<Outcome>, generation: nat)
    requires |outcomes| == |urls|
    ensures TellsOfFailure(Status(Failed, generation, Snapshot(Load(urls, outcomes))), urls, outcomes)
  {
    var st := Status(Failed, generation, Snapshot(Load(urls, outcomes)));
    TellsIffSame(st, urls, outcomes, generation);
    hide Load, Snapshot, TellsOfFailure;
  }

  /** A fetching error is reported, touches nothing else, and is written only if the status does not say it yet. */
  lemma FetchErrorReported(w: World, self: Name, outcomes: seq<Outcome>)
    requires Enabled(w, Handle(self, outcomes)) && !w.configs[self].deleting && ToDo(w.configs[self])
    requires FetchFailed(w.configs[self].repositories, outcomes)
    ensures var c, w' := w.configs[self], Reconcile(w, self, outcomes);
            && self in w'.configs && w' == w.(configs := w.configs[self := w'.configs[self]])
            && TellsOfFailure(w'.configs[self].status, c.repositories, outcomes)
            && (if TellsOfFailure(c.status, c.repositories, outcomes) && c.status.observedGeneration != 0
                then w' == w
                else w'.configs[self].status.observedGeneration == c.generation)
    ensures var c, c' := w.configs[self], Reconcile(w, self, outcomes).configs[self];
            && c' == c.(status := c'.status, finalizer := c'.finalizer)
            && ToDo(c')
  {
    var c := w.configs[self];
    var urls := c.repositories;
    ToDoIff(c);
    FetchFailedIff(urls, outcomes);
    var start := if InitialProcessing(c) then Prepared(w, self) else w;
    var last := start.configs[self].status;
    TellsIffSame(last, urls, outcomes, c.generation);
    SnapshotTells(urls, outcomes, c.generation);
    hide Load, Snapshot, SameStatus, ToDo, TellsOfFailure, FetchFailed, Reprocessing;
    var w' := Reconcile(w, self, outcomes);
    assert w' == FetchError(start, self, last, Load(urls, outcomes));
    assert w'.configs == w.configs[self := w'.configs[self]];
    ToldIsToDo(w'.configs[self], urls, outcomes);
    ToldHasFailed(c.status, urls, outcomes);
  }

  lemma ToldIsToDo(c: Configuration, urls: seq<string>, outcomes: seq<Outcome>)
    requires |outcomes| == |urls| && FetchFailed(urls, outcomes)
    ensures TellsOfFailure(c.status, urls, outcomes) ==> ToDo(c)
  {
  }

  lemma ToldHasFailed(st: Status, urls: seq<string>, outcomes: seq<Outcome>)
    requires |outcomes| == |urls|
    ensures TellsOfFailure(st, urls, outcomes) ==> st.phase == Failed
  {
  }

  /** What the status says of an index entry once every address could be fetched. */
  ghost predicate TellsOfEntry(a: Addon, attempt: Attempt, repeats: bool, taken: bool) {
    && a.pair == attempt.pair
    && (a.status == AddonReady <==> a.reason == NoReason)
    && match attempt
       case NotFetched(_) => a.reason == FetchingError
       case NotLoaded(_) => a.reason == LoadingError
       case Got(_, _, _) =>
         if taken then a.reason == ConflictWithAlreadyRegisteredAddons
         else if repeats then a.reason == ConflictInSpecifiedRepositories
         else a.reason == NoReason
  }

  /** Every index entry is reported, each with the reason that applies to it. */
  lemma EntryReported(w: World, self: Name, outcomes: seq<Outcome>, i: int, j: int)
    requires Enabled(w, Handle(self, outcomes)) && !w.configs[self].deleting && ToDo(w.configs[self])
    requires !FetchFailed(w.configs[self].repositories, outcomes)
    requires IsAttempt(w.configs[self].repositories, outcomes, i, j)
    ensures self in Reconcile(w, self, outcomes).configs
    ensures var now := Reconcile(w, self, outcomes).configs[self].status.repositories;
            var attempt := outcomes[i].attempts[j];
            && i < |now| && j < |now[i].addons|
            && TellsOfEntry(now[i].addons[j], attempt,
                            attempt.Got? && Repeats(w.configs[self].repositories, outcomes, i, j),
                            attempt.pair in RegisteredElsewhere(w.configs, self))
  {
    var c := w.configs[self];
    var urls := c.repositories;
    var loaded := Load(urls, outcomes);
    ToDoCompletes(w, self, outcomes);
    EntryAt(urls, outcomes, i, j);
    RepeatsIffLate(urls, outcomes, i, j);
    WrittenAfter(w, self, outcomes);
    var registered, attempt := RegisteredElsewhere(w.configs, self), outcomes[i].attempts[j];
    ReviewedEntry(loaded, registered, i, j);
    var rs := Reviewed(loaded, registered);
    OutcomeReported(attempt, attempt.Got? && Repeats(urls, outcomes, i, j), attempt.pair in registered);
    hide Reconcile, Load, Reviewed, RegisteredElsewhere, Late, Repeats, FetchFailed, ToDo, Completes, TellsOfEntry;
    assert Snapshot(rs)[i].addons[j] == Report(rs[i].addons[j]);
    assert attempt.Got? ==> attempt.id != "";
  }

  /** Loading, the review and the report together, for one entry. */
  lemma OutcomeReported(attempt: Attempt, repeats: bool, taken: bool)
    requires attempt.Got? ==> attempt.id != ""
    requires repeats ==> attempt.Got?
    ensures var e := LoadEntry(attempt);
            var e' := if IsComplete(e) && taken then Fail(e, ConflictWithAlreadyRegisteredAddons)
                      else if repeats then Fail(e, ConflictInSpecifiedRepositories)
                      else e;
            TellsOfEntry(Report(e'), attempt, repeats, taken)
  {
  }

  /** What a completed reconcile writes. */
  lemma WrittenAfter(w: World, self: Name, outcomes: seq<Outcome>)
    requires Enabled(w, Handle(self, outcomes)) && Completes(w, self, outcomes)
    ensures var c, w' := w.configs[self], Reconcile(w, self, outcomes);
            var rs := Reviewed(Load(c.repositories, outcomes), RegisteredElsewhere(w.configs, self));
            && self in w'.configs
            && w'.configs[self].status == Status(if SomeFailed(rs) then Failed else Ready, c.generation, Snapshot(rs))
            && w'.configs[self].generation == c.generation
            && w'.configs[self].deleting == c.deleting
  {
    var c := w.configs[self];
    var loaded := Load(c.repositories, outcomes);
    var start := if InitialProcessing(c) then Prepared(w, self) else w;
    PreparedRegistered(w, self);
    SelfAfter(start, self, start.configs[self].status, loaded);
    hide Load, Reviewed, RegisteredElsewhere, Dropped, Hits, Snapshot;
    assert Reconcile(w, self, outcomes) == OnAdd(start, self, start.configs[self].status, loaded);
  }

  /** Every address is reported, with its own failure or, if an addon of it failed, as failed without a reason. */
  lemma RepositoryReported(w: World, self: Name, outcomes: seq<Outcome>, i: nat)
    requires Enabled(w, Handle(self, outcomes)) && !w.configs[self].deleting && ToDo(w.configs[self])
    requires !FetchFailed(w.configs[self].repositories, outcomes) && i < |w.configs[self].repositories|
    ensures self in Reconcile(w, self, outcomes).configs
    ensures var urls := w.configs[self].repositories;
            var now := Reconcile(w, self, outcomes).configs[self].status.repositories;
            && |now| == |urls|
            && Tells(now[i], urls[i], outcomes[i])
            && |now[i].addons| == (if urls[i] != "" && outcomes[i].Index? then |outcomes[i].attempts| else 0)
            && (urls[i] != "" && outcomes[i].Index? ==>
                  (now[i].status == RepositoryFailed <==>
                   exists j | 0 <= j < |now[i].addons| :: now[i].addons[j].status == AddonFailed))
  {
    var c := w.configs[self];
    var loaded := Load(c.repositories, outcomes);
    ToDoCompletes(w, self, outcomes);
    WrittenAfter(w, self, outcomes);
    var registered := RegisteredElsewhere(w.configs, self);
    ReviewedShape(loaded, registered);
    var rs := Reviewed(loaded, registered);
    assert loaded[i] == LoadRepository(c.repositories[i], outcomes[i]);
    hide Reconcile, Load, Reviewed, RegisteredElsewhere, FetchFailed, ToDo, Completes;
    assert Snapshot(rs)[i] == ReportRepository(rs[i]);
    forall j | 0 <= j < |rs[i].addons| ensures Snapshot(rs)[i].addons[j] == Report(rs[i].addons[j]) {
    }
  }

  // ----- once is enough, except for fetching errors -----

  /** Whoever has been processed is to be processed again if and only if an address could not be fetched. */
  lemma RetriedIff(w: World, self: Name, outcomes: seq<Outcome>)
    requires Inv(w) && Enabled(w, Handle(self, outcomes)) && !w.configs[self].deleting && ToDo(w.configs[self])
    ensures self in Reconcile(w, self, outcomes).configs && !Reconcile(w, self, outcomes).configs[self].deleting
    ensures ToDo(Reconcile(w, self, outcomes).configs[self]) <==> FetchFailed(w.configs[self].repositories, outcomes)
  {
    var c := w.configs[self];
    if FetchFailed(c.repositories, outcomes) {
      FetchErrorReported(w, self, outcomes);
    } else {
      assert Sound(c);
      ToDoCompletes(w, self, outcomes);
      WrittenAfter(w, self, outcomes);
      var now := Reconcile(w, self, outcomes).configs[self].status;
      hide Inv, Reconcile, Load, Reviewed, Snapshot, RegisteredElsewhere, Completes;
      forall i | 0 <= i < |now.repositories|
        ensures !(now.repositories[i].status == RepositoryFailed && now.repositories[i].reason == URLFetchingError)
      {
        ReportsOnlyThese(w, self, outcomes);
        RepositoryReported(w, self, outcomes, i);
      }
    }
  }

  lemma ReportsOnlyThese(w: World, self: Name, outcomes: seq<Outcome>)
    requires Enabled(w, Handle(self, outcomes)) && Completes(w, self, outcomes)
    ensures self in Reconcile(w, self, outcomes).configs
    ensures |Reconcile(w, self, outcomes).configs[self].status.repositories| == |w.configs[self].repositories|
  {
    WrittenAfter(w, self, outcomes);
    ReviewedShape(Load(w.configs[self].repositories, outcomes), RegisteredElsewhere(w.configs, self));
    LoadedLength(w.configs[self].repositories, outcomes);
    hide Reconcile, Load, Reviewed;
  }

  /** Handling it once more changes nothing, until something happens to it. */
  lemma HandledOnce(w: World, self: Name, outcomes: seq<Outcome>, again: seq<Outcome>)
    requires Inv(w) && Enabled(w, Handle(self, outcomes)) && !w.configs[self].deleting
    requires !FetchFailed(w.configs[self].repositories, outcomes)
    requires Enabled(Reconcile(w, self, outcomes), Handle(self, again))
    ensures var w' := Reconcile(w, self, outcomes); Reconcile(w', self, again) == w'
  {
    if ToDo(w.configs[self]) {
      RetriedIff(w, self, outcomes);
      hide Reconcile;
      LeftAlone(Reconcile(w, self, outcomes), self, again);
    } else {
      LeftAlone(w, self, outcomes);
      hide Reconcile;
      LeftAlone(w, self, again);
    }
  }

  // ----- over runs -----

  /** The controller will process it when it next looks. */
  ghost predicate Pursued(w: World, o: Name) {
    o in w.configs && !w.configs[o].deleting && ToDo(w.configs[o])
  }

  /** Nobody deletes the configuration, and if it is handled an address cannot be fetched. */
  ghost predicate Leaves(w: World, a: Action, o: Name)
    requires Enabled(w, a)
  {
    && a != Delete(o)
    && (a.Handle? && a.name == o ==> FetchFailed(w.configs[o].repositories, a.outcomes))
  }

  lemma OthersBump(w: World, self: Name, outcomes: seq<Outcome>, o: Name) returns (times: nat)
    requires Inv(w) && Enabled(w, Handle(self, outcomes)) && o in w.configs && o != self
    ensures o in Reconcile(w, self, outcomes).configs
    ensures Reconcile(w, self, outcomes).configs[o] == Bump(w.configs[o], times)
  {
    var c := w.configs[self];
    var loaded := Load(c.repositories, outcomes);
    hide Load, OnAdd, OnDelete, Woken, Inv;
    if c.deleting {
      OnDeleteOthers(w, self, o);
      times := if IsReadyIn(w, self) && !IsReadyIn(w, o) then 1 else 0;
    } else if InitialProcessing(c) {
      var start := Prepared(w, self);
      OnAddOthers(start, self, start.configs[self].status, loaded, o);
      times := Woken(start, self, start.configs[self].status, loaded, o);
    } else if Reprocessing(c) {
      OnAddOthers(w, self, c.status, loaded, o);
      times := Woken(w, self, c.status, loaded, o);
    } else {
      times := 0;
    }
  }

  lemma StaysPursued(w: World, a: Action, o: Name)
    requires Inv(w) && Enabled(w, a) && Pursued(w, o) && Leaves(w, a, o)
    ensures Pursued(Step(w, a), o)
  {
    assert Sound(w.configs[o]);
    if a.Handle? {
      HandleIsReconcile(w, a);
      hide Step, Reconcile;
      if a.name == o {
        FetchErrorReported(w, o, a.outcomes);
      } else {
        var times := OthersBump(w, a.name, a.outcomes, o);
      }
    }
  }

  lemma {:induction false} PursuedRun(run: seq<World>, actions: seq<Action>, m: nat, n: nat, o: Name)
    requires IsRun(run, actions) && m <= n < |run| && Pursued(run[m], o)
    requires forall k | m <= k < n :: Leaves(run[k], actions[k], o)
    ensures Pursued(run[n], o)
  {
    hide Step, Inv, Pursued, Leaves, Enabled;
    if m < n {
      PursuedRun(run, actions, m, n - 1, o);
      RunKeeps(run, actions, n - 1);
      StaysPursued(run[n - 1], actions[n - 1], o);
    }
  }

  /**
   In every run: once there is a reason to process a configuration, be it new, changed or out of reach, the first
   time it is handled with every address fetched and nothing wrong it ends ready, whatever happened in between.
   */
  lemma PursuedEndsReady(run: seq<World>, actions: seq<Action>, m: nat, n: nat, o: Name)
    requires IsRun(run, actions) && m <= n < |actions| && Pursued(run[m], o)
    requires forall k | m <= k < n :: Leaves(run[k], actions[k], o)
    requires actions[n].Handle? && actions[n].name == o && Enabled(run[n], actions[n])
    requires AllWell(run[n], o, run[n].configs[o].repositories, actions[n].outcomes)
    ensures IsReadyIn(run[n + 1], o) && Holding(run[n + 1], o) <= run[n + 1].addons.Keys
    ensures forall p :: p in Holding(run[n + 1], o) <==>
              Offered(run[n].configs[o].repositories, actions[n].outcomes, p)
  {
    PursuedRun(run, actions, m, n, o);
    HandleIsReconcile(run[n], actions[n]);
    hide Step, Leaves, AllWell, Reconcile, Offered, ReadyPairs;
    EndsReady(run[n], o, actions[n].outcomes);
  }

  /** A fetching error is not final: the next time everything is well the configuration ends ready. */
  lemma FetchErrorIsRetried(run: seq<World>, actions: seq<Action>, m: nat, n: nat, o: Name)
    requires IsRun(run, actions) && m < n < |actions| && Pursued(run[m], o)
    requires actions[m].Handle? && actions[m].name == o && Enabled(run[m], actions[m])
    requires FetchFailed(run[m].configs[o].repositories, actions[m].outcomes)
    requires forall k | m < k < n :: Leaves(run[k], actions[k], o)
    requires actions[n].Handle? && actions[n].name == o && Enabled(run[n], actions[n])
    requires AllWell(run[n], o, run[n].configs[o].repositories, actions[n].outcomes)
    ensures o in run[m + 1].configs && ReportsFetchError(run[m + 1].configs[o].status)
    ensures IsReadyIn(run[n + 1], o) && Holding(run[n + 1], o) <= run[n + 1].addons.Keys
  {
    HandleIsReconcile(run[m], actions[m]);
    FetchErrorReported(run[m], o, actions[m].outcomes);
    hide Step, Leaves, AllWell, Reconcile;
    TellsOfFetchError(run[m + 1].configs[o].status, run[m].configs[o].repositories, actions[m].outcomes);
    hide TellsOfFailure, FetchFailed, ReportsFetchError;
    PursuedEndsReady(run, actions, m + 1, n, o);
  }

  lemma TellsOfFetchError(st: Status, urls: seq<string>, outcomes: seq<Outcome>)
    requires |outcomes| == |urls| && FetchFailed(urls, outcomes) && TellsOfFailure(st, urls, outcomes)
    ensures ReportsFetchError(st)
  {
  }

  /** A new configuration, or one that was changed, is pursued. */
  lemma NewsArePursued(run: seq<World>, actions: seq<Action>, n: nat, o: Name)
    requires IsRun(run, actions) && n < |actions| && actions[n].name == o && !actions[n].Handle?
    requires actions[n].Create? || (actions[n].Change? && o in run[n].configs && !run[n].configs[o].deleting)
    ensures Pursued(run[n + 1], o)
  {
    RunKeeps(run, actions, n);
    assert Enabled(run[n], actions[n]) && run[n + 1] == Step(run[n], actions[n]);
    assert o in run[n].configs ==> Sound(run[n].configs[o]);
    hide Reconcile, IsRun;
  }
}
