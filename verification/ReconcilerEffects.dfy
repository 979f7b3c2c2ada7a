/** What the pieces of a reconcile do, as facts about sets. */
module ReconcilerEffects {
  import opened AddonsConfigurations
  import opened Collections
  import opened CollectionReview
  import opened Reconciler

  // ----- lists and sets -----

  lemma {:induction false} ListingPairs(repos: seq<StatusRepository>)
    ensures Elements(Listing(repos)) == Pairs(repos)
  {
    if repos != [] {
      var n := |repos| - 1;
      var front, last := repos[..n], repos[n];
      ListingPairs(front);
      assert forall i | 0 <= i < n :: front[i] == repos[i];
      assert Elements(Listing(repos)) == Elements(Listing(front)) + Elements(PairsOf(last.addons));
      forall p | p in Pairs(repos) ensures p in Pairs(front) || p in PairsOf(last.addons) {
        var i, j :| 0 <= i < |repos| && 0 <= j < |repos[i].addons| && repos[i].addons[j].pair == p;
        if i == n {
          assert PairsOf(last.addons)[j] == p;
        }
      }
      forall p | p in Pairs(front) || p in PairsOf(last.addons) ensures p in Pairs(repos) {
        if p in Pairs(front) {
          var i, j :| 0 <= i < |front| && 0 <= j < |front[i].addons| && front[i].addons[j].pair == p;
          assert repos[i].addons[j].pair == p;
        } else {
          var j :| 0 <= j < |last.addons| && PairsOf(last.addons)[j] == p;
          assert repos[n].addons[j].pair == p;
        }
      }
    }
  }

  lemma {:induction false} OrphansAre(last: seq<Pair>, stay: set<string>)
    ensures forall p :: p in Orphans(last, stay) <==> p in last && Key(p) !in stay
  {
    if last != [] {
      var n := |last| - 1;
      OrphansAre(last[..n], stay);
      assert last == last[..n] + [last[n]];
    }
  }

  lemma StayingKeysAre(repos: seq<StatusRepository>)
    ensures forall p | p in Pairs(repos) :: Key(p) in StayingKeys(repos)
    ensures forall k | k in StayingKeys(repos) :: exists p :: p in Pairs(repos) && Key(p) == k
  {
    ListingPairs(repos);
    var ps := Listing(repos);
    forall p | p in Pairs(repos) ensures Key(p) in StayingKeys(repos) {
      assert p in Elements(ps);
      var n :| 0 <= n < |ps| && ps[n] == p;
      assert Keys(ps)[n] == Key(p);
    }
    forall k | k in StayingKeys(repos) ensures exists p :: p in Pairs(repos) && Key(p) == k {
      var n :| 0 <= n < |ps| && Keys(ps)[n] == k;
      assert ps[n] in Elements(ps);
    }
  }

  lemma {:induction false} OnlyReadyAre(es: seq<Entry>)
    ensures forall e :: e in OnlyReady(es) <==> e in es && IsReady(e)
  {
    if es != [] {
      var n := |es| - 1;
      OnlyReadyAre(es[..n]);
      assert es == es[..n] + [es[n]];
    }
  }

  lemma {:induction false} ReadyEntriesAre(rs: seq<Repository>)
    ensures forall e :: e in ReadyEntries(rs) <==> IsReady(e) && exists i | 0 <= i < |rs| :: e in rs[i].addons
  {
    if rs != [] {
      var n := |rs| - 1;
      ReadyEntriesAre(rs[..n]);
      OnlyReadyAre(rs[n].addons);
      assert forall i | 0 <= i < n :: rs[..n][i] == rs[i];
      forall e ensures e in ReadyEntries(rs) <==> IsReady(e) && exists i | 0 <= i < |rs| :: e in rs[i].addons {
        if IsReady(e) && exists i | 0 <= i < |rs| :: e in rs[i].addons {
          var i :| 0 <= i < |rs| && e in rs[i].addons;
          assert i == n || e in rs[..n][i].addons;
        }
      }
    }
  }

  /** Some entry of `es` has this pair and this record. */
  ghost predicate Provides(es: seq<Entry>, p: Pair, r: Record) {
    exists e | e in es :: e.pair == p && r == Record(e.id, e.chart)
  }

  lemma {:induction false} SavedAre(addons: map<Pair, Record>, es: seq<Entry>)
    ensures forall p | p in addons :: p in SavedAddons(addons, es)
    ensures forall e | e in es :: e.pair in SavedAddons(addons, es)
    ensures forall p | p in SavedAddons(addons, es) ::
              Provides(es, p, SavedAddons(addons, es)[p]) ||
              (p in addons && SavedAddons(addons, es)[p] == addons[p] && forall e | e in es :: e.pair != p)
  {
    if es != [] {
      var n := |es| - 1;
      var front, e := es[..n], es[n];
      SavedAre(addons, front);
      assert es == front + [e];
      forall p | p in SavedAddons(addons, es)
        ensures Provides(es, p, SavedAddons(addons, es)[p]) ||
                (p in addons && SavedAddons(addons, es)[p] == addons[p] && forall x | x in es :: x.pair != p)
      {
        if p == e.pair {
          assert e in es;
        } else if Provides(front, p, SavedAddons(addons, front)[p]) {
          var x :| x in front && x.pair == p && SavedAddons(addons, front)[p] == Record(x.id, x.chart);
          assert x in es;
        }
      }
    }
  }

  lemma {:induction false} HitsPositive(keys: seq<string>, st: Status)
    ensures Hits(keys, st) > 0 <==> exists k | k in keys :: InConflict(k, st)
  {
    if keys != [] {
      var n := |keys| - 1;
      HitsPositive(keys[..n], st);
      assert keys == keys[..n] + [keys[n]];
    }
  }

  /** The number of keys in conflict, counted with repetitions. */
  lemma {:induction false} HitsCount(keys: seq<string>, st: Status)
    ensures Hits(keys, st) == |set n | 0 <= n < |keys| && InConflict(keys[n], st)|
  {
    var hit := set n | 0 <= n < |keys| && InConflict(keys[n], st);
    if keys != [] {
      var m := |keys| - 1;
      HitsCount(keys[..m], st);
      hide InConflict;
      var before := set n | 0 <= n < |keys[..m]| && InConflict(keys[..m][n], st);
      assert before == hit - {m};
      assert InConflict(keys[m], st) ==> hit == before + {m};
      assert !InConflict(keys[m], st) ==> hit == before;
    }
  }

  lemma RemoveNone(w: World)
    ensures Remove(w, []) == w
  {
    assert w.addons - Elements([]) == w.addons;
  }

  lemma WakeNone(w: World, self: Name)
    ensures Wake(w, self, []) == w && Keys([]) == []
  {
    assert Wake(w, self, []).configs == w.configs;
  }

  // ----- statuses -----

  lemma SnapshotPairs(rs: seq<Repository>)
    ensures forall p | p in ReadyPairs(Snapshot(rs)) :: exists e | e in ReadyEntries(rs) :: e.pair == p
    ensures forall e | e in ReadyEntries(rs) :: e.pair in ReadyPairs(Snapshot(rs))
  {
    ReadyEntriesAre(rs);
    var snap := Snapshot(rs);
    forall p | p in ReadyPairs(snap) ensures exists e | e in ReadyEntries(rs) :: e.pair == p {
      var i, j :| 0 <= i < |snap| && 0 <= j < |snap[i].addons| && snap[i].addons[j].status == AddonReady
                  && snap[i].addons[j].pair == p;
      assert rs[i].addons[j] in rs[i].addons;
      assert rs[i].addons[j] in ReadyEntries(rs);
    }
    forall e | e in ReadyEntries(rs) ensures e.pair in ReadyPairs(snap) {
      var i :| 0 <= i < |rs| && e in rs[i].addons;
      var j :| 0 <= j < |rs[i].addons| && rs[i].addons[j] == e;
      assert snap[i].addons[j] == Report(e);
    }
  }

  /** A reviewed collection without failures: nothing listed is taken, and all that is listed is ready. */
  lemma ReadyVerdict(w: World, self: Name, loaded: seq<Repository>)
    requires Identified(loaded) && !SomeFailed(Verdict(w, self, loaded))
    ensures var snap := Snapshot(Verdict(w, self, loaded));
            && AllReady(snap)
            && ReadyPairs(snap) !! RegisteredElsewhere(w.configs, self)
  {
    var registered, rs := RegisteredElsewhere(w.configs, self), Verdict(w, self, loaded);
    ReadyIff(loaded, registered);
    ReviewedShape(loaded, registered);
    forall i, j | Position(rs, i, j)
      ensures rs[i].addons[j] == loaded[i].addons[j]
    {
      assert Position(loaded, i, j);
      ReviewedEntry(loaded, registered, i, j);
    }
    hide Reviewed, RegisteredElsewhere;
    var snap := Snapshot(rs);
    forall i, j | 0 <= i < |snap| && 0 <= j < |snap[i].addons|
      ensures snap[i].addons[j].status == AddonReady && snap[i].addons[j].pair !in registered
      ensures snap[i].status == RepositoryReady
    {
      assert Position(rs, i, j) && Position(loaded, i, j);
      assert snap[i].addons[j] == Report(rs[i].addons[j]);
    }
  }

  ghost predicate AllReady(repos: seq<StatusRepository>) {
    forall i, j | 0 <= i < |repos| && 0 <= j < |repos[i].addons| :: repos[i].addons[j].status == AddonReady
  }

  lemma AllReadyPairs(repos: seq<StatusRepository>)
    requires AllReady(repos)
    ensures Pairs(repos) == ReadyPairs(repos)
  {
  }

  /** An addon that another configuration blocks sits in a failed repository. */
  ghost predicate BlockedVisible(repos: seq<StatusRepository>) {
    forall i, j | 0 <= i < |repos| && 0 <= j < |repos[i].addons|
                  && repos[i].addons[j].reason == ConflictWithAlreadyRegisteredAddons ::
      repos[i].status == RepositoryFailed && repos[i].addons[j].status == AddonFailed
  }

  lemma SnapshotBlockedVisible(rs: seq<Repository>)
    requires forall i, j | Position(rs, i, j) && rs[i].addons[j].reason == ConflictWithAlreadyRegisteredAddons ::
               rs[i].status == RepositoryFailed && !IsReady(rs[i].addons[j])
    ensures BlockedVisible(Snapshot(rs))
  {
    var snap := Snapshot(rs);
    forall i, j | 0 <= i < |snap| && 0 <= j < |snap[i].addons|
                  && snap[i].addons[j].reason == ConflictWithAlreadyRegisteredAddons
      ensures snap[i].status == RepositoryFailed && snap[i].addons[j].status == AddonFailed
    {
      assert snap[i].addons[j] == Report(rs[i].addons[j]);
      assert Position(rs, i, j);
    }
  }

  lemma VerdictBlockedVisible(loaded: seq<Repository>, registered: set<Pair>)
    requires forall i, j | Position(loaded, i, j) :: loaded[i].addons[j].reason != ConflictWithAlreadyRegisteredAddons
    ensures BlockedVisible(Snapshot(Reviewed(loaded, registered)))
  {
    var rs := Reviewed(loaded, registered);
    ReviewedShape(loaded, registered);
    forall i, j | Position(rs, i, j) && rs[i].addons[j].reason == ConflictWithAlreadyRegisteredAddons
      ensures rs[i].status == RepositoryFailed && !IsReady(rs[i].addons[j])
    {
      assert Position(loaded, i, j);
      ReviewedEntry(loaded, registered, i, j);
      assert HasFailedAddons(rs[i]);
    }
    hide Reviewed;
    SnapshotBlockedVisible(rs);
  }

  lemma LoadedFacts(urls: seq<string>, outcomes: seq<Outcome>)
    requires |outcomes| == |urls| && WithIDs(outcomes)
    ensures var rs := Load(urls, outcomes);
            && Identified(rs)
            && forall i, j | Position(rs, i, j) :: rs[i].addons[j].reason != ConflictWithAlreadyRegisteredAddons
  {
    var rs := Load(urls, outcomes);
    forall i, j | Position(rs, i, j)
      ensures IsReady(rs[i].addons[j]) ==> IsComplete(rs[i].addons[j])
      ensures rs[i].addons[j].reason != ConflictWithAlreadyRegisteredAddons
    {
      assert rs[i] == LoadRepository(urls[i], outcomes[i]);
      assert rs[i].addons[j] == LoadEntry(outcomes[i].attempts[j]);
    }
  }
}
