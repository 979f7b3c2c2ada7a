/** What the review of a collection decides, stated without the scan that decides it. */
module CollectionReview {
  import opened AddonsConfigurations
  import opened Collections

  ghost predicate Position(rs: seq<Repository>, i: int, j: int) {
    0 <= i < |rs| && 0 <= j < |rs[i].addons|
  }

  /** Position (a, b) comes before position (i, j). */
  ghost predicate Before(a: int, b: int, i: int, j: int) {
    a < i || (a == i && b < j)
  }

  /** Both entries are complete and claim one ID. */
  ghost predicate Clash(rs: seq<Repository>, a: int, b: int, i: int, j: int)
    requires Position(rs, a, b) && Position(rs, i, j)
  {
    IsComplete(rs[i].addons[j]) && rs[a].addons[b].id == rs[i].addons[j].id
  }

  ghost predicate AllLoaded(rs: seq<Repository>) {
    && (forall i | 0 <= i < |rs| :: rs[i].status == RepositoryReady)
    && (forall i, j | Position(rs, i, j) :: IsReady(rs[i].addons[j]))
  }

  ghost predicate IDsDistinct(rs: seq<Repository>) {
    forall a, b, i, j | Position(rs, a, b) && Position(rs, i, j) && Before(a, b, i, j) :: !Clash(rs, a, b, i, j)
  }

  ghost predicate NoneRegistered(rs: seq<Repository>, registered: set<Pair>) {
    forall i, j | Position(rs, i, j) :: rs[i].addons[j].pair !in registered
  }

  /** An earlier entry has claimed the ID. */
  ghost predicate Late(rs: seq<Repository>, i: int, j: int)
    requires Position(rs, i, j)
  {
    exists a, b | Position(rs, a, b) :: Before(a, b, i, j) && Clash(rs, a, b, i, j)
  }

  lemma LateIffSeen(rs: seq<Repository>, i: int, j: int)
    requires Position(rs, i, j)
    ensures Late(rs, i, j) <==> IsComplete(rs[i].addons[j]) && rs[i].addons[j].id in Seen(rs, i, j)
  {
    var e := rs[i].addons[j];
    if IsComplete(e) && e.id in Seen(rs, i, j) {
      var a, b :| 0 <= a < |rs| && 0 <= b < |rs[a].addons| && (a < i || (a == i && b < j))
                  && rs[a].addons[b].id == e.id;
      assert Position(rs, a, b) && Before(a, b, i, j) && Clash(rs, a, b, i, j);
    }
    if Late(rs, i, j) {
      var a, b :| Position(rs, a, b) && Before(a, b, i, j) && Clash(rs, a, b, i, j);
      assert IsComplete(rs[a].addons[b]);
    }
  }

  /** Exactly the offending entries fail, with the reason of the last review that objected; nothing else changes. */
  lemma ReviewedEntry(rs: seq<Repository>, registered: set<Pair>, i: int, j: int)
    requires Position(rs, i, j)
    ensures var after := Reviewed(rs, registered); Position(after, i, j)
    ensures var e, e' := rs[i].addons[j], Reviewed(rs, registered)[i].addons[j];
            if IsComplete(e) && e.pair in registered then e' == Fail(e, ConflictWithAlreadyRegisteredAddons)
            else if Late(rs, i, j) then e' == Fail(e, ConflictInSpecifiedRepositories)
            else e' == e
  {
    LateIffSeen(rs, i, j);
    assert Unique(rs)[i].addons[j] == UniqueEntry(rs, i, j);
    assert Free(Unique(rs), registered)[i].addons[j] == FreeEntry(UniqueEntry(rs, i, j), registered);
  }

  lemma ReviewedShape(rs: seq<Repository>, registered: set<Pair>)
    ensures var after := Reviewed(rs, registered);
            && |after| == |rs|
            && forall i | 0 <= i < |rs| ::
                 && |after[i].addons| == |rs[i].addons|
                 && after[i].url == rs[i].url && after[i].reason == rs[i].reason && after[i].message == rs[i].message
                 && (after[i].status == RepositoryFailed <==>
                     rs[i].status == RepositoryFailed || HasFailedAddons(after[i]))
  {
    var after, mid := Reviewed(rs, registered), Free(Unique(rs), registered);
    forall i | 0 <= i < |rs|
      ensures HasFailedAddons(after[i]) <==> HasFailedAddons(mid[i])
      ensures mid[i] == rs[i].(addons := mid[i].addons) && |mid[i].addons| == |rs[i].addons|
    {
      assert after[i] == SettledRepository(mid[i]);
    }
  }

  /** Of the entries that share an ID only the first one survives, unless its pair is taken elsewhere. */
  lemma FirstOfGroupSurvives(rs: seq<Repository>, registered: set<Pair>, a: int, b: int, i: int, j: int)
    requires Position(rs, a, b) && Position(rs, i, j) && Before(a, b, i, j) && Clash(rs, a, b, i, j)
    requires !Late(rs, a, b) && IsReady(rs[a].addons[b])
    ensures ReviewedPosition(rs, registered, a, b) && ReviewedPosition(rs, registered, i, j)
    ensures var after := Reviewed(rs, registered);
            && (IsReady(after[a].addons[b]) <==> rs[a].addons[b].pair !in registered)
            && !IsReady(after[i].addons[j])
  {
    ReviewedEntry(rs, registered, a, b);
    ReviewedEntry(rs, registered, i, j);
    assert Late(rs, i, j);
  }

  ghost predicate ReviewedPosition(rs: seq<Repository>, registered: set<Pair>, i: int, j: int) {
    Position(Reviewed(rs, registered), i, j)
  }

  /** When a configuration comes out ready. */
  lemma ReadyIff(rs: seq<Repository>, registered: set<Pair>)
    requires Identified(rs)
    ensures !SomeFailed(Reviewed(rs, registered)) <==>
            AllLoaded(rs) && IDsDistinct(rs) && NoneRegistered(rs, registered)
  {
    var after := Reviewed(rs, registered);
    ReviewedShape(rs, registered);
    forall i, j | Position(rs, i, j)
      ensures Position(after, i, j)
      ensures IsReady(after[i].addons[j]) <==>
              IsReady(rs[i].addons[j]) && !Late(rs, i, j) && rs[i].addons[j].pair !in registered
    {
      ReviewedEntry(rs, registered, i, j);
    }
    hide Reviewed, HasFailedAddons;
    assert IDsDistinct(rs) <==> forall i, j | Position(rs, i, j) :: !Late(rs, i, j) by {
      hide Clash;
    }
    FailedIff(rs, after);
  }

  /** A repository fails through its own fault or through an entry of its own. */
  lemma FailedIff(rs: seq<Repository>, after: seq<Repository>)
    requires |after| == |rs|
    requires forall i | 0 <= i < |rs| ::
               && |after[i].addons| == |rs[i].addons|
               && (after[i].status == RepositoryFailed <==>
                   rs[i].status == RepositoryFailed || HasFailedAddons(after[i]))
    ensures !SomeFailed(after) <==>
            && (forall i | 0 <= i < |rs| :: rs[i].status == RepositoryReady)
            && (forall i, j | Position(after, i, j) :: IsReady(after[i].addons[j]))
  {
    if !SomeFailed(after) {
      forall i, j | Position(after, i, j) ensures IsReady(after[i].addons[j]) {
        assert !HasFailedAddons(after[i]);
      }
    } else {
      var i :| 0 <= i < |after| && after[i].status == RepositoryFailed;
      if rs[i].status != RepositoryFailed {
        var j :| 0 <= j < |after[i].addons| && !IsReady(after[i].addons[j]);
        assert Position(after, i, j);
      }
    }
  }
}
