/**
 What callers of the addon store may rely on over whole runs: the answers of one table, and beside it the
 set of entries that `Upsert` reports as replaced. That set is not the table's: an entry stays in it when its
 addon is removed, until a lookup in a namespace that still has addons finds it missing.
 */
module AddonLedger {
  import opened AddonStore
  import opened AddonTable

  datatype Ledger = Ledger(rows: Table, marked: set<Entry>)

  const EMPTY_STORE: Tables := Tables(map[], map[])
  const EMPTY_LEDGER: Ledger := Ledger(map[], {})

  /** The namespace has addons. */
  ghost predicate Occupied(rows: Table, ns: Namespace) {
    exists e :: e in rows && e.ns == ns
  }

  /** The call looks for this entry. */
  predicate LooksFor(c: Call, e: Entry) {
    c.Get? && Named(c.name, c.version) && e == Entry(c.ns, c.name, c.version.canonical)
  }

  predicate Inserts(c: Call) {
    c.Upsert? && Named(c.addon.name, c.addon.version)
  }

  predicate InsertsEntry(c: Call, e: Entry) {
    Inserts(c) && e == EntryOf(c.ns, c.addon)
  }

  /** The call finds the entry missing in a namespace that has other addons. */
  ghost predicate Heals(rows: Table, c: Call, e: Entry) {
    LooksFor(c, e) && e !in rows && Occupied(rows, e.ns)
  }

  ghost function Marked(l: Ledger, c: Call): set<Entry> {
    match c
    case Upsert(ns, a) => if Inserts(c) then l.marked + {EntryOf(ns, a)} else l.marked
    case Get(ns, name, v) =>
      var e := Entry(ns, name, v.canonical);
      if Heals(l.rows, c, e) then l.marked - {e} else l.marked
    case _ => l.marked
  }

  /** What the ledger answers and becomes. */
  ghost function LedgerCall(l: Ledger, c: Call): (Answer, Ledger) {
    var table := TableCall(l.rows, c, c.Upsert? && EntryOf(c.ns, c.addon) in l.marked);
    (table.0, Ledger(table.1, Marked(l, c)))
  }

  // ----- one call -----

  /** The two-map store stands for the ledger. */
  ghost predicate Stands(t: Tables, ids: Ids, l: Ledger) {
    && Consistent(t, ids) && Tidy(t)
    && l.rows == Rows(t, ids)
    && Marks(t, l.marked)
  }

  ghost predicate Marks(t: Tables, marked: set<Entry>) {
    forall e {:trigger Mapped(t, e)} | Plain(e) :: Mapped(t, e) <==> e in marked
  }

  lemma OccupiedIffShelf(t: Tables, ids: Ids, ns: Namespace)
    requires OneToOne(ids) && Consistent(t, ids) && Tidy(t)
    ensures Occupied(Rows(t, ids), ns) <==> ns in t.storage
  {
    if ns in t.storage {
      var id :| id in t.storage[ns].Keys;
      StoredIsRow(t, ids, ns, id);
    }
    hide Consistent, OneToOne;
  }

  lemma UpsertMarks(t: Tables, ns: Namespace, a: Addon, marked: set<Entry>)
    requires Marks(t, marked) && Plain(EntryOf(ns, a)) && Named(a.name, a.version)
    ensures Marks(Upserted(t, ns, a).1, marked + {EntryOf(ns, a)})
  {
    var t', e0 := Upserted(t, ns, a).1, EntryOf(ns, a);
    forall e | Plain(e) ensures Mapped(t', e) <==> e in marked + {e0} {
      assert Mapped(t, e) <==> e in marked;
      if Key(e) == Key(e0) {
        KeyInjective(e, e0);
      }
      hide Key, Plain;
    }
  }

  /** A lookup deletes a mapping exactly when it heals; deleting one that is not there changes nothing. */
  lemma GetHeals(t: Tables, ids: Ids, ns: Namespace, name: string, v: Version, l: Ledger)
    requires OneToOne(ids) && Stands(t, ids, l) && Plain(Entry(ns, name, v.canonical)) && Named(name, v)
    ensures var e := Entry(ns, name, v.canonical);
            Gotten(t, ns, name, v).1.keyToID ==
              if Heals(l.rows, Get(ns, name, v), e) then t.keyToID - {Key(e)} else t.keyToID
  {
    hide Consistent, OneToOne, Rows, Tidy, Occupied, Marks, Plain;
    IdentifiedIffRow(t, ids, ns, name, v);
    OccupiedIffShelf(t, ids, ns);
    var e := Entry(ns, name, v.canonical);
    if Key(e) !in t.keyToID {
      assert t.keyToID - {Key(e)} == t.keyToID;
    }
  }

  lemma DeletingUnmarks(t: Tables, t': Tables, e0: Entry, marked: set<Entry>)
    requires Marks(t, marked) && Plain(e0) && t'.keyToID == t.keyToID - {Key(e0)}
    ensures Marks(t', marked - {e0})
  {
    forall e | Plain(e) ensures Mapped(t', e) <==> e in marked - {e0} {
      assert Mapped(t, e) <==> e in marked;
      if Key(e) == Key(e0) {
        KeyInjective(e, e0);
      }
      hide Key, Plain;
    }
  }

  lemma GetMarks(t: Tables, ids: Ids, ns: Namespace, name: string, v: Version, l: Ledger)
    requires OneToOne(ids) && Stands(t, ids, l) && Plain(Entry(ns, name, v.canonical))
    ensures Marks(Gotten(t, ns, name, v).1, Marked(l, Get(ns, name, v)))
  {
    hide Consistent, OneToOne, Rows, Tidy, Occupied, Marks, Key, Plain;
    var t', e := Gotten(t, ns, name, v).1, Entry(ns, name, v.canonical);
    assert !Named(name, v) ==> t' == t;
    hide Gotten;
    if Named(name, v) {
      GetHeals(t, ids, ns, name, v, l);
    }
    if Heals(l.rows, Get(ns, name, v), e) {
      DeletingUnmarks(t, t', e, l.marked);
    } else {
      SameMarks(t, t', l.marked);
    }
  }

  lemma CallKeepsTidy(t: Tables, c: Call)
    requires Tidy(t)
    ensures Tidy(StoreCall(t, c).1)
  {
    hide Tidy;
    match c
    case Upsert(ns, a) => UpsertKeepsTidy(t, ns, a);
    case Get(ns, name, v) => TidyIgnoresKeys(t, StoreCall(t, c).1);
    case Remove(ns, name, v) =>
      var id := Identified(t, ns, name, v);
      if id.Ok? {
        RemoveKeepsTidy(t, ns, id.value);
      }
    case RemoveByID(ns, id) => RemoveKeepsTidy(t, ns, id);
    case RemoveAll(ns) => EmptyingKeepsTidy(t, ns);
    case _ =>
  }

  /** Only `Upsert` and `Get` change mappings. */
  lemma CallMarks(t: Tables, ids: Ids, c: Call, l: Ledger)
    requires OneToOne(ids) && Stands(t, ids, l) && Follows(c, ids)
    ensures Marks(StoreCall(t, c).1, Marked(l, c))
  {
    hide Consistent, OneToOne, Rows, Tidy, Marks, Key, Plain, EntryOf, Gotten, Removed, RemovedByID;
    match c
    case Upsert(ns, a) =>
      if Named(a.name, a.version) {
        InsertsPlain(c, ids);
        UpsertMarks(t, ns, a, l.marked);
      }
    case Get(ns, name, v) => GetMarks(t, ids, ns, name, v, l);
    case _ =>
      OthersKeepMappings(t, c);
      SameMarks(t, StoreCall(t, c).1, l.marked);
  }

  lemma InsertsPlain(c: Call, ids: Ids)
    requires OneToOne(ids) && Follows(c, ids) && Inserts(c)
    ensures Plain(EntryOf(c.ns, c.addon))
  {
    hide Plain;
  }

  lemma OthersKeepMappings(t: Tables, c: Call)
    requires !c.Upsert? && !c.Get?
    ensures StoreCall(t, c).1.keyToID == t.keyToID
  {
  }

  lemma SameMarks(t: Tables, t': Tables, marked: set<Entry>)
    requires Marks(t, marked) && t'.keyToID == t.keyToID
    ensures Marks(t', marked)
  {
    hide Key, Plain;
    forall e | Plain(e) ensures Mapped(t', e) <==> e in marked {
      assert Mapped(t, e) <==> e in marked;
    }
  }

  /** One call: the ledger's answer, flag included, and the store stands for the next ledger. */
  lemma CallsAgree(t: Tables, ids: Ids, l: Ledger, c: Call)
    requires OneToOne(ids) && Stands(t, ids, l) && Follows(c, ids)
    ensures StoreCall(t, c).0 == LedgerCall(l, c).0
    ensures Stands(StoreCall(t, c).1, ids, LedgerCall(l, c).1)
  {
    RowsAgree(t, ids, c);
    CallKeepsTidy(t, c);
    CallMarks(t, ids, c, l);
    FlagFor(t, ids, l, c);
    hide StoreCall, TableCall, Consistent, OneToOne, Rows, Tidy, Marks, Key, Marked;
  }

  lemma FlagFor(t: Tables, ids: Ids, l: Ledger, c: Call)
    requires OneToOne(ids) && Stands(t, ids, l) && Follows(c, ids)
    ensures TableCall(l.rows, c, MappedFor(t, c)) ==
            TableCall(l.rows, c, c.Upsert? && EntryOf(c.ns, c.addon) in l.marked)
  {
    if Inserts(c) {
      assert Mapped(t, EntryOf(c.ns, c.addon)) <==> EntryOf(c.ns, c.addon) in l.marked;
    }
  }

  // ----- every run -----

  function StoreAnswers(t: Tables, calls: seq<Call>): seq<Answer>
    decreases |calls|
  {
    if calls == [] then []
    else var r := StoreCall(t, calls[0]); [r.0] + StoreAnswers(r.1, calls[1..])
  }

  ghost function LedgerAnswers(l: Ledger, calls: seq<Call>): seq<Answer>
    decreases |calls|
  {
    if calls == [] then []
    else var r := LedgerCall(l, calls[0]); [r.0] + LedgerAnswers(r.1, calls[1..])
  }

  function StoreAfter(calls: seq<Call>): Tables {
    if calls == [] then EMPTY_STORE else StoreCall(StoreAfter(calls[..|calls| - 1]), calls[|calls| - 1]).1
  }

  ghost function LedgerAfter(calls: seq<Call>): Ledger {
    if calls == [] then EMPTY_LEDGER else LedgerCall(LedgerAfter(calls[..|calls| - 1]), calls[|calls| - 1]).1
  }

  lemma {:induction false} RunsAgree(t: Tables, ids: Ids, l: Ledger, calls: seq<Call>)
    requires OneToOne(ids) && Stands(t, ids, l)
    requires forall c | c in calls :: Follows(c, ids)
    ensures StoreAnswers(t, calls) == LedgerAnswers(l, calls)
    decreases |calls|
  {
    hide StoreCall, LedgerCall, Stands, OneToOne, Follows;
    if calls != [] {
      CallsAgree(t, ids, l, calls[0]);
      RunsAgree(StoreCall(t, calls[0]).1, ids, LedgerCall(l, calls[0]).1, calls[1..]);
    }
  }

  lemma {:induction false} RunStands(ids: Ids, calls: seq<Call>)
    requires OneToOne(ids)
    requires forall c | c in calls :: Follows(c, ids)
    ensures Stands(StoreAfter(calls), ids, LedgerAfter(calls))
  {
    hide StoreCall, LedgerCall, Follows;
    if calls == [] {
      EmptyStands(ids);
    } else {
      var n := |calls| - 1;
      hide Stands, OneToOne;
      RunStands(ids, calls[..n]);
      CallsAgree(StoreAfter(calls[..n]), ids, LedgerAfter(calls[..n]), calls[n]);
    }
  }

  lemma EmptyStands(ids: Ids)
    ensures Stands(EMPTY_STORE, ids, EMPTY_LEDGER)
  {
    hide Key, Plain;
    assert Rows(EMPTY_STORE, ids) == map[];
    assert Marks(EMPTY_STORE, {});
  }

  /** No bar in any namespace or version of the call. */
  predicate PlainCall(c: Call) {
    match c
    case Upsert(ns, a) => Plain(EntryOf(ns, a))
    case Get(ns, name, v) => Plain(Entry(ns, name, v.canonical))
    case Remove(ns, name, v) => Plain(Entry(ns, name, v.canonical))
    case _ => true
  }

  /** Within a namespace two inserted addons share their ID exactly when they share name and version. */
  ghost predicate Corresponding(calls: seq<Call>) {
    forall c, d | c in calls && d in calls && Inserts(c) && Inserts(d) && c.ns == d.ns ::
      c.addon.id == d.addon.id <==> EntryOf(c.ns, c.addon) == EntryOf(d.ns, d.addon)
  }

  function IdsOf(calls: seq<Call>): Ids {
    if calls == [] then map[]
    else
      var c := calls[0];
      if Inserts(c) then IdsOf(calls[1..])[EntryOf(c.ns, c.addon) := c.addon.id] else IdsOf(calls[1..])
  }

  /** Each entry of `IdsOf` comes from an insertion, and each insertion is in it. */
  lemma {:induction false} IdsOfCalls(calls: seq<Call>)
    ensures forall e | e in IdsOf(calls) ::
              exists c | c in calls :: Inserts(c) && EntryOf(c.ns, c.addon) == e && c.addon.id == IdsOf(calls)[e]
    ensures forall c | c in calls && Inserts(c) :: EntryOf(c.ns, c.addon) in IdsOf(calls)
  {
    if calls != [] {
      IdsOfCalls(calls[1..]);
      forall c | c in calls && Inserts(c) ensures EntryOf(c.ns, c.addon) in IdsOf(calls) {
        assert c == calls[0] || c in calls[1..];
      }
      forall e | e in IdsOf(calls)
        ensures exists c | c in calls :: Inserts(c) && EntryOf(c.ns, c.addon) == e && c.addon.id == IdsOf(calls)[e]
      {
        if Inserts(calls[0]) && e == EntryOf(calls[0].ns, calls[0].addon) {
          assert calls[0] in calls;
        } else {
          assert e in IdsOf(calls[1..]) && IdsOf(calls)[e] == IdsOf(calls[1..])[e];
          var c :| c in calls[1..] && Inserts(c) && EntryOf(c.ns, c.addon) == e && c.addon.id == IdsOf(calls)[e];
          assert c in calls;
        }
      }
    }
  }

  /** The correspondence read off a run is one to one, and every call follows it. */
  lemma IdsFollow(calls: seq<Call>)
    requires forall c | c in calls :: PlainCall(c)
    requires Corresponding(calls)
    ensures OneToOne(IdsOf(calls))
    ensures forall c | c in calls :: Follows(c, IdsOf(calls))
  {
    var ids := IdsOf(calls);
    hide IdsOf;
    IdsOfCalls(calls);
    forall c | c in calls ensures Follows(c, ids) {
      if Inserts(c) {
        var d :| d in calls && Inserts(d) && EntryOf(d.ns, d.addon) == EntryOf(c.ns, c.addon)
                 && d.addon.id == ids[EntryOf(c.ns, c.addon)];
      }
    }
  }

  ghost predicate Proper(calls: seq<Call>) {
    Corresponding(calls) && forall c | c in calls :: PlainCall(c)
  }

  /** Every run on a new store is answered as the one table would answer it, and flagged as the ledger says. */
  lemma StoreIsOneTable(calls: seq<Call>)
    requires Proper(calls)
    ensures StoreAnswers(EMPTY_STORE, calls) == LedgerAnswers(EMPTY_LEDGER, calls)
  {
    IdsFollow(calls);
    EmptyStands(IdsOf(calls));
    hide Stands, OneToOne, Corresponding, PlainCall, Follows, IdsOf;
    RunsAgree(EMPTY_STORE, IdsOf(calls), EMPTY_LEDGER, calls);
  }

  // ----- no other way -----

  /** Within a namespace two of the insertions share their ID exactly when they share name and version. */
  ghost predicate OneToOneInserts(inserts: set<Call>) {
    forall c, d | c in inserts && d in inserts && Inserts(c) && Inserts(d) && c.ns == d.ns ::
      c.addon.id == d.addon.id <==> EntryOf(c.ns, c.addon) == EntryOf(d.ns, d.addon)
  }

  /** Calls without bars that insert only what is given. */
  ghost predicate Drawn(calls: seq<Call>, inserts: set<Call>) {
    forall c | c in calls :: PlainCall(c) && (Inserts(c) ==> c in inserts)
  }

  /** No run with these insertions gives the two maps away. */
  ghost predicate LooksLikeOneTable(inserts: set<Call>) {
    forall calls | Drawn(calls, inserts) :: StoreAnswers(EMPTY_STORE, calls) == LedgerAnswers(EMPTY_LEDGER, calls)
  }

  /** The store looks like one table for exactly those insertions that correspond one to one. */
  lemma OneTableIff(inserts: set<Call>)
    requires forall c | c in inserts :: Inserts(c) && PlainCall(c)
    ensures LooksLikeOneTable(inserts) <==> OneToOneInserts(inserts)
  {
    hide StoreAnswers, LedgerAnswers, EntryOf;
    if OneToOneInserts(inserts) {
      forall calls | Drawn(calls, inserts)
        ensures StoreAnswers(EMPTY_STORE, calls) == LedgerAnswers(EMPTY_LEDGER, calls)
      {
        assert Proper(calls);
        StoreIsOneTable(calls);
      }
    } else {
      var c, d :| c in inserts && d in inserts && c.ns == d.ns &&
                  !(c.addon.id == d.addon.id <==> EntryOf(c.ns, c.addon) == EntryOf(d.ns, d.addon));
      var e := GivesAway(c, d);
      assert Drawn([c, d, e], inserts);
    }
  }

  /** One more call tells: a listing when two entries share an ID, a lookup when one entry has two. */
  lemma GivesAway(c: Call, d: Call) returns (e: Call)
    requires Inserts(c) && Inserts(d) && PlainCall(c) && PlainCall(d) && c.ns == d.ns
    requires !(c.addon.id == d.addon.id <==> EntryOf(c.ns, c.addon) == EntryOf(d.ns, d.addon))
    ensures PlainCall(e) && !Inserts(e)
    ensures StoreAnswers(EMPTY_STORE, [c, d, e]) != LedgerAnswers(EMPTY_LEDGER, [c, d, e])
  {
    if c.addon.id == d.addon.id {
      e := FindAll(c.ns);
      SharedIDLosesOne(c, d);
    } else {
      e := Get(c.ns, c.addon.name, c.addon.version);
      SharedEntryKeepsFirst(c, d);
    }
    hide StoreCall, LedgerCall, Key, EntryOf;
    ThirdAnswer(c, d, e);
  }

  function StoreThird(c: Call, d: Call, e: Call): Answer {
    StoreCall(StoreCall(StoreCall(EMPTY_STORE, c).1, d).1, e).0
  }

  ghost function LedgerThird(c: Call, d: Call, e: Call): Answer {
    LedgerCall(LedgerCall(LedgerCall(EMPTY_LEDGER, c).1, d).1, e).0
  }

  lemma ThirdAnswer(c: Call, d: Call, e: Call)
    requires StoreThird(c, d, e) != LedgerThird(c, d, e)
    ensures StoreAnswers(EMPTY_STORE, [c, d, e]) != LedgerAnswers(EMPTY_LEDGER, [c, d, e])
  {
    hide StoreCall, LedgerCall;
    var t1, l1 := StoreCall(EMPTY_STORE, c).1, LedgerCall(EMPTY_LEDGER, c).1;
    var t2, l2 := StoreCall(t1, d).1, LedgerCall(l1, d).1;
    assert [c, d, e][1..] == [d, e] && [d, e][1..] == [e] && [e][1..] == [];
    assert StoreAnswers(t2, [e]) == [StoreCall(t2, e).0] && LedgerAnswers(l2, [e]) == [LedgerCall(l2, e).0];
    assert StoreAnswers(t1, [d, e])[1] == StoreCall(t2, e).0 && LedgerAnswers(l1, [d, e])[1] == LedgerCall(l2, e).0;
    assert StoreAnswers(EMPTY_STORE, [c, d, e])[2] == StoreCall(t2, e).0;
    assert LedgerAnswers(EMPTY_LEDGER, [c, d, e])[2] == LedgerCall(l2, e).0;
  }

  lemma SharedIDLosesOne(c: Call, d: Call)
    requires Inserts(c) && Inserts(d) && c.ns == d.ns && c.addon.id == d.addon.id
    requires EntryOf(c.ns, c.addon) != EntryOf(d.ns, d.addon)
    ensures StoreThird(c, d, FindAll(c.ns)) != LedgerThird(c, d, FindAll(c.ns))
  {
    hide Key;
    var t := StoreCall(StoreCall(EMPTY_STORE, c).1, d).1;
    var l := LedgerCall(LedgerCall(EMPTY_LEDGER, c).1, d).1;
    assert ShelfOf(t, c.ns) == map[d.addon.id := d.addon];
    assert c.addon !in ShelfOf(t, c.ns).Values;
    assert l.rows[EntryOf(c.ns, c.addon)] == c.addon;
    assert c.addon in set e | e in l.rows && e.ns == c.ns :: l.rows[e];
  }

  lemma SharedEntryKeepsFirst(c: Call, d: Call)
    requires Inserts(c) && Inserts(d) && c.ns == d.ns && c.addon.id != d.addon.id
    requires EntryOf(c.ns, c.addon) == EntryOf(d.ns, d.addon)
    ensures var e := Get(c.ns, c.addon.name, c.addon.version); StoreThird(c, d, e) != LedgerThird(c, d, e)
  {
    hide Key;
    var t := StoreCall(StoreCall(EMPTY_STORE, c).1, d).1;
    var l := LedgerCall(LedgerCall(EMPTY_LEDGER, c).1, d).1;
    assert t.keyToID[Key(EntryOf(c.ns, c.addon))] == c.addon.id;
    assert Stored(t, c.ns, c.addon.id) && t.storage[c.ns][c.addon.id] == c.addon;
    assert l.rows[EntryOf(c.ns, c.addon)] == d.addon;
  }

  // ----- when the flag is right -----

  /** The call at `m` takes the row of the entry away. */
  ghost predicate DropsAt(calls: seq<Call>, m: nat, e: Entry)
    requires m < |calls|
  {
    e in LedgerAfter(calls[..m]).rows && e !in LedgerAfter(calls[..m + 1]).rows
  }

  /** The call at `k` inserts the entry anew, or heals its mapping. */
  ghost predicate RenewsAt(calls: seq<Call>, k: nat, e: Entry)
    requires k < |calls|
  {
    InsertsEntry(calls[k], e) || Heals(LedgerAfter(calls[..k]).rows, calls[k], e)
  }

  /** Within the first `n` calls the entry was removed, and neither inserted nor healed since. */
  ghost predicate StaleAt(calls: seq<Call>, n: nat, e: Entry)
    requires n <= |calls|
  {
    exists m | 0 <= m < n :: DropsAt(calls, m, e) && forall k | m < k < n :: !RenewsAt(calls, k, e)
  }

  ghost predicate Stale(calls: seq<Call>, e: Entry) {
    StaleAt(calls, |calls|, e)
  }

  /** What one call does to one entry of the ledger. */
  lemma EntryMoves(l: Ledger, c: Call, e: Entry)
    ensures var l' := LedgerCall(l, c).1;
            if InsertsEntry(c, e) then e in l'.rows && e in l'.marked
            else if Heals(l.rows, c, e) then e !in l'.rows && e !in l'.marked
            else (e in l'.marked <==> e in l.marked) && (e in l'.rows ==> e in l.rows)
  {
    hide Occupied;
  }

  lemma {:induction false} StaleIff(calls: seq<Call>, n: nat, e: Entry)
    requires n <= |calls|
    ensures var l := LedgerAfter(calls[..n]);
            && (e in l.rows ==> e in l.marked)
            && (StaleAt(calls, n, e) <==> e in l.marked && e !in l.rows)
  {
    if n > 0 {
      StaleIff(calls, n - 1, e);
      assert calls[..n][..n - 1] == calls[..n - 1];
      EntryMoves(LedgerAfter(calls[..n - 1]), calls[n - 1], e);
      StaleNext(calls, n - 1, e);
      hide InsertsEntry, Heals, LedgerCall, StaleAt;
    }
  }

  lemma StaleNext(calls: seq<Call>, n: nat, e: Entry)
    requires n < |calls|
    ensures StaleAt(calls, n + 1, e) <==> DropsAt(calls, n, e) || (StaleAt(calls, n, e) && !RenewsAt(calls, n, e))
  {
    hide DropsAt, RenewsAt;
    if StaleAt(calls, n + 1, e) && !DropsAt(calls, n, e) {
      var m :| 0 <= m <= n && DropsAt(calls, m, e) && forall k | m < k <= n :: !RenewsAt(calls, k, e);
      assert m < n;
    }
    if StaleAt(calls, n, e) && !RenewsAt(calls, n, e) {
      var m :| 0 <= m < n && DropsAt(calls, m, e) && forall k | m < k < n :: !RenewsAt(calls, k, e);
      assert forall k | m < k <= n :: !RenewsAt(calls, k, e);
    }
  }

  /**
   After every run on a new store the flag of the next `Upsert` is what the ledger has marked; it tells whether
   the table has the row if and only if the entry was not removed, or was inserted or healed since.
   */
  lemma ReplacedIff(calls: seq<Call>, ns: Namespace, a: Addon)
    requires Proper(calls + [Upsert(ns, a)]) && Named(a.name, a.version)
    ensures var e, flag := EntryOf(ns, a), Upserted(StoreAfter(calls), ns, a).0;
            && flag == Ok(e in LedgerAfter(calls).marked)
            && (flag == Ok(e in LedgerAfter(calls).rows) <==> !Stale(calls, e))
  {
    var all := calls + [Upsert(ns, a)];
    assert forall c | c in calls :: c in all;
    assert Upsert(ns, a) in all;
    IdsFollow(all);
    RunStands(IdsOf(all), calls);
    StaleIff(calls, |calls|, EntryOf(ns, a));
    assert calls[..|calls|] == calls;
    hide Stale, IdsOf, StoreAfter, LedgerAfter, OneToOne, Consistent;
    assert Mapped(StoreAfter(calls), EntryOf(ns, a)) <==> EntryOf(ns, a) in LedgerAfter(calls).marked;
  }

  /** The flag does go wrong: the mapping outlives the addon, so an insertion passes for a replacement. */
  lemma ReplacedAfterRemoval(ns: Namespace, a: Addon)
    requires Named(a.name, a.version)
    ensures var t := Upserted(Tables(map[], map[]), ns, a).1;
            var gone := Removed(t, ns, a.name, a.version).1;
            && gone.storage == map[]
            && Upserted(gone, ns, a).0 == Ok(true)
  {
    var t := Upserted(Tables(map[], map[]), ns, a).1;
    assert t.storage[ns] == map[a.id := a];
    assert (t.storage[ns] - {a.id}).Keys == {};
  }
}
