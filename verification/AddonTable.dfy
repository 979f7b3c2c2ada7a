/**
 The addon store as one table from (namespace, name, version) to addon, call by call: stale mappings and
 their healing do not show, as long as names and versions correspond to IDs one to one within a namespace.
 */
module AddonTable {
  import opened Values
  import opened AddonStore

  // ----- the joined key -----

  /** Entries whose joined key can be taken apart again; the name may contain anything. */
  predicate Plain(e: Entry) {
    '|' !in e.ns && '|' !in e.version
  }

  lemma KeyInjective(e: Entry, f: Entry)
    requires Plain(e) && Plain(f)
    requires Key(e) == Key(f)
    ensures e == f
  {
    SamePrefix(e.ns, e.name + "|" + e.version, f.ns, f.name + "|" + f.version, Key(e));
    SameSuffix(e.name, e.version, f.name, f.version);
  }

  lemma SamePrefix(a: string, r: string, b: string, q: string, whole: string)
    requires '|' !in a && '|' !in b
    requires whole == a + "|" + r == b + "|" + q
    ensures a == b && r == q
  {
    assert whole[|a|] == '|' && whole[|b|] == '|';
    assert forall n | 0 <= n < |a| :: whole[n] == a[n];
    assert forall n | 0 <= n < |b| :: whole[n] == b[n];
    assert |a| == |b|;
    assert a == whole[..|a|] == b;
    assert r == whole[|a| + 1..] == q;
  }

  lemma SameSuffix(a: string, r: string, b: string, q: string)
    requires '|' !in r && '|' !in q
    requires a + "|" + r == b + "|" + q
    ensures a == b && r == q
  {
    var whole := a + "|" + r;
    assert whole[|a|] == '|' && whole[|b|] == '|';
    assert forall n | |a| < n < |whole| :: whole[n] == r[n - |a| - 1];
    assert forall n | |b| < n < |whole| :: whole[n] == q[n - |b| - 1];
    assert |a| == |b|;
    assert a == whole[..|a|] == b;
    assert r == whole[|a| + 1..] == q;
  }

  predicate EndsWith(s: string, end: string) {
    |end| <= |s| && s[|s| - |end|..] == end
  }

  /** One namespace, closed by its bar, starts with the other. */
  predicate NamespacesCompare(m: Namespace, n: Namespace) {
    m + "|" <= n + "|" || n + "|" <= m + "|"
  }

  /** One version, opened by its bar, ends with the other. */
  predicate VersionsCompare(v: string, w: string) {
    EndsWith("|" + v, "|" + w) || EndsWith("|" + w, "|" + v)
  }

  /** Two namespaces and versions can share a key, for some names, exactly when both compare. */
  lemma KeysClashIff(m: Namespace, v: string, n: Namespace, w: string)
    ensures (exists x, y :: x != "" && y != "" && Key(Entry(m, x, v)) == Key(Entry(n, y, w))) <==>
            NamespacesCompare(m, n) && VersionsCompare(v, w)
  {
    if x, y :| x != "" && y != "" && Key(Entry(m, x, v)) == Key(Entry(n, y, w)) {
      KeyEnds(Entry(m, x, v), Key(Entry(m, x, v)));
      KeyEnds(Entry(n, y, w), Key(Entry(m, x, v)));
      hide Key;
    }
    if NamespacesCompare(m, n) && VersionsCompare(v, w) {
      var start := if m + "|" <= n + "|" then n + "|" else m + "|";
      var end := if EndsWith("|" + v, "|" + w) then "|" + v else "|" + w;
      hide Key;
      var x := NameBetween(start, end, m, v);
      var y := NameBetween(start, end, n, w);
    }
  }

  lemma KeyEnds(e: Entry, k: string)
    requires k == Key(e)
    ensures |e.ns| < |k| && k[..|e.ns| + 1] == e.ns + "|"
    ensures |e.version| < |k| && k[|k| - |e.version| - 1..] == "|" + e.version
  {
  }

  /** The name that fills the gap. */
  lemma NameBetween(start: string, end: string, m: Namespace, v: string) returns (x: string)
    requires m + "|" <= start && EndsWith(end, "|" + v)
    ensures x != "" && Key(Entry(m, x, v)) == start + "a" + end
  {
    var p, q := start[|m| + 1..], end[..|end| - |v| - 1];
    assert start == m + "|" + p && end == q + "|" + v;
    x := p + "a" + q;
  }

  /** For example with a bar in the namespace, or in the version. */
  lemma BarBreaksKeys()
    ensures Key(Entry("a|b", "c", "1")) == Key(Entry("a", "b|c", "1"))
    ensures Key(Entry("a", "b|c", "1")) == Key(Entry("a", "b", "c|1"))
  {
  }

  // ----- one table -----

  type Table = map<Entry, Addon>

  datatype Call =
    | Upsert(ns: Namespace, addon: Addon)
    | Get(ns: Namespace, name: string, version: Version)
    | GetByID(ns: Namespace, id: AddonID)
    | FindAll(ns: Namespace)
    | Remove(ns: Namespace, name: string, version: Version)
    | RemoveByID(ns: Namespace, id: AddonID)
    | RemoveAll(ns: Namespace)

  /** The answer to `Upsert` tells whether the addon was replaced. */
  datatype Answer =
    | Put(replaced: Result<bool>)
    | Done(done: Result<()>)
    | One(one: Result<Addon>)
    | All(all: set<Addon>)

  /** The row with this ID, if any. */
  ghost predicate IsRow(rows: Table, ns: Namespace, id: AddonID, e: Entry) {
    e in rows && e.ns == ns && rows[e].id == id
  }

  ghost function ByID(rows: Table, ns: Namespace, id: AddonID): Option<Entry> {
    if exists e :: IsRow(rows, ns, id, e) then
      var e :| IsRow(rows, ns, id, e); Some(e)
    else None
  }

  ghost function FindByID(rows: Table, ns: Namespace, id: AddonID): Result<Addon> {
    match ByID(rows, ns, id)
    case Some(e) => if e in rows then Ok(rows[e]) else Err(NotFound)
    case None => Err(NotFound)
  }

  /** What the table answers and becomes; `replaced` is what it says of an `Upsert`. */
  ghost function TableCall(rows: Table, c: Call, replaced: bool): (Answer, Table) {
    match c
    case Upsert(ns, a) =>
      if !Named(a.name, a.version) then (Put(Err(NameOrVersionNotSet)), rows)
      else (Put(Ok(replaced)), rows[EntryOf(ns, a) := a])
    case Get(ns, name, v) =>
      var e := Entry(ns, name, v.canonical);
      if !Named(name, v) then (One(Err(NameOrVersionNotSet)), rows)
      else (One(if e in rows then Ok(rows[e]) else Err(NotFound)), rows)
    case GetByID(ns, id) => (One(FindByID(rows, ns, id)), rows)
    case FindAll(ns) => (All(set e | e in rows && e.ns == ns :: rows[e]), rows)
    case Remove(ns, name, v) =>
      var e := Entry(ns, name, v.canonical);
      if !Named(name, v) then (Done(Err(NameOrVersionNotSet)), rows)
      else if e in rows then (Done(Ok(())), rows - {e})
      else (Done(Err(NotFound)), rows)
    case RemoveByID(ns, id) =>
      (match ByID(rows, ns, id) case Some(e) => (Done(Ok(())), rows - {e}) case None => (Done(Err(NotFound)), rows))
    case RemoveAll(ns) => (Done(Ok(())), map e | e in rows && e.ns != ns :: rows[e])
  }

  /** What the two-map store answers and becomes. */
  function StoreCall(t: Tables, c: Call): (Answer, Tables) {
    match c
    case Upsert(ns, a) => var r := Upserted(t, ns, a); (Put(r.0), r.1)
    case Get(ns, name, v) => var r := Gotten(t, ns, name, v); (One(r.0), r.1)
    case GetByID(ns, id) => (One(GottenByID(t, ns, id)), t)
    case FindAll(ns) => (All(ShelfOf(t, ns).Values), t)
    case Remove(ns, name, v) => var r := Removed(t, ns, name, v); (Done(r.0), r.1)
    case RemoveByID(ns, id) => var r := RemovedByID(t, ns, id); (Done(r.0), r.1)
    case RemoveAll(ns) => (Done(Ok(())), Emptied(t, ns))
  }

  // ----- the correspondence of names and IDs -----

  type Ids = map<Entry, AddonID>

  ghost predicate OneToOne(ids: Ids) {
    && (forall e | e in ids :: Plain(e))
    && (forall e, f | e in ids && f in ids && e.ns == f.ns && ids[e] == ids[f] :: e == f)
  }

  /** The call is about namespaces and versions without bars, and inserts only what `ids` foresees. */
  ghost predicate Follows(c: Call, ids: Ids) {
    match c
    case Upsert(ns, a) => Named(a.name, a.version) ==> EntryOf(ns, a) in ids && ids[EntryOf(ns, a)] == a.id
    case Get(ns, name, v) => Plain(Entry(ns, name, v.canonical))
    case Remove(ns, name, v) => Plain(Entry(ns, name, v.canonical))
    case _ => true
  }

  /** Every mapping, stale or not, leads to the right ID; every stored addon has its mapping. */
  ghost predicate Consistent(t: Tables, ids: Ids) {
    && (forall e {:trigger Key(e)} | Plain(e) && Key(e) in t.keyToID :: e in ids && t.keyToID[Key(e)] == ids[e])
    && (forall ns, id {:trigger Stored(t, ns, id)} | Stored(t, ns, id) ::
          var a := t.storage[ns][id];
          && a.id == id && Named(a.name, a.version)
          && EntryOf(ns, a) in ids && ids[EntryOf(ns, a)] == id
          && Key(EntryOf(ns, a)) in t.keyToID)
  }

  /** The table a two-map store stands for. */
  function Rows(t: Tables, ids: Ids): Table {
    map e | e in ids && Stored(t, e.ns, ids[e]) :: t.storage[e.ns][ids[e]]
  }

  function Row(t: Tables, ids: Ids, e: Entry): Option<Addon> {
    if e in ids && Stored(t, e.ns, ids[e]) then Some(t.storage[e.ns][ids[e]]) else None
  }

  /** The table is determined row by row. */
  lemma RowsByRow(t: Tables, ids: Ids, rows: Table)
    requires rows.Keys <= ids.Keys
    requires forall e | e in ids :: Row(t, ids, e) == if e in rows then Some(rows[e]) else None
    ensures Rows(t, ids) == rows
  {
    hide Stored;
  }

  lemma RowsHaveRow(t: Tables, ids: Ids)
    ensures Rows(t, ids).Keys <= ids.Keys
    ensures forall e | e in ids :: Row(t, ids, e) == if e in Rows(t, ids) then Some(Rows(t, ids)[e]) else None
  {
    hide Stored;
  }

  lemma RowFacts(t: Tables, ids: Ids, e: Entry)
    requires OneToOne(ids) && Consistent(t, ids) && e in Rows(t, ids)
    ensures Key(e) in t.keyToID && EntryOf(e.ns, Rows(t, ids)[e]) == e && Rows(t, ids)[e].id == ids[e]
    ensures Named(Rows(t, ids)[e].name, Rows(t, ids)[e].version)
  {
    assert Stored(t, e.ns, ids[e]);
  }

  /** Looking an entry up through the key map finds its row, or nothing when there is none. */
  lemma IdentifiedIffRow(t: Tables, ids: Ids, ns: Namespace, name: string, v: Version)
    requires OneToOne(ids) && Consistent(t, ids) && Named(name, v) && Plain(Entry(ns, name, v.canonical))
    ensures var e, id := Entry(ns, name, v.canonical), Identified(t, ns, name, v);
            && (id.Ok? ==> e in ids && id.value == ids[e])
            && (id.Ok? && Stored(t, ns, id.value) <==> e in Rows(t, ids))
  {
    var e := Entry(ns, name, v.canonical);
    if e in Rows(t, ids) {
      RowFacts(t, ids, e);
    }
  }

  lemma StoredIsRow(t: Tables, ids: Ids, ns: Namespace, id: AddonID)
    requires OneToOne(ids) && Consistent(t, ids) && Stored(t, ns, id)
    ensures IsRow(Rows(t, ids), ns, id, EntryOf(ns, t.storage[ns][id]))
    ensures Rows(t, ids)[EntryOf(ns, t.storage[ns][id])] == t.storage[ns][id]
  {
    hide Key;
    var e := EntryOf(ns, t.storage[ns][id]);
    assert e in ids && ids[e] == id;
    hide Consistent, OneToOne;
  }

  lemma RowIsStored(t: Tables, ids: Ids, ns: Namespace, id: AddonID, e: Entry)
    requires OneToOne(ids) && Consistent(t, ids) && IsRow(Rows(t, ids), ns, id, e)
    ensures Stored(t, ns, id) && e == EntryOf(ns, t.storage[ns][id])
  {
    RowFacts(t, ids, e);
    hide Consistent, OneToOne, Key;
  }

  /** Looking an ID up finds the one row that has it. */
  lemma StoredIffRow(t: Tables, ids: Ids, ns: Namespace, id: AddonID)
    requires OneToOne(ids) && Consistent(t, ids)
    ensures Stored(t, ns, id) <==> ByID(Rows(t, ids), ns, id).Some?
    ensures Stored(t, ns, id) ==>
              ByID(Rows(t, ids), ns, id).value == EntryOf(ns, t.storage[ns][id])
  {
    var rows := Rows(t, ids);
    if Stored(t, ns, id) {
      StoredIsRow(t, ids, ns, id);
    }
    forall e | IsRow(rows, ns, id, e) ensures Stored(t, ns, id) && e == EntryOf(ns, t.storage[ns][id]) {
      RowIsStored(t, ids, ns, id, e);
    }
    hide Key, Consistent, OneToOne, Rows, IsRow;
  }

  // ----- each call -----

  /** The store has a mapping for the entry: what `Upsert` reports as a replacement. */
  predicate Mapped(t: Tables, e: Entry) {
    Key(e) in t.keyToID
  }

  function MappedFor(t: Tables, c: Call): bool {
    c.Upsert? && Mapped(t, EntryOf(c.ns, c.addon))
  }

  ghost predicate Agrees(t: Tables, ids: Ids, c: Call) {
    var table := TableCall(Rows(t, ids), c, MappedFor(t, c));
    && StoreCall(t, c).0 == table.0
    && Rows(StoreCall(t, c).1, ids) == table.1
    && Consistent(StoreCall(t, c).1, ids)
  }

  lemma UpsertKeepsConsistent(t: Tables, ids: Ids, ns: Namespace, a: Addon)
    requires OneToOne(ids) && Consistent(t, ids) && Follows(Upsert(ns, a), ids) && Named(a.name, a.version)
    ensures Consistent(Upserted(t, ns, a).1, ids)
  {
    var t', e0 := Upserted(t, ns, a).1, EntryOf(ns, a);
    forall e | Plain(e) && Key(e) in t'.keyToID ensures e in ids && t'.keyToID[Key(e)] == ids[e] {
      if Key(e) == Key(e0) {
        KeyInjective(e, e0);
      }
    }
    hide Key;
    forall m, id | Stored(t', m, id)
      ensures var b := t'.storage[m][id];
              && b.id == id && Named(b.name, b.version)
              && EntryOf(m, b) in ids && ids[EntryOf(m, b)] == id && Key(EntryOf(m, b)) in t'.keyToID
    {
      assert (m == ns && id == a.id) || Stored(t, m, id);
    }
  }

  lemma UpsertAddsRow(t: Tables, ids: Ids, ns: Namespace, a: Addon)
    requires OneToOne(ids) && Follows(Upsert(ns, a), ids) && Named(a.name, a.version)
    ensures Rows(Upserted(t, ns, a).1, ids) == Rows(t, ids)[EntryOf(ns, a) := a]
  {
    var t', e0 := Upserted(t, ns, a).1, EntryOf(ns, a);
    forall e | e in ids
      ensures Row(t', ids, e) == if e == e0 then Some(a) else Row(t, ids, e)
    {
      hide Key;
    }
    assert e0 in ids;
    hide *;
    RowsHaveRow(t, ids);
    RowsByRow(t', ids, Rows(t, ids)[e0 := a]);
  }

  /** Healing deletes a mapping that no stored addon needs. */
  lemma GetKeepsConsistent(t: Tables, ids: Ids, ns: Namespace, name: string, v: Version)
    requires OneToOne(ids) && Consistent(t, ids) && Named(name, v) && Plain(Entry(ns, name, v.canonical))
    ensures Consistent(Gotten(t, ns, name, v).1, ids) && Gotten(t, ns, name, v).1.storage == t.storage
  {
    var t', e0 := Gotten(t, ns, name, v).1, Entry(ns, name, v.canonical);
    forall m, id | Stored(t', m, id) ensures Stored(t, m, id) && Key(EntryOf(m, t'.storage[m][id])) in t'.keyToID {
      assert Stored(t, m, id);
      var e := EntryOf(m, t.storage[m][id]);
      if Key(e) == Key(e0) {
        KeyInjective(e, e0);
      }
    }
  }

  lemma GetAgrees(t: Tables, ids: Ids, ns: Namespace, name: string, v: Version)
    requires OneToOne(ids) && Consistent(t, ids) && Follows(Get(ns, name, v), ids)
    ensures Agrees(t, ids, Get(ns, name, v))
  {
    if Named(name, v) {
      IdentifiedIffRow(t, ids, ns, name, v);
      GetKeepsConsistent(t, ids, ns, name, v);
      hide Key, Consistent, OneToOne;
      assert Rows(Gotten(t, ns, name, v).1, ids) == Rows(t, ids);
    }
  }

  /** Nothing is added and the mappings stay. */
  ghost predicate Shrinks(t: Tables, t': Tables) {
    && t'.keyToID == t.keyToID
    && forall m, i {:trigger Stored(t', m, i)} | Stored(t', m, i) ::
         Stored(t, m, i) && t'.storage[m][i] == t.storage[m][i]
  }

  /** Stale mappings do no harm: a store that lost addons is still consistent. */
  lemma ShrinkingKeepsConsistent(t: Tables, t': Tables, ids: Ids)
    requires Consistent(t, ids) && Shrinks(t, t')
    ensures Consistent(t', ids)
  {
    hide Key;
  }

  lemma RemovedByIDStored(t: Tables, ns: Namespace, id: AddonID)
    requires Stored(t, ns, id)
    ensures var t' := RemovedByID(t, ns, id).1;
            && Shrinks(t, t')
            && forall m, i {:trigger Stored(t', m, i)} :: Stored(t', m, i) <==> Stored(t, m, i) && (m != ns || i != id)
  {
    var t' := RemovedByID(t, ns, id).1;
    forall m, i
      ensures Stored(t', m, i) <==> Stored(t, m, i) && (m != ns || i != id)
      ensures Stored(t', m, i) ==> t'.storage[m][i] == t.storage[m][i]
    {
    }
  }

  lemma RemovedRows(t: Tables, ids: Ids, ns: Namespace, id: AddonID)
    requires OneToOne(ids) && Consistent(t, ids) && Stored(t, ns, id)
    ensures var t' := RemovedByID(t, ns, id).1;
            Consistent(t', ids) && Rows(t', ids) == Rows(t, ids) - {EntryOf(ns, t.storage[ns][id])}
  {
    var t', e0 := RemovedByID(t, ns, id).1, EntryOf(ns, t.storage[ns][id]);
    RemovedByIDStored(t, ns, id);
    ShrinkingKeepsConsistent(t, t', ids);
    assert e0 in ids && ids[e0] == id;
    assert forall e | e in ids && e.ns == ns && ids[e] == id :: e == e0;
    hide Consistent, OneToOne, RemovedByID, Key, EntryOf;
    forall e | e in ids
      ensures Row(t', ids, e) == if e == e0 then None else Row(t, ids, e)
    {
      hide Rows;
    }
    hide *;
    RowsHaveRow(t, ids);
    RowsByRow(t', ids, Rows(t, ids) - {e0});
  }

  lemma RemoveByIDAgrees(t: Tables, ids: Ids, ns: Namespace, id: AddonID)
    requires OneToOne(ids) && Consistent(t, ids)
    ensures Agrees(t, ids, RemoveByID(ns, id))
  {
    hide Key, Consistent, OneToOne, Rows, ByID, Stored, RemovedByID, Upserted, Gotten, Removed, Emptied, GottenByID;
    StoredIffRow(t, ids, ns, id);
    RemovedByIDOk(t, ns, id);
    if Stored(t, ns, id) {
      RemovedRows(t, ids, ns, id);
    }
  }

  /** Removing by name and version is removing the row's ID. */
  lemma RemovedViaID(t: Tables, ids: Ids, ns: Namespace, name: string, v: Version)
    requires OneToOne(ids) && Consistent(t, ids) && Named(name, v) && Plain(Entry(ns, name, v.canonical))
    ensures var e := Entry(ns, name, v.canonical);
            if e in Rows(t, ids) then
              && e in ids && Stored(t, ns, ids[e]) && EntryOf(ns, t.storage[ns][ids[e]]) == e
              && Removed(t, ns, name, v) == RemovedByID(t, ns, ids[e])
            else Removed(t, ns, name, v) == (Err(NotFound), t)
  {
    var e := Entry(ns, name, v.canonical);
    IdentifiedIffRow(t, ids, ns, name, v);
    if e in Rows(t, ids) {
      RowFacts(t, ids, e);
      assert Stored(t, ns, ids[e]);
    }
  }

  lemma RemoveAgrees(t: Tables, ids: Ids, ns: Namespace, name: string, v: Version)
    requires OneToOne(ids) && Consistent(t, ids) && Follows(Remove(ns, name, v), ids)
    ensures Agrees(t, ids, Remove(ns, name, v))
  {
    var e := Entry(ns, name, v.canonical);
    if Named(name, v) {
      RemovedViaID(t, ids, ns, name, v);
      hide Key, Consistent, OneToOne, Rows, Stored, Removed, RemovedByID;
      if e in Rows(t, ids) {
        RemovedRows(t, ids, ns, ids[e]);
        RemovedByIDOk(t, ns, ids[e]);
      }
    }
  }

  lemma RemovedByIDOk(t: Tables, ns: Namespace, id: AddonID)
    ensures if Stored(t, ns, id) then RemovedByID(t, ns, id).0 == Ok(())
            else RemovedByID(t, ns, id) == (Err(NotFound), t)
  {
  }

  lemma ShelfIsRows(t: Tables, ids: Ids, ns: Namespace)
    requires OneToOne(ids) && Consistent(t, ids)
    ensures var rows := Rows(t, ids); ShelfOf(t, ns).Values == set e | e in rows && e.ns == ns :: rows[e]
  {
    hide Key;
    var rows := Rows(t, ids);
    var found := set e | e in rows && e.ns == ns :: rows[e];
    forall a | a in ShelfOf(t, ns).Values ensures a in found {
      var id :| id in ShelfOf(t, ns) && ShelfOf(t, ns)[id] == a;
      assert Stored(t, ns, id);
      assert EntryOf(ns, a) in rows;
    }
  }

  lemma EmptiedRows(t: Tables, ids: Ids, ns: Namespace)
    requires OneToOne(ids) && Consistent(t, ids)
    ensures var rows := Rows(t, ids); Rows(Emptied(t, ns), ids) == map e | e in rows && e.ns != ns :: rows[e]
    ensures Consistent(Emptied(t, ns), ids)
  {
    var t' := Emptied(t, ns);
    forall m, i ensures Stored(t', m, i) <==> Stored(t, m, i) && m != ns {
    }
    ShrinkingKeepsConsistent(t, t', ids);
    hide Consistent, OneToOne;
  }

  lemma GetByIDAgrees(t: Tables, ids: Ids, ns: Namespace, id: AddonID)
    requires OneToOne(ids) && Consistent(t, ids)
    ensures Agrees(t, ids, GetByID(ns, id))
  {
    hide Key, Consistent, OneToOne, Rows, ByID;
    StoredIffRow(t, ids, ns, id);
    if Stored(t, ns, id) {
      StoredIsRow(t, ids, ns, id);
    }
  }

  /** One call: the table's answer, given which mappings there are, and its next contents. */
  lemma RowsAgree(t: Tables, ids: Ids, c: Call)
    requires OneToOne(ids) && Consistent(t, ids) && Follows(c, ids)
    ensures Agrees(t, ids, c)
  {
    hide Consistent, OneToOne, Rows, Key;
    match c
    case Upsert(ns, a) =>
      if Named(a.name, a.version) {
        UpsertKeepsConsistent(t, ids, ns, a);
        UpsertAddsRow(t, ids, ns, a);
      }
    case Get(ns, name, v) => GetAgrees(t, ids, ns, name, v);
    case GetByID(ns, id) => GetByIDAgrees(t, ids, ns, id);
    case FindAll(ns) => ShelfIsRows(t, ids, ns);
    case Remove(ns, name, v) => RemoveAgrees(t, ids, ns, name, v);
    case RemoveByID(ns, id) => RemoveByIDAgrees(t, ids, ns, id);
    case RemoveAll(ns) => EmptiedRows(t, ids, ns);
  }
}
