/**
 The in-memory addon store. Addons are kept by namespace and ID; a second map leads from the joined
 string `namespace|name|version` to the ID. Removals leave entries of the second map behind, and a
 lookup that runs into a stale one deletes it.
 */
module AddonStore {
  import opened Listings

  type Namespace = string
  type AddonID = string

  /** A semantic version keeps the text it was parsed from beside its canonical rendering. */
  datatype Version = Version(original: string, canonical: string)

  datatype Chart = Chart(name: string, version: string)

  /** All plans of an addon install its one chart; `rest` stands for the fields nobody looks at here. */
  datatype Addon = Addon(id: AddonID, name: string, version: Version, chart: Chart, rest: string)

  datatype Error = NotFound | NameOrVersionNotSet

  datatype Result<+T> = Ok(value: T) | Err(error: Error)

  type Shelf = map<AddonID, Addon>

  datatype Tables = Tables(keyToID: map<string, AddonID>, storage: map<Namespace, Shelf>)

  // ----- the calls -----

  /** What identifies an addon to callers that have no ID. */
  datatype Entry = Entry(ns: Namespace, name: string, version: string)

  function EntryOf(ns: Namespace, a: Addon): Entry {
    Entry(ns, a.name, a.version.canonical)
  }

  function Key(e: Entry): string {
    e.ns + "|" + e.name + "|" + e.version
  }

  predicate Named(name: string, v: Version) {
    name != "" && v.original != ""
  }

  predicate Stored(t: Tables, ns: Namespace, id: AddonID) {
    ns in t.storage && id in t.storage[ns]
  }

  function ShelfOf(t: Tables, ns: Namespace): Shelf {
    if ns in t.storage then t.storage[ns] else map[]
  }

  function Upserted(t: Tables, ns: Namespace, a: Addon): (Result<bool>, Tables) {
    var k := Key(EntryOf(ns, a));
    if !Named(a.name, a.version) then (Err(NameOrVersionNotSet), t)
    else (Ok(k in t.keyToID),
          Tables(if k in t.keyToID then t.keyToID else t.keyToID[k := a.id],
                 t.storage[ns := ShelfOf(t, ns)[a.id := a]]))
  }

  function Identified(t: Tables, ns: Namespace, name: string, v: Version): Result<AddonID> {
    var k := Key(Entry(ns, name, v.canonical));
    if !Named(name, v) then Err(NameOrVersionNotSet)
    else if k in t.keyToID then Ok(t.keyToID[k])
    else Err(NotFound)
  }

  function Gotten(t: Tables, ns: Namespace, name: string, v: Version): (Result<Addon>, Tables) {
    match Identified(t, ns, name, v)
    case Err(e) => (Err(e), t)
    case Ok(id) =>
      if Stored(t, ns, id) then (Ok(t.storage[ns][id]), t)
      else if ns !in t.storage then (Err(NotFound), t)
      else (Err(NotFound), t.(keyToID := t.keyToID - {Key(Entry(ns, name, v.canonical))}))
  }

  function GottenByID(t: Tables, ns: Namespace, id: AddonID): Result<Addon> {
    if Stored(t, ns, id) then Ok(t.storage[ns][id]) else Err(NotFound)
  }

  function RemovedByID(t: Tables, ns: Namespace, id: AddonID): (Result<()>, Tables) {
    if !Stored(t, ns, id) then (Err(NotFound), t)
    else
      var shelf := t.storage[ns] - {id};
      (Ok(()), t.(storage := if shelf.Keys == {} then t.storage - {ns} else t.storage[ns := shelf]))
  }

  function Removed(t: Tables, ns: Namespace, name: string, v: Version): (Result<()>, Tables) {
    match Identified(t, ns, name, v)
    case Err(e) => (Err(e), t)
    case Ok(id) => RemovedByID(t, ns, id)
  }

  function Emptied(t: Tables, ns: Namespace): Tables {
    t.(storage := t.storage - {ns})
  }

  /** Addons sit under their own ID and no namespace is kept empty. */
  ghost predicate Tidy(t: Tables) {
    && (forall ns | ns in t.storage :: t.storage[ns].Keys != {})
    && (forall ns, id {:trigger Stored(t, ns, id)} | Stored(t, ns, id) :: t.storage[ns][id].id == id)
  }

  /** The store as the source writes it. */
  class Store {
    var keyToID: map<string, AddonID>
    var storage: map<Namespace, Shelf>

    ghost function Contents(): Tables
      reads this
    {
      Tables(keyToID, storage)
    }

    constructor ()
      ensures Contents() == Tables(map[], map[]) && Tidy(Contents())
    {
      keyToID, storage := map[], map[];
    }

    method Upsert(ns: Namespace, addon: Addon) returns (replaced: Result<bool>)
      requires Tidy(Contents())
      modifies this
      ensures (replaced, Contents()) == Upserted(old(Contents()), ns, addon) && Tidy(Contents())
    {
      if addon.name == "" || addon.version.original == "" {
        return Err(NameOrVersionNotSet);
      }
      var nvk := Key(EntryOf(ns, addon));
      replaced := Ok(true);
      if nvk !in keyToID {
        keyToID := keyToID[nvk := addon.id];
        replaced := Ok(false);
      }
      if ns !in storage {
        storage := storage[ns := map[]];
      }
      storage := storage[ns := storage[ns][addon.id := addon]];
      assert storage == old(storage)[ns := ShelfOf(old(Contents()), ns)[addon.id := addon]];
      UpsertKeepsTidy(old(Contents()), ns, addon);
    }

    method Id(ns: Namespace, name: string, ver: Version) returns (id: Result<AddonID>)
      ensures id == Identified(Contents(), ns, name, ver)
    {
      if name == "" || ver.original == "" {
        return Err(NameOrVersionNotSet);
      }
      var nvk := Key(Entry(ns, name, ver.canonical));
      if nvk !in keyToID {
        return Err(NotFound);
      }
      return Ok(keyToID[nvk]);
    }

    method Get(ns: Namespace, name: string, ver: Version) returns (addon: Result<Addon>)
      modifies this
      ensures (addon, Contents()) == Gotten(old(Contents()), ns, name, ver) && storage == old(storage)
    {
      var id := Id(ns, name, ver);
      if id.Err? {
        return Err(id.error);
      }
      if ns !in storage {
        return Err(NotFound);
      }
      if id.value !in storage[ns] {
        keyToID := keyToID - {Key(Entry(ns, name, ver.canonical))};
        return Err(NotFound);
      }
      return Ok(storage[ns][id.value]);
    }

    method GetByID(ns: Namespace, id: AddonID) returns (addon: Result<Addon>)
      ensures addon == GottenByID(Contents(), ns, id)
    {
      if ns !in storage {
        return Err(NotFound);
      }
      if id !in storage[ns] {
        return Err(NotFound);
      }
      return Ok(storage[ns][id]);
    }

    method FindAll(ns: Namespace) returns (addons: seq<Addon>)
      ensures Lists(addons, ShelfOf(Contents(), ns))
    {
      if ns !in storage {
        addons := [];
        ghost var order: seq<AddonID> := [];
        assert Enumerates(addons, ShelfOf(Contents(), ns), order);
        return;
      }
      addons := Collect(storage[ns]);
    }

    method Remove(ns: Namespace, name: string, ver: Version) returns (err: Result<()>)
      requires Tidy(Contents())
      modifies this
      ensures (err, Contents()) == Removed(old(Contents()), ns, name, ver) && Tidy(Contents())
    {
      var id := Id(ns, name, ver);
      if id.Err? {
        return Err(id.error);
      }
      err := RemoveByID(ns, id.value);
    }

    method RemoveByID(ns: Namespace, id: AddonID) returns (err: Result<()>)
      requires Tidy(Contents())
      modifies this
      ensures (err, Contents()) == RemovedByID(old(Contents()), ns, id) && Tidy(Contents())
    {
      RemoveKeepsTidy(Contents(), ns, id);
      if ns !in storage {
        return Err(NotFound);
      }
      if id !in storage[ns] {
        return Err(NotFound);
      }
      storage := storage[ns := storage[ns] - {id}];
      if storage[ns].Keys == {} {
        storage := storage - {ns};
        assert storage == old(storage) - {ns};
      }
      return Ok(());
    }

    /** One removal after the other; none of them can fail. */
    method RemoveAll(ns: Namespace) returns (err: Result<()>)
      requires Tidy(Contents())
      modifies this
      ensures err == Ok(()) && Contents() == Emptied(old(Contents()), ns) && Tidy(Contents())
    {
      var addons := FindAll(ns);
      ghost var was := Contents();
      ghost var order: seq<AddonID> :| Enumerates(addons, ShelfOf(was, ns), order);
      EmptiedStart(was, ns);
      EmptiedEnd(was, ns, addons, order);
      hide *;
      for n := 0 to |addons|
        invariant Tidy(Contents())
        invariant Contents() == Without(was, ns, Elements(order[..n]))
      {
        RemoveNext(was, ns, addons, order, n);
        err := RemoveByID(ns, addons[n].id);
        assert err.Ok?;
      }
      return Ok(());
    }
  }

  // ----- removing everything -----

  function Elements(ids: seq<AddonID>): set<AddonID> {
    set id | id in ids
  }

  function Without(t: Tables, ns: Namespace, gone: set<AddonID>): Tables {
    var shelf := ShelfOf(t, ns) - gone;
    t.(storage := if shelf.Keys == {} then t.storage - {ns} else t.storage[ns := shelf])
  }

  lemma UpsertKeepsTidy(t: Tables, ns: Namespace, a: Addon)
    requires Tidy(t)
    ensures Tidy(Upserted(t, ns, a).1)
  {
    var t' := Upserted(t, ns, a).1;
    if Named(a.name, a.version) {
      assert a.id in t'.storage[ns];
      forall m, id | Stored(t', m, id) ensures t'.storage[m][id].id == id {
        assert (m == ns && id == a.id) || Stored(t, m, id);
      }
    }
  }

  lemma RemoveKeepsTidy(t: Tables, ns: Namespace, id: AddonID)
    requires Tidy(t)
    ensures Tidy(RemovedByID(t, ns, id).1)
  {
    var t' := RemovedByID(t, ns, id).1;
    forall m, i | Stored(t', m, i) ensures t'.storage[m][i].id == i {
      assert Stored(t, m, i);
    }
  }

  lemma TidyIgnoresKeys(t: Tables, t': Tables)
    requires Tidy(t) && t'.storage == t.storage
    ensures Tidy(t')
  {
    forall ns, id | Stored(t', ns, id) ensures t'.storage[ns][id].id == id {
      assert Stored(t, ns, id);
    }
  }

  lemma EmptyingKeepsTidy(t: Tables, ns: Namespace)
    requires Tidy(t)
    ensures Tidy(Emptied(t, ns))
  {
    var t' := Emptied(t, ns);
    forall m, i | Stored(t', m, i) ensures t'.storage[m][i].id == i {
      assert Stored(t, m, i);
    }
  }

  lemma EmptiedStart(t: Tables, ns: Namespace)
    requires Tidy(t)
    ensures t == Without(t, ns, Elements([]))
  {
    assert Elements([]) == {};
    assert ShelfOf(t, ns) - {} == ShelfOf(t, ns);
    assert ns in t.storage ==> t.storage[ns := t.storage[ns]] == t.storage;
  }

  lemma RemoveNext(t: Tables, ns: Namespace, addons: seq<Addon>, order: seq<AddonID>, n: nat)
    requires Tidy(t) && Enumerates(addons, ShelfOf(t, ns), order) && n < |addons| == |order|
    ensures RemovedByID(Without(t, ns, Elements(order[..n])), ns, addons[n].id) ==
            (Ok(()), Without(t, ns, Elements(order[..n + 1])))
  {
    var gone, gone' := Elements(order[..n]), Elements(order[..n + 1]);
    assert order[..n + 1] == order[..n] + [order[n]];
    assert gone' == gone + {order[n]};
    assert order[n] !in gone;
    assert Stored(t, ns, order[n]);
    var shelf := ShelfOf(t, ns) - gone;
    assert order[n] in shelf;
    assert shelf - {order[n]} == ShelfOf(t, ns) - gone';
    var mid := Without(t, ns, gone);
    assert mid.storage == t.storage[ns := shelf];
    assert mid.storage - {ns} == t.storage - {ns};
    assert mid.storage[ns := shelf - {order[n]}] == t.storage[ns := shelf - {order[n]}];
  }

  lemma EmptiedEnd(t: Tables, ns: Namespace, addons: seq<Addon>, order: seq<AddonID>)
    requires Enumerates(addons, ShelfOf(t, ns), order)
    ensures |addons| == |order|
    ensures Without(t, ns, Elements(order[..|addons|])) == Emptied(t, ns)
  {
    assert order[..|addons|] == order;
    assert (ShelfOf(t, ns) - Elements(order)).Keys == {};
    assert t.storage - {ns} == Emptied(t, ns).storage;
  }
}
