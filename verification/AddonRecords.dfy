/** The addon store as one scope's controller sees it: name and version to record. */
module AddonRecords {
  import opened AddonsConfigurations
  import opened Collections
  import AddonStore
  import AddonTable
  import opened Reconciler

  type Tables = AddonStore.Tables
  type Ids = AddonTable.Ids

  /** The row of a pair; versions are canonical, so the text and the rendering are the same. */
  function RowOf(ns: string, p: Pair): AddonStore.Entry {
    AddonStore.Entry(ns, p.name, p.version)
  }

  function VersionOf(p: Pair): AddonStore.Version {
    AddonStore.Version(p.version, p.version)
  }

  function AddonOf(e: Collections.Entry): AddonStore.Addon {
    AddonStore.Addon(e.id, e.pair.name, VersionOf(e.pair), e.chart, "")
  }

  /** Pairs the store takes: named, and with keys that can be told apart. */
  predicate Proper(ns: string, p: Pair) {
    p.name != "" && p.version != "" && AddonTable.Plain(RowOf(ns, p))
  }

  ghost function Records(rows: AddonTable.Table, ns: string): map<Pair, Record> {
    map p | p in (set e | e in rows && e.ns == ns :: Pair(e.name, e.version)) ::
      Record(rows[RowOf(ns, p)].id, rows[RowOf(ns, p)].chart)
  }

  lemma RecordsAre(rows: AddonTable.Table, ns: string)
    ensures forall p :: p in Records(rows, ns) <==> RowOf(ns, p) in rows
    ensures forall p | p in Records(rows, ns) ::
              Records(rows, ns)[p] == Record(rows[RowOf(ns, p)].id, rows[RowOf(ns, p)].chart)
  {
    forall p | RowOf(ns, p) in rows ensures p in Records(rows, ns) {
      assert p == Pair(RowOf(ns, p).name, RowOf(ns, p).version);
    }
  }

  lemma RecordsPut(rows: AddonTable.Table, ns: string, p: Pair, a: AddonStore.Addon)
    ensures Records(rows[RowOf(ns, p) := a], ns) == Records(rows, ns)[p := Record(a.id, a.chart)]
  {
    var rows' := rows[RowOf(ns, p) := a];
    RecordsAre(rows, ns);
    RecordsAre(rows', ns);
    hide Records;
    assert forall q :: q in Records(rows', ns) <==> q in Records(rows, ns)[p := Record(a.id, a.chart)];
  }

  lemma RecordsDelete(rows: AddonTable.Table, ns: string, p: Pair)
    ensures Records(rows - {RowOf(ns, p)}, ns) == Records(rows, ns) - {p}
  {
    var rows' := rows - {RowOf(ns, p)};
    RecordsAre(rows, ns);
    RecordsAre(rows', ns);
    hide Records;
    assert forall q :: q in Records(rows', ns) <==> q in Records(rows, ns) - {p};
  }

  /** The store is in order and stands for these records. */
  ghost predicate Keeps(t: Tables, ids: Ids, ns: string, records: map<Pair, Record>) {
    && AddonTable.OneToOne(ids)
    && AddonTable.Consistent(t, ids)
    && AddonStore.Tidy(t)
    && records == Records(AddonTable.Rows(t, ids), ns)
  }

  /** The entry is the addon that `ids` foresees for its name and version. */
  ghost predicate Foreseen(ids: Ids, ns: string, e: Collections.Entry) {
    && Proper(ns, e.pair)
    && RowOf(ns, e.pair) in ids && ids[RowOf(ns, e.pair)] == e.id
  }

  lemma UpsertKeeps(t: Tables, ids: Ids, ns: string, records: map<Pair, Record>, e: Collections.Entry)
    requires Keeps(t, ids, ns, records) && Foreseen(ids, ns, e)
    ensures AddonStore.Upserted(t, ns, AddonOf(e)).0.Ok?
    ensures Keeps(AddonStore.Upserted(t, ns, AddonOf(e)).1, ids, ns, records[e.pair := Record(e.id, e.chart)])
  {
    var a := AddonOf(e);
    assert AddonStore.EntryOf(ns, a) == RowOf(ns, e.pair);
    hide AddonTable.Rows, AddonTable.Consistent, AddonTable.OneToOne, AddonStore.Tidy, Records,
      AddonStore.Key, AddonTable.Plain;
    AddonTable.UpsertKeepsConsistent(t, ids, ns, a);
    AddonTable.UpsertAddsRow(t, ids, ns, a);
    AddonStore.UpsertKeepsTidy(t, ns, a);
    RecordsPut(AddonTable.Rows(t, ids), ns, e.pair, a);
  }

  /** Looking up a pair, and removing the row under the version found there. */
  lemma GetKeeps(t: Tables, ids: Ids, ns: string, records: map<Pair, Record>, p: Pair)
    requires Keeps(t, ids, ns, records) && Proper(ns, p)
    ensures var got := AddonStore.Gotten(t, ns, p.name, VersionOf(p));
            && Keeps(got.1, ids, ns, records)
            && (p !in records ==> got.0 == AddonStore.Err(AddonStore.NotFound))
            && (p in records ==> && got.0.Ok?
                                 && got.0.value.name == p.name
                                 && got.0.value.version.canonical == p.version
                                 && got.0.value.version.original != ""
                                 && got.0.value.chart == records[p].chart)
  {
    hide AddonTable.Rows, AddonTable.Consistent, AddonTable.OneToOne, AddonStore.Tidy, Records,
      AddonStore.Key, AddonTable.Plain;
    var rows, v := AddonTable.Rows(t, ids), VersionOf(p);
    var t' := AddonStore.Gotten(t, ns, p.name, v).1;
    RecordsAre(rows, ns);
    AddonTable.GetAgrees(t, ids, ns, p.name, v);
    AddonTable.GetKeepsConsistent(t, ids, ns, p.name, v);
    AddonStore.TidyIgnoresKeys(t, t');
    hide AddonStore.Gotten;
    if RowOf(ns, p) in rows {
      AddonTable.RowFacts(t, ids, RowOf(ns, p));
    }
  }

  lemma RemoveKeeps(t: Tables, ids: Ids, ns: string, records: map<Pair, Record>, p: Pair, v: AddonStore.Version)
    requires Keeps(t, ids, ns, records) && Proper(ns, p) && p in records
    requires v.canonical == p.version && v.original != ""
    ensures AddonStore.Removed(t, ns, p.name, v).0.Ok?
    ensures Keeps(AddonStore.Removed(t, ns, p.name, v).1, ids, ns, records - {p})
  {
    hide AddonTable.Rows, AddonTable.Consistent, AddonTable.OneToOne, AddonStore.Tidy, Records,
      AddonStore.Key, AddonTable.Plain;
    var rows := AddonTable.Rows(t, ids);
    RecordsAre(rows, ns);
    RecordsDelete(rows, ns, p);
    AddonTable.RemoveAgrees(t, ids, ns, p.name, v);
    AddonTable.RemovedViaID(t, ids, ns, p.name, v);
    AddonStore.RemoveKeepsTidy(t, ns, ids[RowOf(ns, p)]);
    hide AddonStore.RemovedByID, AddonStore.Removed;
  }
}
