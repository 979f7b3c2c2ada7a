/**
 The merge as the source performs it: on maps that are shared by reference. The heap holds Go maps
 under references; a cell of a map is either a non-map value or a link to another map.

 A `Tree` describes a region of the heap: which map sits where. The in-place merge is specified
 down to identity: which maps of the result are the old destination's, and which are borrowed
 from the source.
 */
module MergeInPlace {
  import opened Values

  const ADDONS_REPOSITORY_URL: string := "addonsRepositoryURL"

  type Ref = nat

  datatype Cell = Scalar(json: string) | Link(ref: Ref)

  type GoMap = map<string, Cell>
  type Store = map<Ref, GoMap>

  datatype Tree = TLeaf(json: string) | TNode(ref: Ref, kids: map<string, Tree>)

  function CellOf(t: Tree): Cell {
    match t
    case TLeaf(x) => Scalar(x)
    case TNode(r, _) => Link(r)
  }

  function Cells(t: Tree): map<string, Cell>
    requires t.TNode?
  {
    map k | k in t.kids :: CellOf(t.kids[k])
  }

  function ValueOf(t: Tree): Value {
    match t
    case TLeaf(x) => Leaf(x)
    case TNode(_, kids) => Map(map k | k in kids :: ValueOf(kids[k]))
  }

  function FieldsOf(t: Tree): Fields
    requires t.TNode?
  {
    ValueOf(t).fields
  }

  /** The map objects of a region. */
  ghost function Nodes(t: Tree): set<Ref> {
    match t
    case TLeaf(_) => {}
    case TNode(r, kids) => {r} + set k, q | k in kids && q in Nodes(kids[k]) :: q
  }

  /** The heap really looks like the tree. */
  ghost predicate Holds(t: Tree, h: Store) {
    match t
    case TLeaf(_) => true
    case TNode(r, kids) => r in h && h[r] == Cells(t) && forall k | k in kids :: Holds(kids[k], h)
  }

  /** No map object occurs twice. */
  ghost predicate Unshared(t: Tree) {
    match t
    case TLeaf(_) => true
    case TNode(r, kids) =>
      && (forall k | k in kids :: Unshared(kids[k]) && r !in Nodes(kids[k]))
      && (forall j, k | j in kids && k in kids && j != k :: Nodes(kids[j]) !! Nodes(kids[k]))
  }

  /** The merge on regions: the destination's map objects stay, the rest is borrowed from the source. */
  function MergeTree(d: Tree, s: Tree): (m: Tree)
    requires d.TNode? && s.TNode?
    ensures m.TNode? && m.ref == d.ref && m.kids.Keys == d.kids.Keys + s.kids.Keys
    decreases s
  {
    TNode(d.ref, map k | k in d.kids.Keys + s.kids.Keys :: MergeKid(d, s, k))
  }

  function MergeKid(d: Tree, s: Tree, k: string): Tree
    requires d.TNode? && s.TNode? && (k in d.kids || k in s.kids)
    decreases s, 0
  {
    if k !in s.kids then d.kids[k]
    else if k in d.kids && d.kids[k].TNode? && s.kids[k].TNode? then MergeTree(d.kids[k], s.kids[k])
    else s.kids[k]
  }

  /** Read as values, the merge on regions is the merge. */
  lemma {:induction false} MergeTreeIsMerge(d: Tree, s: Tree)
    requires d.TNode? && s.TNode?
    ensures FieldsOf(MergeTree(d, s)) == Merge(FieldsOf(d), FieldsOf(s))
    decreases s
  {
    var m, f := MergeTree(d, s), Merge(FieldsOf(d), FieldsOf(s));
    assert FieldsOf(m).Keys == f.Keys;
    forall k | k in f
      ensures FieldsOf(m)[k] == f[k]
    {
      assert f[k] == MergeAtKey(FieldsOf(d), FieldsOf(s), k);
      assert FieldsOf(m)[k] == ValueOf(MergeKid(d, s, k));
      assert k in d.kids ==> FieldsOf(d)[k] == ValueOf(d.kids[k]);
      assert k in s.kids ==> FieldsOf(s)[k] == ValueOf(s.kids[k]);
      if k in d.kids && k in s.kids && d.kids[k].TNode? && s.kids[k].TNode? {
        MergeTreeIsMerge(d.kids[k], s.kids[k]);
      }
    }
  }

  /** The result is made of the destination's and the source's map objects only. */
  lemma {:induction false} MergeTreeNodes(d: Tree, s: Tree)
    requires d.TNode? && s.TNode?
    ensures Nodes(MergeTree(d, s)) <= Nodes(d) + Nodes(s)
    decreases s
  {
    forall k | k in d.kids || k in s.kids
      ensures Nodes(MergeKid(d, s, k)) <= Nodes(d) + Nodes(s)
    {
      MergeKidNodes(d, s, k);
    }
  }

  lemma {:induction false} MergeKidNodes(d: Tree, s: Tree, k: string)
    requires d.TNode? && s.TNode? && (k in d.kids || k in s.kids)
    ensures Nodes(MergeKid(d, s, k)) <=
            (if k in d.kids then Nodes(d.kids[k]) else {}) + (if k in s.kids then Nodes(s.kids[k]) else {})
    decreases s, 0
  {
    if k in d.kids && k in s.kids && d.kids[k].TNode? && s.kids[k].TNode? {
      MergeTreeNodes(d.kids[k], s.kids[k]);
    }
  }

  /** The region half-way through the loop: the keys in `todo` are still as in `d`. */
  ghost function Partial(d: Tree, s: Tree, todo: set<string>): (p: Tree)
    requires d.TNode? && s.TNode?
    ensures p.TNode? && p.ref == d.ref
  {
    TNode(d.ref, map k | k in d.kids.Keys + (s.kids.Keys - todo) ::
                   if k in s.kids && k !in todo then MergeKid(d, s, k) else d.kids[k])
  }

  // ----- regions and heaps -----

  lemma KidNodesBelow(t: Tree, k: string)
    requires t.TNode? && k in t.kids
    ensures Nodes(t.kids[k]) <= Nodes(t)
  {
  }

  /** A region none of whose maps changed still holds. */
  lemma {:induction false} StillHolds(t: Tree, h: Store, h': Store)
    requires Holds(t, h)
    requires forall r | r in Nodes(t) && r in h :: r in h' && h'[r] == h[r]
    ensures Holds(t, h')
  {
    if t.TNode? {
      forall k | k in t.kids ensures Holds(t.kids[k], h') {
        KidNodesBelow(t, k);
        StillHolds(t.kids[k], h, h');
      }
    }
  }

  lemma {:induction false} NodesInHeap(t: Tree, h: Store)
    requires Holds(t, h)
    ensures Nodes(t) <= h.Keys
  {
    if t.TNode? {
      forall k | k in t.kids ensures Nodes(t.kids[k]) <= h.Keys {
        NodesInHeap(t.kids[k], h);
      }
    }
  }

  /** Pointing one key of a map outside both regions at another region. */
  lemma AssignHolds(h: Store, t: Tree, k: string, kid: Tree)
    requires t.TNode? && Holds(t, h) && forall j | j in t.kids :: t.ref !in Nodes(t.kids[j])
    requires Holds(kid, h) && t.ref !in Nodes(kid)
    ensures Holds(TNode(t.ref, t.kids[k := kid]), h[t.ref := h[t.ref][k := CellOf(kid)]])
  {
    var after, h' := TNode(t.ref, t.kids[k := kid]), h[t.ref := h[t.ref][k := CellOf(kid)]];
    forall j | j in after.kids ensures Holds(after.kids[j], h') {
      StillHolds(after.kids[j], h, h');
    }
    assert h'[t.ref] == Cells(after);
  }

  // ----- half-way through the loop -----

  lemma PartialBounds(d: Tree, s: Tree)
    requires d.TNode? && s.TNode?
    ensures Partial(d, s, s.kids.Keys) == d
    ensures Partial(d, s, {}) == MergeTree(d, s)
  {
    assert Partial(d, s, s.kids.Keys).kids == d.kids;
    assert Partial(d, s, {}).kids == MergeTree(d, s).kids;
  }

  lemma PartialNext(d: Tree, s: Tree, todo: set<string>, k: string)
    requires d.TNode? && s.TNode? && k in todo && k in s.kids
    ensures var before, after := Partial(d, s, todo), Partial(d, s, todo - {k});
            && after == TNode(d.ref, before.kids[k := MergeKid(d, s, k)])
            && (k in before.kids <==> k in d.kids)
            && (k in d.kids ==> before.kids[k] == d.kids[k])
  {
    assert Partial(d, s, todo - {k}).kids == Partial(d, s, todo).kids[k := MergeKid(d, s, k)];
  }

  /** The destination map and the subtree under `k` are apart from the rest. */
  ghost predicate Apart(p: Tree, k: string)
    requires p.TNode?
  {
    && (forall j | j in p.kids :: p.ref !in Nodes(p.kids[j]))
    && (forall j | j in p.kids && k in p.kids && j != k :: Nodes(p.kids[j]) !! Nodes(p.kids[k]))
  }

  lemma PartialApart(d: Tree, s: Tree, todo: set<string>, k: string)
    requires d.TNode? && s.TNode? && Unshared(d) && Nodes(d) !! Nodes(s) && k in todo
    ensures Apart(Partial(d, s, todo), k)
  {
    var p := Partial(d, s, todo);
    forall j | j in p.kids
      ensures d.ref !in Nodes(p.kids[j])
      ensures k in p.kids && j != k ==> Nodes(p.kids[j]) !! Nodes(p.kids[k])
    {
      if k in p.kids {
        KidNodesBelow(d, k);
      }
      if j in s.kids && j !in todo {
        MergeKidNodes(d, s, j);
        KidNodesBelow(s, j);
      }
    }
  }

  // ----- the code -----

  /** Every map outside `refs` is as before. */
  ghost predicate ChangesOnly(h: Store, h': Store, refs: set<Ref>) {
    h.Keys <= h'.Keys && forall r | r in h && r !in refs :: h'[r] == h[r]
  }

  lemma ChangesOnlyTwice(h: Store, h': Store, h'': Store, refs: set<Ref>)
    requires ChangesOnly(h, h', refs) && ChangesOnly(h', h'', refs)
    ensures ChangesOnly(h, h'', refs)
  {
  }

  lemma ApartStillHolds(t: Tree, h: Store, h': Store, refs: set<Ref>)
    requires Holds(t, h) && ChangesOnly(h, h', refs) && Nodes(t) !! refs
    ensures Holds(t, h')
  {
    StillHolds(t, h, h');
  }

  /** Merging below one key, with the map itself kept. */
  lemma ReplaceHolds(h: Store, h': Store, t: Tree, k: string, kid: Tree)
    requires t.TNode? && Holds(t, h) && k in t.kids && CellOf(kid) == CellOf(t.kids[k]) && Apart(t, k)
    requires ChangesOnly(h, h', Nodes(t.kids[k])) && Holds(kid, h')
    ensures Holds(TNode(t.ref, t.kids[k := kid]), h')
  {
    var after := TNode(t.ref, t.kids[k := kid]);
    forall j | j in t.kids && j != k ensures Holds(t.kids[j], h') {
      ApartStillHolds(t.kids[j], h, h', Nodes(t.kids[k]));
    }
    assert Cells(after) == Cells(t);
  }

  /** Adding a freshly copied kid to a region: the copy shares nothing with what was there. */
  lemma GrowHolds(h: Store, h': Store, c: Tree, k: string, kid: Tree)
    requires c.TNode? && Holds(c, h) && Unshared(c) && k !in c.kids
    requires ChangesOnly(h, h', {}) && Holds(kid, h') && Unshared(kid) && Nodes(kid) !! h.Keys
    ensures var after := TNode(c.ref, c.kids[k := kid]);
            && Unshared(after)
            && Holds(after, h'[c.ref := h'[c.ref][k := CellOf(kid)]])
            && Nodes(after) == Nodes(c) + Nodes(kid)
  {
    var after := TNode(c.ref, c.kids[k := kid]);
    NodesInHeap(c, h);
    forall j | j in c.kids ensures after.kids[j] == c.kids[j] && Nodes(c.kids[j]) <= h.Keys {
      KidNodesBelow(c, j);
    }
    assert Nodes(after) == Nodes(c) + Nodes(kid) by {
      assert after.kids[k] == kid;
      assert after.kids.Keys == c.kids.Keys + {k};
    }
    ApartStillHolds(c, h, h', {});
    hide Nodes, ChangesOnly;
    AssignHolds(h', c, k, kid);
  }

  /** The root map of a merge occurs nowhere below it. */
  lemma MergeRootApart(d: Tree, s: Tree)
    requires d.TNode? && s.TNode? && Unshared(d) && Nodes(d) !! Nodes(s)
    ensures forall j | j in MergeTree(d, s).kids :: d.ref !in Nodes(MergeTree(d, s).kids[j])
  {
    forall j | j in MergeTree(d, s).kids
      ensures d.ref !in Nodes(MergeTree(d, s).kids[j])
    {
      MergeKidNodes(d, s, j);
      if j in s.kids {
        KidNodesBelow(s, j);
      }
    }
  }

  lemma FieldsOfAssigned(t: Tree, k: string, x: string)
    requires t.TNode?
    ensures FieldsOf(TNode(t.ref, t.kids[k := TLeaf(x)])) == FieldsOf(t)[k := Leaf(x)]
  {
    var after := TNode(t.ref, t.kids[k := TLeaf(x)]);
    assert forall j | j in after.kids :: FieldsOf(after)[j] == ValueOf(after.kids[j]);
  }

  /** A map variable that may be nil, and the region behind it. */
  ghost predicate Describes(variable: Option<Ref>, region: Option<Tree>, h: Store) {
    match (variable, region)
    case (None, None) => true
    case (Some(r), Some(t)) => t.TNode? && t.ref == r && Holds(t, h)
    case _ => false
  }

  /** Reading a nil map is reading an empty one. */
  function ReadFields(region: Option<Tree>): Fields
    requires region.Some? ==> region.value.TNode?
  {
    if region.None? then map[] else FieldsOf(region.value)
  }

  /** `c` is a copy of the entries of `t` under the keys in `done`. */
  ghost predicate CopiedSoFar(t: Tree, c: Tree, done: set<string>, h: Store)
    requires t.TNode? && c.TNode?
  {
    && Holds(c, h) && Unshared(c)
    && c.kids.Keys == done <= t.kids.Keys
    && forall k | k in c.kids :: ValueOf(c.kids[k]) == ValueOf(t.kids[k])
  }

  lemma KidHeld(t: Tree, h: Store, k: string)
    requires t.TNode? && Holds(t, h) && k in t.kids
    ensures t.ref in h && k in h[t.ref] && h[t.ref][k] == CellOf(t.kids[k]) && Holds(t.kids[k], h)
  {
  }

  lemma KidIsMap(kid: Tree)
    requires CellOf(kid).Link?
    ensures kid.TNode? && CellOf(kid) == Link(kid.ref)
  {
  }

  lemma KidIsCopied(kid: Tree, copy: Tree)
    requires kid.TNode? && copy.TNode? && FieldsOf(copy) == FieldsOf(kid)
    ensures ValueOf(copy) == ValueOf(kid) && CellOf(copy) == Link(copy.ref)
  {
  }

  lemma LeafIsCopied(kid: Tree, h: Store)
    requires CellOf(kid).Scalar?
    ensures Nodes(kid) == {} && Unshared(kid) && ChangesOnly(h, h, {})
  {
  }

  lemma CopyHeld(t: Tree, c: Tree, done: set<string>, h: Store)
    requires t.TNode? && c.TNode? && CopiedSoFar(t, c, done, h)
    ensures c.ref in h
  {
  }

  /** One more entry of the copy: the kid is copied to maps that were not there before. */
  lemma CopiedNext(t: Tree, c: Tree, done: set<string>, k: string, kid: Tree, h: Store, h': Store, origin: Store)
    requires t.TNode? && Holds(t, h) && k in t.kids && k !in done
    requires c.TNode? && CopiedSoFar(t, c, done, h) && Nodes(c) !! origin.Keys
    requires c.ref !in Nodes(t) && c.ref !in origin
    requires ChangesOnly(origin, h, {}) && ChangesOnly(h, h', {})
    requires Holds(kid, h') && Unshared(kid) && Nodes(kid) !! h.Keys && ValueOf(kid) == ValueOf(t.kids[k])
    ensures c.ref in h'
    ensures var h'' := h'[c.ref := h'[c.ref][k := CellOf(kid)]];
            var c' := TNode(c.ref, c.kids[k := kid]);
            && CopiedSoFar(t, c', done + {k}, h'') && Nodes(c') !! origin.Keys
            && Holds(t, h'') && ChangesOnly(origin, h'', {})
  {
    CopyHeld(t, c, done, h);
    CopyApart(t, c, done, h);
    assert origin.Keys <= h.Keys <= h'.Keys;
    hide *;
    GrowHolds(h, h', c, k, kid);
    var c', cells := TNode(c.ref, c.kids[k := kid]), h'[c.ref][k := CellOf(kid)];
    WriteCell(origin, h, h', c.ref, cells);
    ApartStillHolds(t, h, h'[c.ref := cells], {c.ref});
    CopiedOneMore(t, c, done, k, kid, h, h'[c.ref := cells]);
  }

  lemma CopyApart(t: Tree, c: Tree, done: set<string>, h: Store)
    requires t.TNode? && c.TNode? && CopiedSoFar(t, c, done, h)
    ensures Holds(c, h) && Unshared(c) && c.kids.Keys == done
  {
    hide Holds, Unshared, ValueOf;
  }

  lemma WriteCell(origin: Store, h: Store, h': Store, r: Ref, cells: GoMap)
    requires ChangesOnly(origin, h, {}) && ChangesOnly(h, h', {}) && r in h && r !in origin
    ensures ChangesOnly(h, h'[r := cells], {r}) && ChangesOnly(origin, h'[r := cells], {})
  {
  }

  lemma CopiedOneMore(t: Tree, c: Tree, done: set<string>, k: string, kid: Tree, h: Store, h': Store)
    requires t.TNode? && c.TNode? && CopiedSoFar(t, c, done, h) && k in t.kids
    requires var c' := TNode(c.ref, c.kids[k := kid]); Unshared(c') && Holds(c', h')
    requires ValueOf(kid) == ValueOf(t.kids[k])
    ensures CopiedSoFar(t, TNode(c.ref, c.kids[k := kid]), done + {k}, h')
  {
    hide Holds, Unshared, ValueOf;
  }

  lemma HeldCells(t: Tree, h: Store)
    requires t.TNode? && Holds(t, h)
    ensures t.ref in h && h[t.ref].Keys == t.kids.Keys
  {
  }

  lemma CopiedNone(t: Tree, c: Tree, copy: Ref, h: Store, h': Store)
    requires t.TNode? && Holds(t, h) && copy !in h && h' == h[copy := map[]] && c == TNode(copy, map[])
    ensures CopiedSoFar(t, c, {}, h') && Nodes(c) !! h.Keys && copy !in Nodes(t)
    ensures ChangesOnly(h, h', {}) && Holds(t, h')
  {
    NodesInHeap(t, h);
    ApartStillHolds(t, h, h', {});
  }

  lemma CopiedAll(t: Tree, c: Tree, h: Store)
    requires t.TNode? && c.TNode? && CopiedSoFar(t, c, t.kids.Keys, h)
    ensures Holds(c, h) && Unshared(c) && FieldsOf(c) == FieldsOf(t)
  {
  }

  class Heap {
    var maps: Store
    /** No map lives at or above this reference yet. */
    var next: Ref

    ghost predicate Valid()
      reads this
    {
      forall r | r in maps :: r < next
    }

    constructor ()
      ensures Valid() && maps == map[]
    {
      maps, next := map[], 0;
    }

    /** A new empty map. */
    method Allocate() returns (r: Ref)
      requires Valid()
      modifies this
      ensures Valid() && r !in old(maps) && maps == old(maps)[r := map[]]
    {
      r := next;
      maps, next := maps[r := map[]], next + 1;
    }

    /** `deepCopy` of a map that is not nil: the same values in maps of its own. */
    method DeepCopy(from: Ref, ghost t: Tree) returns (copy: Ref, ghost c: Tree)
      requires Valid()
      requires t.TNode? && t.ref == from && Holds(t, maps)
      modifies this
      ensures Valid() && ChangesOnly(old(maps), maps, {})
      ensures c.TNode? && c.ref == copy && Holds(c, maps) && Unshared(c)
      ensures FieldsOf(c) == FieldsOf(t)
      ensures Nodes(c) !! old(maps.Keys)
      decreases t, 1
    {
      hide *;
      HeldCells(t, maps);
      var todo := maps[from].Keys;
      copy := Allocate();
      c := TNode(copy, map[]);
      CopiedNone(t, c, copy, old(maps), maps);
      ghost var done: set<string> := {};
      while todo != {}
        invariant Valid() && ChangesOnly(old(maps), maps, {}) && Holds(t, maps)
        invariant done !! todo && done + todo == t.kids.Keys
        invariant c.TNode? && c.ref == copy && CopiedSoFar(t, c, done, maps)
        invariant Nodes(c) !! old(maps.Keys)
        decreases |todo|
      {
        var k :| k in todo;
        c := CopyKey(from, copy, k, t, c, done, old(maps));
        todo, done := todo - {k}, done + {k};
      }
      assert done == t.kids.Keys;
      CopiedAll(t, c, maps);
    }

    /** The copy of one entry. */
    method CopyKey(from: Ref, copy: Ref, k: string, ghost t: Tree, ghost c: Tree, ghost done: set<string>,
                   ghost origin: Store) returns (ghost c': Tree)
      requires Valid() && ChangesOnly(origin, maps, {})
      requires t.TNode? && t.ref == from && Holds(t, maps) && k in t.kids && k !in done
      requires c.TNode? && c.ref == copy && CopiedSoFar(t, c, done, maps) && Nodes(c) !! origin.Keys
      requires copy !in Nodes(t) && copy !in origin
      modifies this
      ensures Valid() && ChangesOnly(origin, maps, {}) && Holds(t, maps)
      ensures c'.TNode? && c'.ref == copy && CopiedSoFar(t, c', done + {k}, maps) && Nodes(c') !! origin.Keys
      decreases t, 0
    {
      hide Holds, Unshared, Nodes, CopiedSoFar, ChangesOnly, Cells, CellOf, ValueOf, FieldsOf;
      KidHeld(t, maps, k);
      CopyHeld(t, c, done, maps);
      var v := maps[from][k];
      ghost var before, kid := maps, t.kids[k];
      var cell := v;
      if v.Link? {
        KidIsMap(t.kids[k]);
        var kidCopy;
        kidCopy, kid := DeepCopy(v.ref, t.kids[k]);
        cell := Link(kidCopy);
        KidIsCopied(t.kids[k], kid);
      } else {
        LeafIsCopied(t.kids[k], maps);
      }
      CopiedNext(t, c, done, k, kid, before, maps, origin);
      maps := maps[copy := maps[copy][k := cell]];
      c' := TNode(copy, c.kids[k := kid]);
    }

    /** `mergeValues`: keys in any order, recursion on the depth of the source. */
    method MergeValues(dest: Ref, src: Ref, ghost d: Tree, ghost s: Tree) returns (merged: Ref)
      requires d.TNode? && d.ref == dest && Holds(d, maps) && Unshared(d)
      requires s.TNode? && s.ref == src && Holds(s, maps)
      requires Nodes(d) !! Nodes(s)
      modifies this
      ensures merged == dest
      ensures Holds(MergeTree(d, s), maps)
      ensures ChangesOnly(old(maps), maps, Nodes(d))
      decreases s, 1
    {
      var todo := maps[src].Keys;
      PartialBounds(d, s);
      assert todo == s.kids.Keys;
      assert ChangesOnly(maps, maps, Nodes(d));
      hide *;
      while todo != {}
        invariant todo <= s.kids.Keys
        invariant Holds(Partial(d, s, todo), maps)
        invariant ChangesOnly(old(maps), maps, Nodes(d))
        decreases |todo|
      {
        var k :| k in todo;
        ghost var before := maps;
        ApartStillHolds(s, old(maps), maps, Nodes(d));
        MergeKey(dest, src, k, d, s, todo);
        ChangesOnlyTwice(old(maps), before, maps, Nodes(d));
        todo := todo - {k};
      }
      return dest;
    }

    /** One turn of the loop. */
    method MergeKey(dest: Ref, src: Ref, k: string, ghost d: Tree, ghost s: Tree, ghost todo: set<string>)
      requires d.TNode? && d.ref == dest && Unshared(d)
      requires s.TNode? && s.ref == src && Holds(s, maps)
      requires Nodes(d) !! Nodes(s)
      requires k in s.kids && k in todo && Holds(Partial(d, s, todo), maps)
      modifies this
      ensures Holds(Partial(d, s, todo - {k}), maps)
      ensures ChangesOnly(old(maps), maps, Nodes(d))
      decreases s, 0
    {
      ghost var before := Partial(d, s, todo);
      PartialApart(d, s, todo, k);
      PartialNext(d, s, todo, k);
      KidNodesBelow(s, k);
      var v := maps[src][k];
      assert v == CellOf(s.kids[k]) && Holds(s.kids[k], maps);
      assert dest in Nodes(d) && dest in maps && maps[dest] == Cells(before);
      assert k in d.kids ==> Holds(d.kids[k], maps) && Unshared(d.kids[k]) && Nodes(d.kids[k]) <= Nodes(d);
      hide Partial, MergeTree, Holds, Unshared, Nodes;
      if k !in maps[dest] || v.Scalar? || maps[dest][k].Scalar? {
        AssignHolds(maps, before, k, s.kids[k]);
        maps := maps[dest := maps[dest][k := v]];
      } else {
        var destMap := maps[dest][k].ref;
        var merged := MergeValues(destMap, v.ref, d.kids[k], s.kids[k]);
        ReplaceHolds(old(maps), maps, before, k, MergeTree(d.kids[k], s.kids[k]));
        SetSame(maps, dest, k, Link(merged));
        maps := maps[dest := maps[dest][k := Link(merged)]];
      }
    }

    /** The values a worker installs: a copy of the plan's, the overrides merged in, the URL set last. */
    method InstallValues(plan: Option<Ref>, overrides: Option<Ref>, url: string,
                         ghost p: Option<Tree>, ghost o: Option<Tree>) returns (out: Ref, ghost t: Tree)
      requires Valid() && Describes(plan, p, maps) && Describes(overrides, o, maps)
      modifies this
      ensures t.TNode? && t.ref == out && Holds(t, maps)
      ensures FieldsOf(t) == Merge(ReadFields(p), ReadFields(o))[ADDONS_REPOSITORY_URL := Leaf(url)]
      ensures ChangesOnly(old(maps), maps, {})
      ensures Describes(plan, p, maps) && Describes(overrides, o, maps)
    {
      out, t := CopyOrEmpty(plan, p);
      ghost var copied := maps;
      assert overrides.Some? ==> Holds(o.value, copied) by {
        if overrides.Some? { ApartStillHolds(o.value, old(maps), copied, {}); }
      }
      t := MergeOrKeep(out, overrides, t, o, old(maps));
      FieldsOfAssigned(t, ADDONS_REPOSITORY_URL, url);
      AssignHolds(maps, t, ADDONS_REPOSITORY_URL, TLeaf(url));
      maps := maps[out := maps[out][ADDONS_REPOSITORY_URL := Scalar(url)]];
      t := TNode(out, t.kids[ADDONS_REPOSITORY_URL := TLeaf(url)]);
      if plan.Some? { ApartStillHolds(p.value, old(maps), maps, {}); }
      if overrides.Some? { ApartStillHolds(o.value, old(maps), maps, {}); }
    }

    /** `deepCopy`: a nil map gives a new empty one. */
    method CopyOrEmpty(plan: Option<Ref>, ghost p: Option<Tree>) returns (out: Ref, ghost c: Tree)
      requires Valid() && Describes(plan, p, maps)
      modifies this
      ensures Valid() && ChangesOnly(old(maps), maps, {})
      ensures c.TNode? && c.ref == out && Holds(c, maps) && Unshared(c)
      ensures FieldsOf(c) == ReadFields(p)
      ensures Nodes(c) !! old(maps.Keys)
    {
      if plan.Some? {
        out, c := DeepCopy(plan.value, p.value);
      } else {
        out := Allocate();
        c := TNode(out, map[]);
      }
    }

    /** `mergeValues` with overrides that may be nil: nothing to range over then. */
    method MergeOrKeep(dest: Ref, overrides: Option<Ref>, ghost d: Tree, ghost o: Option<Tree>, ghost origin: Store)
      returns (ghost m: Tree)
      requires ChangesOnly(origin, maps, {})
      requires d.TNode? && d.ref == dest && Holds(d, maps) && Unshared(d) && Nodes(d) !! origin.Keys
      requires Describes(overrides, o, origin) && Describes(overrides, o, maps)
      modifies this
      ensures m.TNode? && m.ref == dest && Holds(m, maps)
      ensures FieldsOf(m) == Merge(FieldsOf(d), ReadFields(o))
      ensures forall j | j in m.kids :: dest !in Nodes(m.kids[j])
      ensures dest !in origin && ChangesOnly(origin, maps, {})
    {
      assert dest in Nodes(d);
      if overrides.Some? {
        NodesInHeap(o.value, origin);
        m := MergeTree(d, o.value);
        MergeRootApart(d, o.value);
        MergeTreeIsMerge(d, o.value);
        var _ := MergeValues(dest, overrides.value, d, o.value);
        ChangesNothing(origin, old(maps), maps, Nodes(d));
      } else {
        m := d;
        MergeEmptyRight(FieldsOf(d));
      }
    }
  }

  lemma ChangesNothing(h: Store, h': Store, h'': Store, refs: set<Ref>)
    requires ChangesOnly(h, h', {}) && ChangesOnly(h', h'', refs) && refs !! h.Keys
    ensures ChangesOnly(h, h'', {})
  {
  }

  lemma SetSame(h: Store, r: Ref, k: string, v: Cell)
    requires r in h && k in h[r] && h[r][k] == v
    ensures h[r := h[r][k := v]] == h
  {
    assert h[r][k := v] == h[r];
  }
}
