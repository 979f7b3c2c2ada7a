/**
 Chart values and request parameters: trees of string-keyed maps whose leaves are everything
 that is not a map (scalars and lists), and the recursive merge of two such trees.
 */
module Values {

  datatype Option<+T> = None | Some(value: T)

  datatype Value = Leaf(json: string) | Map(fields: Fields)

  type Fields = map<string, Value>

  /** The merge: `src` wins, except that where both sides hold a map the two maps are merged. */
  function Merge(dest: Fields, src: Fields): (merged: Fields)
    ensures merged.Keys == dest.Keys + src.Keys
    decreases Map(src)
  {
    map k | k in dest.Keys + src.Keys :: MergeAtKey(dest, src, k)
  }

  /** What the merge stores under the single key `k`. */
  function MergeAtKey(dest: Fields, src: Fields, k: string): Value
    requires k in dest || k in src
    decreases Map(src), 0
  {
    if k !in src then dest[k]
    else if k in dest && dest[k].Map? && src[k].Map? then
      assert src[k] == Map(src).fields[k];
      Map(Merge(dest[k].fields, src[k].fields))
    else src[k]
  }

  lemma {:induction false} MergeEmptyRight(dest: Fields)
    ensures Merge(dest, map[]) == dest
  {
    var merged := Merge(dest, map[]);
    assert forall k | k in dest :: merged[k] == MergeAtKey(dest, map[], k) == dest[k];
  }

  lemma {:induction false} MergeEmptyLeft(src: Fields)
    ensures Merge(map[], src) == src
  {
    var merged := Merge(map[], src);
    assert forall k | k in src :: merged[k] == MergeAtKey(map[], src, k) == src[k];
  }

  // ----- every path -----

  /** The value a tree holds at the end of a path of keys; the empty path is the tree itself. */
  function At(tree: Fields, path: seq<string>): Option<Value>
    decreases |path|
  {
    if path == [] then Some(Map(tree))
    else if path[0] !in tree then None
    else if |path| == 1 then Some(tree[path[0]])
    else match tree[path[0]]
      case Leaf(_) => None
      case Map(fields) => At(fields, path[1..])
  }

  /** Some proper, non-empty prefix of the path ends in a non-map: the tree cuts the path off. */
  predicate CutsOff(tree: Fields, path: seq<string>)
    decreases |path|
  {
    |path| >= 2 && path[0] in tree &&
    match tree[path[0]]
    case Leaf(_) => true
    case Map(fields) => CutsOff(fields, path[1..])
  }

  /** Which of the two values found at one path survives the merge. */
  function Survivor(inDest: Option<Value>, inSrc: Option<Value>): Option<Value> {
    match (inDest, inSrc)
    case (_, None) => inDest
    case (Some(Map(a)), Some(Map(b))) => Some(Map(Merge(a, b)))
    case (_, _) => inSrc
  }

  /** The merge described from outside, path by path. */
  lemma {:induction false} MergeAt(dest: Fields, src: Fields, path: seq<string>)
    ensures At(Merge(dest, src), path) ==
            if CutsOff(src, path) then None else Survivor(At(dest, path), At(src, path))
    decreases |path|
  {
    if path != [] && (path[0] in dest || path[0] in src) {
      var k := path[0];
      assert Merge(dest, src)[k] == MergeAtKey(dest, src, k);
      if |path| > 1 && k in dest && k in src && dest[k].Map? && src[k].Map? {
        MergeAt(dest[k].fields, src[k].fields, path[1..]);
      } else if |path| > 1 && k in dest && k !in src {
        assert At(src, path) == None;
      } else if |path| > 1 && k in src && src[k].Map? {
        NoBothCutAndFound(src[k].fields, path[1..]);
        assert At(dest, path) == None;
      }
    }
  }

  lemma {:induction false} NoBothCutAndFound(tree: Fields, path: seq<string>)
    ensures CutsOff(tree, path) ==> At(tree, path) == None
    decreases |path|
  {
    if |path| >= 2 && path[0] in tree && tree[path[0]].Map? {
      NoBothCutAndFound(tree[path[0]].fields, path[1..]);
    }
  }

  /** Every leaf of `src` is in the result, whatever `dest` holds. */
  lemma MergeKeepsSourceLeaves(dest: Fields, src: Fields, path: seq<string>)
    requires At(src, path).Some? && At(src, path).value.Leaf?
    ensures At(Merge(dest, src), path) == At(src, path)
  {
    MergeAt(dest, src, path);
    NoBothCutAndFound(src, path);
  }

  /** A leaf of `dest` survives exactly when `src` neither defines its path nor cuts it off. */
  lemma MergeKeepsDestLeaves(dest: Fields, src: Fields, path: seq<string>)
    requires At(dest, path).Some? && At(dest, path).value.Leaf?
    ensures !CutsOff(src, path) && At(src, path) == None ==> At(Merge(dest, src), path) == At(dest, path)
    ensures CutsOff(src, path) ==> At(Merge(dest, src), path) == None
    ensures At(src, path).Some? ==> At(Merge(dest, src), path) == At(src, path)
  {
    MergeAt(dest, src, path);
    NoBothCutAndFound(src, path);
  }

  // ----- absorption, idempotence, associativity -----

  /** `outer` already covers everything `inner` could contribute when merged below it. */
  predicate Absorbed(inner: Fields, outer: Fields)
    decreases Map(outer)
  {
    forall k | k in inner ::
      k in outer &&
      (inner[k].Map? && outer[k].Map? ==>
         (assert outer[k] == Map(outer).fields[k]; Absorbed(inner[k].fields, outer[k].fields)))
  }

  lemma {:induction false} AbsorbedIffMergeIsSource(dest: Fields, src: Fields)
    ensures Absorbed(dest, src) <==> Merge(dest, src) == src
    decreases Map(src)
  {
    var merged := Merge(dest, src);
    forall k | k in dest && k in src && dest[k].Map? && src[k].Map?
      ensures Absorbed(dest[k].fields, src[k].fields) <==> MergeAtKey(dest, src, k) == src[k]
    {
      assert src[k] == Map(src).fields[k];
      AbsorbedIffMergeIsSource(dest[k].fields, src[k].fields);
    }
    assert forall k | k in merged :: merged[k] == MergeAtKey(dest, src, k);
    if Absorbed(dest, src) {
      assert merged.Keys == src.Keys;
      assert forall k | k in src :: merged[k] == src[k];
    }
    if merged == src {
      assert forall k | k in dest :: k in merged;
    }
  }

  lemma {:induction false} MergeIdempotent(dest: Fields, src: Fields)
    ensures Merge(Merge(dest, src), src) == Merge(dest, src)
    decreases Map(src)
  {
    var once := Merge(dest, src);
    var twice := Merge(once, src);
    forall k | k in once
      ensures twice[k] == once[k]
    {
      assert once[k] == MergeAtKey(dest, src, k);
      assert twice[k] == MergeAtKey(once, src, k);
      if k in src && src[k].Map? {
        assert src[k] == Map(src).fields[k];
        if k in dest && dest[k].Map? {
          MergeIdempotent(dest[k].fields, src[k].fields);
        } else {
          MergeEmptyLeft(src[k].fields);
          MergeIdempotent(map[], src[k].fields);
        }
      }
    }
  }

  /** No path has maps in `a` and `c` and a non-map in `b`, unless `c` absorbs what `a` has there. */
  predicate Associable(a: Fields, b: Fields, c: Fields)
    decreases Map(c)
  {
    forall k | k in a && k in b && k in c && a[k].Map? && c[k].Map? ::
      assert c[k] == Map(c).fields[k];
      match b[k]
      case Leaf(_) => Absorbed(a[k].fields, c[k].fields)
      case Map(middle) => Associable(a[k].fields, middle, c[k].fields)
  }

  /** Regrouping merges is harmless exactly for the associable triples. */
  lemma {:induction false} MergeAssociativeIff(a: Fields, b: Fields, c: Fields)
    ensures Associable(a, b, c) <==> Merge(Merge(a, b), c) == Merge(a, Merge(b, c))
    decreases Map(c)
  {
    var left, right := Merge(Merge(a, b), c), Merge(a, Merge(b, c));
    forall k | k in left
      ensures (left[k] == right[k]) <==> AssociableAt(a, b, c, k)
    {
      AssociativeAtKey(a, b, c, k);
    }
    assert Associable(a, b, c) <==> forall k | k in left :: AssociableAt(a, b, c, k);
    if left == right {
      assert forall k | k in left :: AssociableAt(a, b, c, k);
    }
  }

  predicate AssociableAt(a: Fields, b: Fields, c: Fields, k: string) {
    k in a && k in b && k in c && a[k].Map? && c[k].Map? ==>
      match b[k]
      case Leaf(_) => Absorbed(a[k].fields, c[k].fields)
      case Map(middle) => Associable(a[k].fields, middle, c[k].fields)
  }

  lemma {:induction false} AssociativeAtKey(a: Fields, b: Fields, c: Fields, k: string)
    requires k in a || k in b || k in c
    ensures (Merge(Merge(a, b), c)[k] == Merge(a, Merge(b, c))[k]) <==> AssociableAt(a, b, c, k)
    decreases Map(c), 0
  {
    var ab, bc := Merge(a, b), Merge(b, c);
    assert k in a || k in b ==> ab[k] == MergeAtKey(a, b, k);
    assert k in b || k in c ==> bc[k] == MergeAtKey(b, c, k);
    assert Merge(ab, c)[k] == MergeAtKey(ab, c, k);
    assert Merge(a, bc)[k] == MergeAtKey(a, bc, k);
    if k in a && k in b && k in c && a[k].Map? && c[k].Map? {
      assert c[k] == Map(c).fields[k];
      match b[k]
      case Leaf(_) => AbsorbedIffMergeIsSource(a[k].fields, c[k].fields);
      case Map(middle) => MergeAssociativeIff(a[k].fields, middle, c[k].fields);
    }
  }

  /** The plain sufficient condition: the middle tree never has a non-map between two maps. */
  predicate NeverSplits(a: Fields, b: Fields, c: Fields)
    decreases Map(c)
  {
    forall k | k in a && k in b && k in c && a[k].Map? && c[k].Map? ::
      assert c[k] == Map(c).fields[k];
      b[k].Map? && NeverSplits(a[k].fields, b[k].fields, c[k].fields)
  }

  lemma {:induction false} MergeAssociative(a: Fields, b: Fields, c: Fields)
    requires NeverSplits(a, b, c)
    ensures Merge(Merge(a, b), c) == Merge(a, Merge(b, c))
  {
    NeverSplitsIsAssociable(a, b, c);
    MergeAssociativeIff(a, b, c);
  }

  lemma {:induction false} NeverSplitsIsAssociable(a: Fields, b: Fields, c: Fields)
    requires NeverSplits(a, b, c)
    ensures Associable(a, b, c)
    decreases Map(c)
  {
    forall k | k in a && k in b && k in c && a[k].Map? && c[k].Map?
      ensures b[k].Map? && Associable(a[k].fields, b[k].fields, c[k].fields)
    {
      assert c[k] == Map(c).fields[k];
      NeverSplitsIsAssociable(a[k].fields, b[k].fields, c[k].fields);
    }
  }

  /** The law does fail without the condition: the middle leaf wipes out what the left map held. */
  lemma MergeNotAssociative()
    ensures var a: Fields := map["x" := Map(map["kept" := Leaf("1")])];
            var b: Fields := map["x" := Leaf("2")];
            var c: Fields := map["x" := Map(map[])];
            Merge(Merge(a, b), c) != Merge(a, Merge(b, c))
  {
    var a: Fields := map["x" := Map(map["kept" := Leaf("1")])];
    var b: Fields := map["x" := Leaf("2")];
    var c: Fields := map["x" := Map(map[])];
    var inner, outer := a["x"].fields, c["x"].fields;
    assert "kept" in inner && "kept" !in outer;
    assert !Absorbed(inner, outer);
    assert !Associable(a, b, c);
    MergeAssociativeIff(a, b, c);
  }
}
