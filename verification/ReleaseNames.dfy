/** Helm release names; strings are sequences of bytes. */
module ReleaseNames {

  const MAX_PART: nat := 6

  function TrimLeft(s: string): (t: string)
    ensures |t| <= |s| && t == s[|s| - |t|..]
    ensures forall n | 0 <= n < |s| - |t| :: s[n] == '-'
    ensures t == "" || t[0] != '-'
  {
    if s != "" && s[0] == '-' then TrimLeft(s[1..]) else s
  }

  function TrimRight(s: string): (t: string)
    ensures |t| <= |s| && t == s[..|t|]
    ensures forall n | |t| <= n < |s| :: s[n] == '-'
    ensures t == "" || t[|t| - 1] != '-'
  {
    if s != "" && s[|s| - 1] == '-' then TrimRight(s[..|s| - 1]) else s
  }

  /** The first six bytes of a name without the dashes at either end. */
  function Normalize(name: string): (part: string)
    ensures Normal(part)
  {
    TrimRight(TrimLeft(Cut(name)))
  }

  function Cut(name: string): string {
    if |name| > MAX_PART then name[..MAX_PART] else name
  }

  /** What normalizing leaves: short, with no dash at either end. */
  predicate Normal(part: string) {
    |part| <= MAX_PART && (part == "" || (part[0] != '-' && part[|part| - 1] != '-'))
  }

  /** `part` is `s` but for dashes at the ends. */
  ghost predicate Trims(s: string, part: string) {
    exists n: nat :: TrimsAt(s, part, n)
  }

  ghost predicate TrimsAt(s: string, part: string, n: nat) {
    && n + |part| <= |s| && s[n..n + |part|] == part
    && (forall k | 0 <= k < n :: s[k] == '-')
    && (forall k | n + |part| <= k < |s| :: s[k] == '-')
  }

  /** Nothing but dashes is lost, and those at the ends only. */
  lemma NormalizeTrims(name: string)
    ensures Trims(Cut(name), Normalize(name))
  {
    var left := TrimLeft(Cut(name));
    TrimBoth(Cut(name), left, TrimRight(left));
  }

  lemma TrimBoth(s: string, left: string, both: string)
    requires |both| <= |left| <= |s| && left == s[|s| - |left|..] && both == left[..|both|]
    requires forall n | 0 <= n < |s| - |left| :: s[n] == '-'
    requires forall n | |both| <= n < |left| :: left[n] == '-'
    ensures Trims(s, both)
  {
    var n := |s| - |left|;
    assert forall k | n <= k < |s| :: s[k] == left[k - n];
    assert s[n..n + |both|] == both;
    assert TrimsAt(s, both, n);
  }

  function CreateReleaseName(addon: string, plan: string, instanceID: string): string {
    "hb-" + Normalize(addon) + "-" + Normalize(plan) + "-" + instanceID
  }

  /** The addon, then the plan, then the instance, each part trimmed as above; short tidy names stay as they are. */
  lemma ReleaseNameShape(addon: string, plan: string, instanceID: string)
    ensures exists a, p :: Trims(Cut(addon), a) && Trims(Cut(plan), p)
                           && CreateReleaseName(addon, plan, instanceID) == "hb-" + a + "-" + p + "-" + instanceID
    ensures Normal(addon) && Normal(plan) ==>
              CreateReleaseName(addon, plan, instanceID) == "hb-" + addon + "-" + plan + "-" + instanceID
  {
    NormalizeTrims(addon);
    NormalizeTrims(plan);
    hide Trims, TrimLeft, TrimRight;
    NormalStays(addon);
    NormalStays(plan);
    hide Normalize, Normal;
  }

  lemma NormalStays(part: string)
    ensures Normal(part) ==> Normalize(part) == part
  {
  }

  /** Helm's limit of 53 bytes holds for every addon and plan name once IDs have 36 bytes. */
  lemma ReleaseNameFits(addon: string, plan: string, instanceID: string)
    requires |instanceID| == 36
    ensures |CreateReleaseName(addon, plan, instanceID)| <= 53
  {
  }

  /** Equal names mean equal instance IDs, whatever dashes the other parts contain or lose. */
  lemma ReleaseNameIdentifies(a: string, p: string, i: string, b: string, q: string, j: string)
    requires |i| == |j|
    requires CreateReleaseName(a, p, i) == CreateReleaseName(b, q, j)
    ensures i == j
  {
    var x := "hb-" + Normalize(a) + "-" + Normalize(p) + "-";
    var y := "hb-" + Normalize(b) + "-" + Normalize(q) + "-";
    assert (x + i)[|x|..] == i;
    assert (y + j)[|y|..] == j;
  }

  // ----- which instances can share a name -----

  /** What can come, with a dash behind it, before an instance ID and be taken for the end of a plan name. */
  predicate Gap(z: string) {
    || (0 < |z| <= 4 && z[|z| - 1] != '-')
    || Normal(z)
    || (exists n | 0 < n <= 3 && n < |z| :: z[n] == '-' && z[n - 1] != '-' && Normal(z[n + 1..]))
  }

  /** `j` is `i` behind such a gap. */
  predicate Behind(i: string, j: string) {
    && |i| < |j| && j[|j| - |i|..] == i && j[|j| - |i| - 1] == '-'
    && Gap(j[..|j| - |i| - 1])
  }

  /** Some addons and plans give both instances one name. */
  ghost predicate CanShare(i: string, j: string) {
    exists a, p, b, q :: CreateReleaseName(a, p, i) == CreateReleaseName(b, q, j)
  }

  /** Two parts with dashes, read in two ways, the second with something left over: what can be left over. */
  lemma LeftOverIsGap(a: string, p: string, b: string, q: string, z: string)
    requires Normal(a) && Normal(p) && Normal(b) && Normal(q)
    requires a + "-" + p == b + "-" + q + "-" + z
    ensures Gap(z)
  {
    var s, used := a + "-" + p, |b| + 1 + |q|;
    assert s[|a|] == '-' && s[|b|] == '-' && s[used] == '-';
    assert forall k | 0 <= k < |a| :: s[k] == a[k];
    assert forall k | 0 <= k < |b| :: s[k] == b[k];
    assert forall k | 0 <= k < |q| :: s[|b| + 1 + k] == q[k];
    assert forall k | 0 <= k < |p| :: s[|a| + 1 + k] == p[k];
    assert forall k | 0 <= k < |z| :: s[used + 1 + k] == z[k];
    assert |s| == |a| + 1 + |p| == used + 1 + |z|;
    if |a| < used {
      EndsInPlan(a, p, b, q, z, s);
    } else if |a| == used {
      assert p == s[|a| + 1..] == z;
    } else {
      EndsInAddon(a, p, b, q, z, s);
    }
  }

  lemma EndsInPlan(a: string, p: string, b: string, q: string, z: string, s: string)
    requires Normal(a) && Normal(p) && Normal(b) && Normal(q)
    requires s == a + "-" + p == b + "-" + q + "-" + z && |a| < |b| + 1 + |q|
    ensures 0 < |z| <= 4 && z[|z| - 1] != '-'
  {
    var used := |b| + 1 + |q|;
    assert s[|a|] == '-' && s[used] == '-';
    assert p == s[|a| + 1..];
    assert p[used - |a| - 1] == s[used];
    assert |a| + 1 < used;
    assert p[|p| - 1] == s[|s| - 1];
    assert |z| > 0 ==> z[|z| - 1] == s[|s| - 1];
  }

  lemma EndsInAddon(a: string, p: string, b: string, q: string, z: string, s: string)
    requires Normal(a) && Normal(p) && Normal(b) && Normal(q)
    requires s == a + "-" + p == b + "-" + q + "-" + z && |a| > |b| + 1 + |q|
    ensures Gap(z)
  {
    var used := |b| + 1 + |q|;
    var n := |a| - used - 1;
    assert a[0] == s[0] && s[|b|] == '-';
    assert a[|a| - 1] == s[|a| - 1] && s[used] == '-' && s[|a|] == '-';
    assert n > 0;
    assert z == s[used + 1..] && p == s[|a| + 1..];
    assert z[n] == s[|a|] && z[n - 1] == s[|a| - 1] && z[n + 1..] == p;
  }

  /** Every gap is left over by some parts. */
  lemma GapIsLeftOver(z: string) returns (a: string, p: string, b: string, q: string)
    requires Gap(z)
    ensures Normal(a) && Normal(p) && Normal(b) && Normal(q)
    ensures a + "-" + p == b + "-" + q + "-" + z
  {
    if 0 < |z| <= 4 && z[|z| - 1] != '-' {
      a, p, b, q := "a", "b-" + z, "a", "b";
    } else if Normal(z) {
      a, p, b, q := "a-b", z, "a", "b";
    } else {
      var n :| 0 < n <= 3 && n < |z| && z[n] == '-' && z[n - 1] != '-' && Normal(z[n + 1..]);
      a, p, b, q := "a--" + z[..n], z[n + 1..], "a", "";
      assert z == z[..n] + "-" + z[n + 1..];
    }
  }

  function Parts(addon: string, plan: string): string {
    Normalize(addon) + "-" + Normalize(plan)
  }

  lemma NameShape(a: string, p: string, i: string)
    ensures CreateReleaseName(a, p, i) == "hb-" + (Parts(a, p) + "-" + i)
  {
    hide Normalize;
  }

  lemma DropHead(x: string, y: string)
    requires "hb-" + x == "hb-" + y
    ensures x == y
  {
    assert x == ("hb-" + x)[3..] == ("hb-" + y)[3..] == y;
  }

  /** The longer ID starts with what is left over. */
  lemma Peel(u: string, i: string, v: string, j: string)
    requires |i| < |j| && u + "-" + i == v + "-" + j
    ensures j[|j| - |i|..] == i && j[|j| - |i| - 1] == '-'
    ensures u == v + "-" + j[..|j| - |i| - 1]
  {
    var s := u + "-" + i;
    assert i == s[|s| - |i|..] && j == s[|s| - |j|..];
    assert s[|u|] == '-' && |u| == |s| - |i| - 1;
    assert u == s[..|u|];
    assert (v + "-" + j)[..|u|] == v + "-" + j[..|j| - |i| - 1];
  }

  /** Of two different instances that share a name one is the other behind a gap. */
  lemma SharingNeedsGap(a: string, p: string, i: string, b: string, q: string, j: string)
    requires |i| < |j| && CreateReleaseName(a, p, i) == CreateReleaseName(b, q, j)
    ensures Behind(i, j)
  {
    NameShape(a, p, i);
    NameShape(b, q, j);
    hide CreateReleaseName;
    DropHead(Parts(a, p) + "-" + i, Parts(b, q) + "-" + j);
    Peel(Parts(a, p), i, Parts(b, q), j);
    LeftOverIsGap(Normalize(a), Normalize(p), Normalize(b), Normalize(q), j[..|j| - |i| - 1]);
  }

  lemma GapAllowsSharing(i: string, j: string)
    requires Behind(i, j)
    ensures CanShare(i, j)
  {
    var z := j[..|j| - |i| - 1];
    var a, p, b, q := GapIsLeftOver(z);
    NormalStays(a);
    NormalStays(p);
    NormalStays(b);
    NormalStays(q);
    assert Parts(a, p) == Parts(b, q) + "-" + z;
    hide Normalize, Gap, Normal, Parts, CreateReleaseName;
    NameShape(a, p, i);
    NameShape(b, q, j);
    Rejoin(Parts(b, q), z, i, j);
  }

  lemma Rejoin(v: string, z: string, i: string, j: string)
    requires |i| < |j| && j[|j| - |i|..] == i && j[|j| - |i| - 1] == '-' && z == j[..|j| - |i| - 1]
    ensures v + "-" + z + "-" + i == v + "-" + j
  {
    assert j == z + "-" + i;
  }

  /** Two instances can share a release name exactly when they are one, or one is the other behind a gap. */
  lemma CanShareIff(i: string, j: string)
    ensures CanShare(i, j) <==> i == j || Behind(i, j) || Behind(j, i)
  {
    hide CreateReleaseName, Behind;
    if a, p, b, q :| CreateReleaseName(a, p, i) == CreateReleaseName(b, q, j) {
      if |i| == |j| {
        ReleaseNameIdentifies(a, p, i, b, q, j);
      } else if |i| < |j| {
        SharingNeedsGap(a, p, i, b, q, j);
      } else {
        SharingNeedsGap(b, q, j, a, p, i);
      }
    }
    if i == j {
      assert CreateReleaseName("", "", i) == CreateReleaseName("", "", j);
    } else if Behind(i, j) {
      GapAllowsSharing(i, j);
    } else if Behind(j, i) {
      GapAllowsSharing(j, i);
      var a, p, b, q :| CreateReleaseName(a, p, j) == CreateReleaseName(b, q, i);
      assert CreateReleaseName(b, q, i) == CreateReleaseName(a, p, j);
    }
  }
}
