/** Which instances can end up with one Helm release: exactly those whose IDs differ by a gap. */
module LifecycleReleases {
  import opened Values
  import opened Operations
  import opened ReleaseNames
  import opened Lifecycle
  import opened LifecycleInvariant
  import opened LifecycleReach

  /** Both instances have records, with one release between them. */
  predicate ShareRelease(s: State, i: InstanceID, j: InstanceID) {
    i in s.instances && j in s.instances && s.instances[i].releaseName == s.instances[j].releaseName
  }

  lemma SharingIsBehindGap(s: State, i: InstanceID, j: InstanceID)
    requires Inv(s) && ShareRelease(s, i, j)
    ensures i == j || Behind(i, j) || Behind(j, i)
  {
    var r, t := s.instances[i], s.instances[j];
    assert NamedFor(r) && NamedFor(t);
    hide Inv, CreateReleaseName;
    var a, p :| r.releaseName == CreateReleaseName(a, p, r.id);
    var b, q :| t.releaseName == CreateReleaseName(b, q, t.id);
    assert CanShare(i, j);
    CanShareIff(i, j);
  }

  /** An addon with one plan, and a request for it. */
  function OnePlan(s: State, id: ServiceID, name: string, plan: string): Addon {
    Addon(id, name, id in s.once, map["plan" := plan])
  }

  function RequestFor(i: InstanceID, id: ServiceID): ProvisionRequest {
    ProvisionRequest(i, id, "plan", true, Some("default"), RequestParameters(None))
  }

  /** The first instance alone. */
  lemma ReachesOne(s: State, i: InstanceID, name: string, plan: string) returns (t: State)
    requires Initial(s) && i != ""
    ensures Reaches(true, s, t) && Inv(t) && t.prov == PIdle && t.deprov == DIdle && t.once == s.once
    ensures forall j, o | Has(t.ops, j, o) :: j == i
    ensures t.instances.Keys == {i} && t.instances[i].serviceID == "x"
    ensures t.instances[i].releaseName == CreateReleaseName(name, plan, i)
  {
    hide Reaches, CreateReleaseName, Step;
    InitialInv(s);
    t := ReachesCreated(true, s, RequestFor(i, "x"), OnePlan(s, "x", name, plan), "first");
    hide Inv;
    ReachesKeeps(true, s, t);
  }

  /** Another instance, of another service. */
  lemma ReachesTwo(s: State, i: InstanceID, j: InstanceID, y: Addon) returns (t: State)
    requires Inv(s) && s.prov == PIdle && s.deprov == DIdle && i != j && j != "" && i in s.instances
    requires forall o :: !Has(s.ops, j, o)
    requires Allows(s, RequestFor(j, y.id), y) && "plan" in y.plans
    ensures Reaches(true, s, t) && i in t.instances && t.instances[i] == s.instances[i]
    ensures j in t.instances && t.instances[j].releaseName == CreateReleaseName(y.name, y.plans["plan"], j)
  {
    InvKeys(s);
    UnknownInstance(s.ops, j);
    hide Inv, Reaches, CreateReleaseName, Step, KeysOK, Provisioned, Allows, Extends;
    t := ReachesCreated(true, s, RequestFor(j, y.id), y, "second");
  }

  lemma UnknownInstance(ops: Store, j: InstanceID)
    requires forall o :: !Has(ops, j, o)
    ensures !Provisioned(ops, j) && forall o :: !Active(ops, j, o)
  {
  }

  lemma AnotherService(s: State, i: InstanceID, req: ProvisionRequest, y: Addon)
    requires s.instances.Keys == {i} && s.instances[i].serviceID != y.id
    requires req.namespace.Some? && y.id == req.serviceID && (y.provisionOnlyOnce <==> y.id in s.once)
    ensures Allows(s, req, y)
  {
    forall k | k in s.instances ensures s.instances[k].serviceID != y.id {
      assert k in s.instances.Keys;
    }
  }

  /** Two instances whose names can collide are provisioned one after the other. */
  lemma ReachesSharing(s: State, i: InstanceID, j: InstanceID) returns (final: State)
    requires Initial(s) && i != j && i != "" && j != "" && CanShare(i, j)
    ensures Reaches(true, s, final) && ShareRelease(final, i, j)
  {
    hide Reaches, CreateReleaseName, Inv;
    var a, p, b, q :| CreateReleaseName(a, p, i) == CreateReleaseName(b, q, j);
    var t := ReachesOne(s, i, a, p);
    var y := OnePlan(s, "y", b, q);
    AnotherService(t, i, RequestFor(j, "y"), y);
    hide Allows;
    final := ReachesTwo(t, i, j, y);
    ReachesTransitive(true, s, t, final);
  }

  /**
   From the beginning there is a run to a state in which two different instances share a release, if and only if one
   ID is the other behind a gap.
   */
  lemma SharedReleaseIff(s: State, i: InstanceID, j: InstanceID)
    requires Initial(s) && i != j && i != "" && j != ""
    ensures (exists final :: Reaches(false, s, final) && ShareRelease(final, i, j)) <==> Behind(i, j) || Behind(j, i)
  {
    hide Behind, CreateReleaseName;
    InitialInv(s);
    hide Inv, Initial;
    forall final | Reaches(false, s, final) && ShareRelease(final, i, j) ensures Behind(i, j) || Behind(j, i) {
      ReachesKeeps(false, s, final);
      SharingIsBehindGap(final, i, j);
    }
    if Behind(i, j) || Behind(j, i) {
      CanShareIff(i, j);
      var final := ReachesSharing(s, i, j);
      ReachesFreely(s, final);
    }
  }
}
