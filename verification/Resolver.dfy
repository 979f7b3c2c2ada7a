/**
 Resolving the credentials of a binding. The bind file lists whole sources (`credentialFrom`) and
 single entries (`credential`); the namespace of the cluster is what they are read from.
 */
module Resolver {
  import opened Values

  type Credentials = map<string, string>

  datatype KeyRef = KeyRef(name: string, key: string)

  datatype FromSource = FromSource(configMapRef: Option<string>, secretRef: Option<string>)

  datatype VarSource = VarSource(
    configMapKeyRef: Option<KeyRef>,
    secretKeyRef: Option<KeyRef>,
    serviceRef: Option<KeyRef>)

  datatype Var = Var(name: string, value: string, valueFrom: Option<VarSource>)

  datatype BindFile = BindFile(credential: seq<Var>, credentialFrom: seq<FromSource>)

  /** One namespace; `services` holds the JSONPath expressions that evaluate, under service and path. */
  datatype Cluster = Cluster(
    configMaps: map<string, Credentials>,
    secrets: map<string, Credentials>,
    services: map<KeyRef, string>)

  datatype Error = Unreadable | Conflict(name: string)

  datatype Resolution = Resolved(credentials: Credentials) | Refused(error: Error)

  // ----- reading the cluster -----

  function Lookup<K, V>(m: map<K, V>, k: K): Option<V> {
    if k in m then Some(m[k]) else None
  }

  /** A config map is preferred to a secret; a source naming neither is invalid. */
  function SourceValues(cluster: Cluster, from: FromSource): Option<Credentials> {
    if from.configMapRef.Some? then Lookup(cluster.configMaps, from.configMapRef.value)
    else if from.secretRef.Some? then Lookup(cluster.secrets, from.secretRef.value)
    else None
  }

  function LookupKey(objects: map<string, Credentials>, ref: KeyRef): Option<string> {
    if ref.name in objects then Lookup(objects[ref.name], ref.key) else None
  }

  /** For one key it is the secret that is preferred, then the config map, then the service. */
  function VarValue(cluster: Cluster, from: VarSource): Option<string> {
    if from.secretKeyRef.Some? then LookupKey(cluster.secrets, from.secretKeyRef.value)
    else if from.configMapKeyRef.Some? then LookupKey(cluster.configMaps, from.configMapKeyRef.value)
    else if from.serviceRef.Some? then Lookup(cluster.services, from.serviceRef.value)
    else None
  }

  // ----- the promise -----

  /** An entry with neither a value nor a source is skipped. */
  predicate Effective(v: Var) {
    v.value != "" || v.valueFrom.Some?
  }

  /** What an effective entry stands for; a literal value hides its `valueFrom`. */
  function EntryValue(cluster: Cluster, v: Var): Option<string>
    requires Effective(v)
  {
    if v.value != "" then Some(v.value) else VarValue(cluster, v.valueFrom.value)
  }

  ghost predicate SourcesReadable(cluster: Cluster, from: seq<FromSource>) {
    forall i | 0 <= i < |from| :: SourceValues(cluster, from[i]).Some?
  }

  ghost predicate EntriesReadable(cluster: Cluster, vars: seq<Var>) {
    forall i | 0 <= i < |vars| && Effective(vars[i]) :: EntryValue(cluster, vars[i]).Some?
  }

  ghost predicate NamesDistinct(vars: seq<Var>) {
    forall i, j | 0 <= i < j < |vars| && Effective(vars[i]) && Effective(vars[j]) :: vars[i].name != vars[j].name
  }

  ghost predicate Repeated(vars: seq<Var>, k: string) {
    exists i, j | 0 <= i < j < |vars| :: Effective(vars[i]) && Effective(vars[j]) && vars[i].name == k == vars[j].name
  }

  ghost predicate HasEntry(vars: seq<Var>, k: string) {
    exists i | 0 <= i < |vars| :: Effective(vars[i]) && vars[i].name == k
  }

  /** The source at position `i` has the key. */
  ghost predicate Offers(cluster: Cluster, from: seq<FromSource>, i: nat, k: string) {
    i < |from| && SourceValues(cluster, from[i]).Some? && k in SourceValues(cluster, from[i]).value
  }

  ghost predicate HasSource(cluster: Cluster, from: seq<FromSource>, k: string) {
    exists i: nat :: Offers(cluster, from, i, k)
  }

  /** ... and no later one does. */
  ghost predicate OffersLast(cluster: Cluster, from: seq<FromSource>, i: nat, k: string) {
    Offers(cluster, from, i, k) && forall j | i < j < |from| :: !Offers(cluster, from, j, k)
  }

  /** Policy 1: of the sources that have a key the last one counts, and nothing else is there. */
  ghost predicate LastSourceWins(cluster: Cluster, from: seq<FromSource>, creds: Credentials) {
    && (forall k :: k in creds <==> HasSource(cluster, from, k))
    && (forall i: nat, k | OffersLast(cluster, from, i, k) ::
          creds[k] == SourceValues(cluster, from[i]).value[k])
  }

  /** Policies 1 and 3: entries override sources. */
  ghost predicate Meets(cluster: Cluster, bind: BindFile, creds: Credentials) {
    && (forall k :: k in creds <==> HasEntry(bind.credential, k) || HasSource(cluster, bind.credentialFrom, k))
    && (forall i | 0 <= i < |bind.credential| && Effective(bind.credential[i]) ::
          Lookup(creds, bind.credential[i].name) == EntryValue(cluster, bind.credential[i]))
    && (forall i: nat, k | !HasEntry(bind.credential, k) && OffersLast(cluster, bind.credentialFrom, i, k) ::
          creds[k] == SourceValues(cluster, bind.credentialFrom[i]).value[k])
  }

  /** Some source offers the key last. */
  lemma {:induction false} LastOffer(cluster: Cluster, from: seq<FromSource>, k: string, start: nat) returns (i: nat)
    requires Offers(cluster, from, start, k)
    ensures OffersLast(cluster, from, i, k)
    decreases |from| - start
  {
    if j :| start < j < |from| && Offers(cluster, from, j, k) {
      i := LastOffer(cluster, from, k, j);
    } else {
      i := start;
    }
  }

  /** The promise leaves no freedom: whatever order the maps are ranged over, the answer is the same. */
  lemma ResolutionIsUnique(cluster: Cluster, bind: BindFile, a: Credentials, b: Credentials)
    requires Meets(cluster, bind, a) && Meets(cluster, bind, b)
    ensures a == b
  {
    forall k | k in a ensures a[k] == b[k] {
      if HasEntry(bind.credential, k) {
        var i :| 0 <= i < |bind.credential| && Effective(bind.credential[i]) && bind.credential[i].name == k;
      } else {
        var start: nat :| Offers(cluster, bind.credentialFrom, start, k);
        var i := LastOffer(cluster, bind.credentialFrom, k, start);
      }
    }
  }

  // ----- the promise in terms of the cluster -----

  /** The object of this name has the value under the key. */
  predicate HasKey(objects: map<string, Credentials>, name: string, k: string, v: string) {
    name in objects && k in objects[name] && objects[name][k] == v
  }

  /** The object the source refers to is there: a config map if one is named, else a secret. */
  ghost predicate SourceExists(cluster: Cluster, from: FromSource) {
    && (from.configMapRef.Some? || from.secretRef.Some?)
    && (forall name | from.configMapRef == Some(name) :: name in cluster.configMaps)
    && (forall name | from == FromSource(None, Some(name)) :: name in cluster.secrets)
  }

  /** It has the value under the key; once a config map is named no secret matters. */
  ghost predicate SourceHas(cluster: Cluster, from: FromSource, k: string, v: string) {
    || (exists name :: from.configMapRef == Some(name) && HasKey(cluster.configMaps, name, k, v))
    || (exists name :: from == FromSource(None, Some(name)) && HasKey(cluster.secrets, name, k, v))
  }

  /** What a key reference leads to: a secret's key before a config map's key before a path into a service. */
  ghost predicate RefHas(cluster: Cluster, from: VarSource, v: string) {
    || (exists r :: from.secretKeyRef == Some(r) && HasKey(cluster.secrets, r.name, r.key, v))
    || (exists r :: from.secretKeyRef == None && from.configMapKeyRef == Some(r)
                    && HasKey(cluster.configMaps, r.name, r.key, v))
    || (exists r :: from == VarSource(None, None, Some(r)) && r in cluster.services && cluster.services[r] == v)
  }

  lemma SourceRead(cluster: Cluster, from: FromSource, k: string)
    ensures SourceValues(cluster, from).Some? <==> SourceExists(cluster, from)
    ensures forall v :: SourceHas(cluster, from, k, v) <==>
              SourceExists(cluster, from) && Lookup(SourceValues(cluster, from).value, k) == Some(v)
    ensures SourceExists(cluster, from) && k in SourceValues(cluster, from).value ==>
              exists v :: SourceHas(cluster, from, k, v)
  {
    var values := SourceValues(cluster, from);
    assert values.Some? && k in values.value ==> SourceHas(cluster, from, k, values.value[k]);
  }

  lemma RefRead(cluster: Cluster, from: VarSource)
    ensures forall v :: RefHas(cluster, from, v) <==> VarValue(cluster, from) == Some(v)
  {
  }

  /** Resolving starts by finding all objects: one missing, or a source that names none, and it is refused. */
  lemma SourcesReadableIff(cluster: Cluster, from: seq<FromSource>)
    ensures SourcesReadable(cluster, from) <==> forall i | 0 <= i < |from| :: SourceExists(cluster, from[i])
  {
    forall i | 0 <= i < |from| ensures SourceValues(cluster, from[i]).Some? <==> SourceExists(cluster, from[i]) {
      SourceRead(cluster, from[i], "");
    }
    hide SourceValues, SourceExists;
  }

  lemma EntriesReadableIff(cluster: Cluster, vars: seq<Var>)
    ensures EntriesReadable(cluster, vars) <==>
            forall i | 0 <= i < |vars| && vars[i].value == "" && vars[i].valueFrom.Some? ::
              exists v :: RefHas(cluster, vars[i].valueFrom.value, v)
  {
    forall i | 0 <= i < |vars| && vars[i].value == "" && vars[i].valueFrom.Some?
      ensures EntryValue(cluster, vars[i]).Some? <==> exists v :: RefHas(cluster, vars[i].valueFrom.value, v)
    {
      RefRead(cluster, vars[i].valueFrom.value);
      var val := VarValue(cluster, vars[i].valueFrom.value);
      hide VarValue, RefHas;
      assert val.Some? ==> RefHas(cluster, vars[i].valueFrom.value, val.value);
    }
    hide VarValue, RefHas;
  }

  /** The entry stands for the value. */
  ghost predicate EntryHas(cluster: Cluster, e: Var, v: string) {
    if e.value != "" then v == e.value else e.valueFrom.Some? && RefHas(cluster, e.valueFrom.value, v)
  }

  /** The value comes from an entry of that name. */
  ghost predicate FromEntry(cluster: Cluster, bind: BindFile, k: string, v: string) {
    exists i | 0 <= i < |bind.credential| :: bind.credential[i].name == k && EntryHas(cluster, bind.credential[i], v)
  }

  /** The value comes from the source at position `i`, and neither an entry nor a later source gives the key another. */
  ghost predicate FromSourceAt(cluster: Cluster, bind: BindFile, i: nat, k: string, v: string) {
    && i < |bind.credentialFrom| && SourceHas(cluster, bind.credentialFrom[i], k, v)
    && !HasEntry(bind.credential, k)
    && forall j, x | i < j < |bind.credentialFrom| :: !SourceHas(cluster, bind.credentialFrom[j], k, x)
  }

  /** What is resolved is exactly what the cluster's objects say, read in the right order. */
  lemma CredentialsComeFrom(cluster: Cluster, bind: BindFile, creds: Credentials, k: string, v: string)
    requires Meets(cluster, bind, creds)
    requires SourcesReadable(cluster, bind.credentialFrom) && EntriesReadable(cluster, bind.credential)
    ensures Lookup(creds, k) == Some(v) <==>
            FromEntry(cluster, bind, k, v) || exists i: nat :: FromSourceAt(cluster, bind, i, k, v)
  {
    if HasEntry(bind.credential, k) {
      EntryDecides(cluster, bind, creds, k, v);
    } else {
      hide RefHas;
      SourceDecides(cluster, bind, creds, k, v);
    }
  }

  lemma EntryDecides(cluster: Cluster, bind: BindFile, creds: Credentials, k: string, v: string)
    requires Meets(cluster, bind, creds) && HasEntry(bind.credential, k)
    ensures Lookup(creds, k) == Some(v) <==> FromEntry(cluster, bind, k, v)
  {
    var vars := bind.credential;
    forall i | 0 <= i < |vars| && vars[i].name == k && Effective(vars[i])
      ensures Lookup(creds, k) == Some(v) <==> EntryHas(cluster, vars[i], v)
    {
      if vars[i].valueFrom.Some? {
        RefRead(cluster, vars[i].valueFrom.value);
      }
      hide VarValue, RefHas;
    }
    hide VarValue, RefHas, Meets;
    assert forall i | 0 <= i < |vars| && EntryHas(cluster, vars[i], v) :: Effective(vars[i]);
    hide EntryHas;
  }

  lemma SourceDecides(cluster: Cluster, bind: BindFile, creds: Credentials, k: string, v: string)
    requires Meets(cluster, bind, creds) && !HasEntry(bind.credential, k)
    requires SourcesReadable(cluster, bind.credentialFrom)
    ensures Lookup(creds, k) == Some(v) <==> exists i: nat :: FromSourceAt(cluster, bind, i, k, v)
  {
    var from := bind.credentialFrom;
    forall i: nat, x | i < |from|
      ensures SourceHas(cluster, from[i], k, x) <==>
              Offers(cluster, from, i, k) && SourceValues(cluster, from[i]).value[k] == x
    {
      SourceRead(cluster, from[i], k);
      hide SourceHas, SourceExists;
    }
    hide SourceValues, SourceHas;
    if k in creds {
      var start: nat :| Offers(cluster, from, start, k);
      var i := LastOffer(cluster, from, k, start);
      assert Lookup(creds, k) == Some(v) ==> FromSourceAt(cluster, bind, i, k, v);
    }
    if i: nat :| FromSourceAt(cluster, bind, i, k, v) {
      LaterOffersNothing(cluster, bind, i, k, v);
    }
  }

  lemma LaterOffersNothing(cluster: Cluster, bind: BindFile, i: nat, k: string, v: string)
    requires FromSourceAt(cluster, bind, i, k, v)
    ensures OffersLast(cluster, bind.credentialFrom, i, k)
    ensures SourceValues(cluster, bind.credentialFrom[i]).value[k] == v
  {
    var from := bind.credentialFrom;
    SourceRead(cluster, from[i], k);
    forall j | i < j < |from| ensures !Offers(cluster, from, j, k) {
      SourceRead(cluster, from[j], k);
      hide SourceExists;
    }
  }

  // ----- the code -----

  /** Everything but the keys in `todo` has been set. */
  ghost predicate SetBut(into: Credentials, from: Credentials, todo: set<string>, out: Credentials) {
    && (forall k :: k in out <==> k in into || (k in from && k !in todo))
    && (forall k | k in out :: out[k] == if k in from && k !in todo then from[k] else into[k])
  }

  lemma SetNext(into: Credentials, from: Credentials, todo: set<string>, out: Credentials, k: string)
    requires SetBut(into, from, todo, out) && k in todo && k in from
    ensures SetBut(into, from, todo - {k}, out[k := from[k]])
  {
  }

  lemma SetDone(into: Credentials, from: Credentials, out: Credentials)
    requires SetBut(into, from, {}, out)
    ensures out == into + from
  {
  }

  /** All pairs of `from` set in `into`, in any order. */
  method SetAll(into: Credentials, from: Credentials) returns (out: Credentials)
    ensures out == into + from
  {
    out := into;
    var todo := from.Keys;
    assert SetBut(into, from, todo, out);
    hide SetBut;
    while todo != {}
      invariant todo <= from.Keys && SetBut(into, from, todo, out)
      decreases |todo|
    {
      var k :| k in todo;
      SetNext(into, from, todo, out, k);
      out := out[k := from[k]];
      todo := todo - {k};
    }
    SetDone(into, from, out);
  }

  /** The first loop. */
  method ReadSources(cluster: Cluster, from: seq<FromSource>) returns (r: Resolution)
    ensures r.Resolved? <==> SourcesReadable(cluster, from)
    ensures r.Refused? ==> r.error == Unreadable
    ensures r.Resolved? ==> LastSourceWins(cluster, from, r.credentials)
  {
    var creds: Credentials := map[];
    for n := 0 to |from|
      invariant SourcesReadable(cluster, from[..n])
      invariant LastSourceWins(cluster, from[..n], creds)
    {
      var envs := SourceValues(cluster, from[n]);
      if envs.None? {
        return Refused(Unreadable);
      }
      SetKeepsLastSource(cluster, from[..n], from[n], creds);
      creds := SetAll(creds, envs.value);
      assert from[..n + 1] == from[..n] + [from[n]];
    }
    assert from[..|from|] == from;
    return Resolved(creds);
  }

  lemma SetKeepsLastSource(cluster: Cluster, from: seq<FromSource>, next: FromSource, creds: Credentials)
    requires LastSourceWins(cluster, from, creds) && SourceValues(cluster, next).Some?
    ensures LastSourceWins(cluster, from + [next], creds + SourceValues(cluster, next).value)
  {
    var longer, envs := from + [next], SourceValues(cluster, next).value;
    var after := creds + envs;
    forall i: nat, k
      ensures Offers(cluster, longer, i, k) <==> Offers(cluster, from, i, k) || (i == |from| && k in envs)
    {
    }
    forall k ensures k in after <==> HasSource(cluster, longer, k) {
      if k in envs {
        assert Offers(cluster, longer, |from|, k);
      } else if k in creds {
        var i: nat :| Offers(cluster, from, i, k);
        assert Offers(cluster, longer, i, k);
      }
    }
    forall i: nat, k | OffersLast(cluster, longer, i, k)
      ensures after[k] == SourceValues(cluster, longer[i]).value[k]
    {
      if k in envs {
        assert Offers(cluster, longer, |from|, k);
      } else {
        assert OffersLast(cluster, from, i, k);
      }
    }
  }

  /** The entries read so far are exactly what `creds` holds. */
  ghost predicate EntriesHeld(cluster: Cluster, vars: seq<Var>, creds: Credentials) {
    && (forall k :: k in creds <==> HasEntry(vars, k))
    && (forall i | 0 <= i < |vars| && Effective(vars[i]) :: Lookup(creds, vars[i].name) == EntryValue(cluster, vars[i]))
  }

  ghost predicate EntriesFine(cluster: Cluster, vars: seq<Var>) {
    EntriesReadable(cluster, vars) && NamesDistinct(vars)
  }

  /** Up to here everything was fine; this entry cannot be read or, failing that, repeats a name. */
  ghost predicate BreaksAt(cluster: Cluster, vars: seq<Var>, n: nat, error: Error) {
    && n < |vars| && EntriesFine(cluster, vars[..n]) && Effective(vars[n])
    && if EntryValue(cluster, vars[n]).None? then error == Unreadable
       else error == Conflict(vars[n].name) && HasEntry(vars[..n], vars[n].name)
  }

  /** One more entry. */
  lemma AppendEntry(cluster: Cluster, vars: seq<Var>, v: Var, creds: Credentials)
    requires EntriesFine(cluster, vars) && EntriesHeld(cluster, vars, creds)
    ensures !Effective(v) ==> EntriesFine(cluster, vars + [v]) && EntriesHeld(cluster, vars + [v], creds)
    ensures Effective(v) && EntryValue(cluster, v).Some? && v.name !in creds ==>
              && EntriesFine(cluster, vars + [v])
              && EntriesHeld(cluster, vars + [v], creds[v.name := EntryValue(cluster, v).value])
  {
    hide VarValue;
    var longer := vars + [v];
    forall k ensures HasEntry(longer, k) <==> HasEntry(vars, k) || (Effective(v) && v.name == k) {
      if HasEntry(vars, k) {
        var i :| 0 <= i < |vars| && Effective(vars[i]) && vars[i].name == k;
        assert longer[i] == vars[i];
      }
      if Effective(v) && v.name == k {
        assert longer[|vars|] == v;
      }
    }
    assert forall i | 0 <= i < |vars| && Effective(vars[i]) :: HasEntry(vars, vars[i].name);
  }

  /** The second loop; policy 2: an effective entry may not repeat a name. */
  method ReadEntries(cluster: Cluster, vars: seq<Var>) returns (r: Resolution)
    ensures r.Resolved? <==> EntriesFine(cluster, vars)
    ensures r.Refused? ==> exists n: nat :: BreaksAt(cluster, vars, n, r.error)
    ensures r.Refused? && r.error == Unreadable ==> !EntriesReadable(cluster, vars)
    ensures r.Refused? && r.error.Conflict? ==> Repeated(vars, r.error.name)
    ensures r.Resolved? ==> EntriesHeld(cluster, vars, r.credentials)
  {
    var creds: Credentials := map[];
    for n := 0 to |vars|
      invariant EntriesFine(cluster, vars[..n]) && EntriesHeld(cluster, vars[..n], creds)
    {
      var v := vars[n];
      AppendEntry(cluster, vars[..n], v, creds);
      assert vars[..n + 1] == vars[..n] + [v];
      hide VarValue, EntriesFine, EntriesHeld, BreaksAt;
      if v.value != "" {
        if v.name in creds {
          Repeats(cluster, vars, n, creds);
          return Refused(Conflict(v.name));
        }
        creds := creds[v.name := v.value];
      } else if v.valueFrom.Some? {
        var val := VarValue(cluster, v.valueFrom.value);
        if val.None? {
          BreaksOff(cluster, vars, n);
          return Refused(Unreadable);
        }
        if v.name in creds {
          Repeats(cluster, vars, n, creds);
          return Refused(Conflict(v.name));
        }
        creds := creds[v.name := val.value];
      }
    }
    assert vars[..|vars|] == vars;
    return Resolved(creds);
  }

  lemma BreaksOff(cluster: Cluster, vars: seq<Var>, n: nat)
    requires n < |vars| && Effective(vars[n]) && EntryValue(cluster, vars[n]).None?
    requires EntriesFine(cluster, vars[..n])
    ensures !EntriesReadable(cluster, vars) && !EntriesFine(cluster, vars) && BreaksAt(cluster, vars, n, Unreadable)
  {
  }

  lemma Repeats(cluster: Cluster, vars: seq<Var>, n: nat, creds: Credentials)
    requires n < |vars| && EntriesHeld(cluster, vars[..n], creds) && vars[n].name in creds && Effective(vars[n])
    requires EntriesFine(cluster, vars[..n]) && EntryValue(cluster, vars[n]).Some?
    ensures Repeated(vars, vars[n].name) && !EntriesFine(cluster, vars)
    ensures BreaksAt(cluster, vars, n, Conflict(vars[n].name))
  {
    var i :| 0 <= i < n && Effective(vars[..n][i]) && vars[..n][i].name == vars[n].name;
    assert vars[i] == vars[..n][i];
  }

  /** Policy 3. */
  lemma EntriesOverride(cluster: Cluster, bind: BindFile, credFrom: Credentials, cred: Credentials)
    requires LastSourceWins(cluster, bind.credentialFrom, credFrom)
    requires EntriesHeld(cluster, bind.credential, cred)
    ensures Meets(cluster, bind, credFrom + cred)
  {
    forall i | 0 <= i < |bind.credential| && Effective(bind.credential[i])
      ensures Lookup(credFrom + cred, bind.credential[i].name) == EntryValue(cluster, bind.credential[i])
    {
      assert HasEntry(bind.credential, bind.credential[i].name);
    }
    hide HasEntry, EntryValue;
    forall i: nat, k | OffersLast(cluster, bind.credentialFrom, i, k)
      ensures HasSource(cluster, bind.credentialFrom, k)
    {
    }
  }

  /** `Resolve`: succeeds exactly when everything it consults is readable and no effective name repeats. */
  method Resolve(cluster: Cluster, bind: BindFile) returns (r: Resolution)
    ensures r.Resolved? <==>
            && SourcesReadable(cluster, bind.credentialFrom)
            && EntriesReadable(cluster, bind.credential)
            && NamesDistinct(bind.credential)
    ensures r.Resolved? ==> Meets(cluster, bind, r.credentials)
    ensures !SourcesReadable(cluster, bind.credentialFrom) ==> r == Refused(Unreadable)
    ensures r.Refused? && r.error == Unreadable ==>
              !SourcesReadable(cluster, bind.credentialFrom) || !EntriesReadable(cluster, bind.credential)
    ensures r.Refused? && r.error.Conflict? ==> Repeated(bind.credential, r.error.name)
    ensures r.Refused? && SourcesReadable(cluster, bind.credentialFrom) ==>
              exists n: nat :: BreaksAt(cluster, bind.credential, n, r.error)
  {
    r := ReadSources(cluster, bind.credentialFrom);
    if r.Refused? {
      return;
    }
    hide LastSourceWins, Meets, SourcesReadable, EntriesReadable, NamesDistinct, HasEntry, EntriesHeld, BreaksAt;
    var credFrom := r.credentials;
    r := ReadEntries(cluster, bind.credential);
    if r.Refused? {
      return;
    }
    var cred := r.credentials;
    var out := SetAll(credFrom, cred);
    EntriesOverride(cluster, bind, credFrom, cred);
    return Resolved(out);
  }
}
