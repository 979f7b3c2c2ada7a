/**
 The etcd store of instance operations: one flat key space `instanceID/operationID`, prefix
 scans instead of inner maps. Called sequentially it answers exactly as the in-memory store.
 */
module EtcdOperations {
  import opened Values
  import opened Operations

  const SEPARATOR: string := "/"

  type KV = map<string, Operation>

  function InstanceKeyPrefix(i: InstanceID): string {
    i + SEPARATOR
  }

  function Key(i: InstanceID, o: OperationID): string {
    InstanceKeyPrefix(i) + o
  }

  /** The keys a scan with prefix returns. */
  function Scan(kv: KV, prefix: string): set<string> {
    set k | k in kv && prefix <= k
  }

  function KVInsert(kv: KV, io: Operation, now: int): (Result<()>, KV) {
    if io.instanceID == "" || io.operationID == "" then (Err(IDsNotSet), kv)
    else
      var key := Key(io.instanceID, io.operationID);
      if key in kv then (Err(AlreadyExists), kv)
      else if exists k | k in Scan(kv, InstanceKeyPrefix(io.instanceID)) :: kv[k].state == InProgress then
        (Err(ActiveOperationInProgress), kv)
      else (Ok(()), kv[key := io.(createdAt := now)])
  }

  function KVGet(kv: KV, i: InstanceID, o: OperationID): Result<Operation> {
    if i == "" || o == "" then Err(IDsNotSet)
    else if Key(i, o) in kv then Ok(kv[Key(i, o)]) else Err(NotFound)
  }

  function KVGetAll(kv: KV, i: InstanceID): Result<set<Operation>> {
    var found := Scan(kv, InstanceKeyPrefix(i));
    if found == {} then Err(NotFound) else Ok(set k | k in found :: kv[k])
  }

  function KVUpdateStateDesc(kv: KV, i: InstanceID, o: OperationID, state: OperationState, desc: Option<string>)
    : (Result<()>, KV)
  {
    match KVGet(kv, i, o)
    case Err(e) => (Err(e), kv)
    case Ok(op) => (Ok(()), kv[Key(i, o) := op.(state := state, description := desc)])
  }

  function KVRemove(kv: KV, i: InstanceID, o: OperationID): (Result<()>, KV) {
    if Key(i, o) in kv then (Ok(()), kv - {Key(i, o)}) else (Err(NotFound), kv)
  }

  /** The store as the source writes it, over a key-value client. */
  class InstanceOperation {
    var kv: KV

    constructor ()
      ensures kv == map[]
    {
      kv := map[];
    }

    method Insert(io: Operation, now: int) returns (err: Result<()>)
      modifies this
      ensures (err, kv) == KVInsert(old(kv), io, now)
    {
      if io.instanceID == "" || io.operationID == "" {
        return Err(IDsNotSet);
      }
      var opKey := Key(io.instanceID, io.operationID);
      if opKey in kv {
        return Err(AlreadyExists);
      }
      var opInProgress := IsOperationInProgress(io.instanceID);
      if opInProgress {
        return Err(ActiveOperationInProgress);
      }
      kv := kv[opKey := io.(createdAt := now)];
      return Ok(());
    }

    method IsOperationInProgress(iID: InstanceID) returns (found: bool)
      ensures found <==> exists k | k in Scan(kv, InstanceKeyPrefix(iID)) :: kv[k].state == InProgress
    {
      var resp := Scan(kv, InstanceKeyPrefix(iID));
      var todo := resp;
      while todo != {}
        invariant todo <= resp
        invariant forall k | k in resp - todo :: kv[k].state != InProgress
        decreases |todo|
      {
        var k :| k in todo;
        if kv[k].state == InProgress {
          return true;
        }
        todo := todo - {k};
      }
      return false;
    }

    method Get(iID: InstanceID, opID: OperationID) returns (op: Result<Operation>)
      ensures op == KVGet(kv, iID, opID)
    {
      if iID == "" || opID == "" {
        return Err(IDsNotSet);
      }
      if Key(iID, opID) !in kv {
        return Err(NotFound);
      }
      return Ok(kv[Key(iID, opID)]);
    }

    method GetAll(iID: InstanceID) returns (all: Result<seq<Operation>>)
      ensures all.Ok? <==> KVGetAll(kv, iID).Ok?
      ensures all.Ok? ==> (set op | op in all.value) == KVGetAll(kv, iID).value
      ensures all.Ok? ==> |all.value| == |Scan(kv, InstanceKeyPrefix(iID))|
      ensures all.Err? ==> all.error == NotFound
    {
      var resp := Scan(kv, InstanceKeyPrefix(iID));
      if |resp| == 0 {
        return Err(NotFound);
      }
      var out := [];
      var todo := resp;
      while todo != {}
        invariant todo <= resp
        invariant |out| + |todo| == |resp|
        invariant forall k | k in resp - todo :: kv[k] in out
        invariant forall op | op in out :: exists k :: k in resp && kv[k] == op
        decreases |todo|
      {
        var k :| k in todo;
        out := out + [kv[k]];
        todo := todo - {k};
      }
      return Ok(out);
    }

    method UpdateState(iID: InstanceID, opID: OperationID, state: OperationState) returns (err: Result<()>)
      modifies this
      ensures (err, kv) == KVUpdateStateDesc(old(kv), iID, opID, state, None)
    {
      err := UpdateStateDesc(iID, opID, state, None);
    }

    method UpdateStateDesc(iID: InstanceID, opID: OperationID, state: OperationState, desc: Option<string>)
      returns (err: Result<()>)
      modifies this
      ensures (err, kv) == KVUpdateStateDesc(old(kv), iID, opID, state, desc)
    {
      var io := Get(iID, opID);
      if io.Err? {
        return Err(io.error);
      }
      kv := kv[Key(iID, opID) := io.value.(state := state, description := desc)];
      return Ok(());
    }

    method Remove(iID: InstanceID, opID: OperationID) returns (err: Result<()>)
      modifies this
      ensures (err, kv) == KVRemove(old(kv), iID, opID)
    {
      if Key(iID, opID) !in kv {
        return Err(NotFound);
      }
      kv := kv - {Key(iID, opID)};
      return Ok(());
    }
  }

  // ----- the key encoding -----

  /** Of two prefixes of one string one is a prefix of the other. */
  lemma PrefixesCompare(p: string, q: string, k: string)
    requires p <= k && q <= k
    ensures p <= q || q <= p
  {
    assert p == k[..|p|] && q == k[..|q|];
  }

  /** Two instances can get into each other's way exactly when one's prefix starts with the other's. */
  lemma KeysClashIff(i: InstanceID, j: InstanceID)
    requires i != j
    ensures (exists o, q :: o != "" && q != "" && Key(i, o) == Key(j, q)) <==>
            InstanceKeyPrefix(i) <= InstanceKeyPrefix(j) || InstanceKeyPrefix(j) <= InstanceKeyPrefix(i)
  {
    if o, q :| o != "" && q != "" && Key(i, o) == Key(j, q) {
      PrefixesCompare(InstanceKeyPrefix(i), InstanceKeyPrefix(j), Key(i, o));
    }
    if InstanceKeyPrefix(i) <= InstanceKeyPrefix(j) {
      KeysClash(i, j);
    } else if InstanceKeyPrefix(j) <= InstanceKeyPrefix(i) {
      KeysClash(j, i);
    }
  }

  lemma KeysClash(i: InstanceID, j: InstanceID)
    requires InstanceKeyPrefix(i) <= InstanceKeyPrefix(j)
    ensures exists o, q :: o != "" && q != "" && Key(i, o) == Key(j, q)
  {
    var rest := InstanceKeyPrefix(j)[|InstanceKeyPrefix(i)|..];
    assert InstanceKeyPrefix(j) == InstanceKeyPrefix(i) + rest;
    assert Key(i, rest + "a") == Key(j, "a");
  }

  /** With a separator inside an instance ID two different operations share one key. */
  lemma SlashBreaksKeys()
    ensures Key("a", "b/c") == Key("a/b", "c") && "a" != "a/b"
  {
  }

  /** The instance IDs in use do not get into each other's way. */
  ghost predicate PrefixFree(ids: set<InstanceID>) {
    forall i, j | i in ids && j in ids && InstanceKeyPrefix(i) <= InstanceKeyPrefix(j) :: i == j
  }

  /** IDs without the separator never do. */
  lemma SlashFreeIsPrefixFree(ids: set<InstanceID>)
    requires forall i | i in ids :: '/' !in i
    ensures PrefixFree(ids)
  {
    forall i, j | i in ids && j in ids && InstanceKeyPrefix(i) <= InstanceKeyPrefix(j) ensures i == j {
      var p, q := InstanceKeyPrefix(i), InstanceKeyPrefix(j);
      assert p[|i|] == '/' == q[|i|];
      assert forall n | 0 <= n < |j| :: q[n] == j[n] != '/';
      assert i == q[..|i|] == j;
    }
  }

  /** A key carries an instance's prefix exactly when it belongs to that instance. */
  lemma PrefixIffSameInstance(ids: set<InstanceID>, i: InstanceID, j: InstanceID, o: OperationID)
    requires PrefixFree(ids) && i in ids && j in ids
    ensures InstanceKeyPrefix(i) <= Key(j, o) <==> i == j
  {
    if InstanceKeyPrefix(i) <= Key(j, o) {
      PrefixesCompare(InstanceKeyPrefix(i), InstanceKeyPrefix(j), Key(j, o));
    }
  }

  /** Reading a key back: the instance whose prefix it carries, and what follows. */
  ghost function Owner(ids: set<InstanceID>, k: string): InstanceID {
    if exists i :: i in ids && InstanceKeyPrefix(i) <= k then
      var i :| i in ids && InstanceKeyPrefix(i) <= k; i
    else ""
  }

  ghost function Rest(ids: set<InstanceID>, k: string): OperationID {
    var p := InstanceKeyPrefix(Owner(ids, k));
    if |p| <= |k| then k[|p|..] else ""
  }

  lemma KeyReadsBack(ids: set<InstanceID>, i: InstanceID, o: OperationID)
    requires PrefixFree(ids) && i in ids
    ensures Owner(ids, Key(i, o)) == i && Rest(ids, Key(i, o)) == o
  {
    var k := Key(i, o);
    assert InstanceKeyPrefix(i) <= k;
    PrefixIffSameInstance(ids, Owner(ids, k), i, o);
  }

  lemma KeyInjective(ids: set<InstanceID>, i: InstanceID, o: OperationID, j: InstanceID, q: OperationID)
    requires PrefixFree(ids) && i in ids && j in ids
    requires Key(i, o) == Key(j, q)
    ensures i == j && o == q
  {
    KeyReadsBack(ids, i, o);
    KeyReadsBack(ids, j, q);
  }

  // ----- refinement -----

  /** The flat store holds the nested one, key by key, and nothing else. */
  ghost predicate Agrees(ids: set<InstanceID>, mem: Store, kv: KV) {
    && (forall i | i in mem :: i in ids && i != "" && mem[i].Keys != {})
    && (forall i, o {:trigger Has(mem, i, o)} | Has(mem, i, o) ::
          o != "" && Key(i, o) in kv && kv[Key(i, o)] == mem[i][o])
    && (forall k | k in kv :: Has(mem, Owner(ids, k), Rest(ids, k)) && k == Key(Owner(ids, k), Rest(ids, k)))
  }

  lemma KeyIffHas(ids: set<InstanceID>, mem: Store, kv: KV, i: InstanceID, o: OperationID)
    requires PrefixFree(ids) && Agrees(ids, mem, kv) && i in ids
    ensures Key(i, o) in kv <==> Has(mem, i, o)
    ensures Has(mem, i, o) ==> kv[Key(i, o)] == mem[i][o]
  {
    hide Key, InstanceKeyPrefix, Owner, Rest;
    KeyReadsBack(ids, i, o);
  }

  /** What a scan over one instance's prefix finds: the keys of that instance's operations. */
  lemma ScanKeys(ids: set<InstanceID>, mem: Store, kv: KV, i: InstanceID)
    requires PrefixFree(ids) && Agrees(ids, mem, kv) && i in ids
    ensures forall k | k in Scan(kv, InstanceKeyPrefix(i)) ::
              Has(mem, i, Rest(ids, k)) && kv[k] == mem[i][Rest(ids, k)]
    ensures forall o {:trigger Has(mem, i, o)} | Has(mem, i, o) ::
              Key(i, o) in Scan(kv, InstanceKeyPrefix(i)) && kv[Key(i, o)] == mem[i][o]
  {
    hide Key, InstanceKeyPrefix, Owner, Rest, PrefixFree;
    forall k | k in Scan(kv, InstanceKeyPrefix(i))
      ensures Has(mem, i, Rest(ids, k)) && kv[k] == mem[i][Rest(ids, k)]
    {
      PrefixIffSameInstance(ids, i, Owner(ids, k), Rest(ids, k));
    }
    forall o | Has(mem, i, o)
      ensures Key(i, o) in Scan(kv, InstanceKeyPrefix(i)) && kv[Key(i, o)] == mem[i][o]
    {
      PrefixIffSameInstance(ids, i, i, o);
    }
  }

  lemma ScanIsInnerMap(ids: set<InstanceID>, mem: Store, kv: KV, i: InstanceID)
    requires PrefixFree(ids) && Agrees(ids, mem, kv) && i in ids
    ensures i in mem <==> Scan(kv, InstanceKeyPrefix(i)) != {}
    ensures i in mem ==> (set k | k in Scan(kv, InstanceKeyPrefix(i)) :: kv[k]) == mem[i].Values
    ensures SomeInProgress(if i in mem then mem[i] else map[]) <==>
            exists k | k in Scan(kv, InstanceKeyPrefix(i)) :: kv[k].state == InProgress
  {
    hide Key, InstanceKeyPrefix, Owner, Rest, PrefixFree;
    ScanKeys(ids, mem, kv, i);
    if i in mem {
      assert forall o | o in mem[i] :: Has(mem, i, o);
      ScanValues(mem[i], kv, Scan(kv, InstanceKeyPrefix(i)), o => Key(i, o), k => Rest(ids, k));
    }
  }

  lemma ScanValues(ops: Inner, kv: KV, found: set<string>, key: OperationID -> string, rest: string -> OperationID)
    requires found <= kv.Keys
    requires forall k | k in found :: rest(k) in ops && kv[k] == ops[rest(k)]
    requires forall o | o in ops :: key(o) in found && kv[key(o)] == ops[o]
    ensures (set k | k in found :: kv[k]) == ops.Values
    ensures found != {} <==> ops.Keys != {}
    ensures SomeInProgress(ops) <==> exists k | k in found :: kv[k].state == InProgress
  {
    var values := set k | k in found :: kv[k];
    forall v | v in ops.Values ensures v in values {
      var o :| o in ops && ops[o] == v;
      assert key(o) in found;
    }
    forall v | v in values ensures v in ops.Values {
      var k :| k in found && kv[k] == v;
      assert rest(k) in ops;
    }
  }

  lemma PutAgrees(ids: set<InstanceID>, mem: Store, kv: KV, i: InstanceID, o: OperationID, op: Operation)
    requires PrefixFree(ids) && Agrees(ids, mem, kv) && i in ids && i != "" && o != ""
    ensures var inner: Inner := if i in mem then mem[i] else map[];
            Agrees(ids, mem[i := inner[o := op]], kv[Key(i, o) := op])
  {
    hide Key, Owner, Rest, PrefixFree;
    var inner: Inner := if i in mem then mem[i] else map[];
    var mem', kv' := mem[i := inner[o := op]], kv[Key(i, o) := op];
    assert o in mem'[i];
    KeyReadsBack(ids, i, o);
    forall j, q | Has(mem', j, q)
      ensures q != "" && Key(j, q) in kv' && kv'[Key(j, q)] == mem'[j][q]
    {
      KeyReadsBack(ids, j, q);
      assert (j == i && q == o) || Has(mem, j, q);
    }
  }

  lemma DeleteAgrees(ids: set<InstanceID>, mem: Store, kv: KV, i: InstanceID, o: OperationID)
    requires PrefixFree(ids) && Agrees(ids, mem, kv) && Has(mem, i, o)
    ensures var inner := mem[i] - {o};
            Agrees(ids, if inner.Keys == {} then mem - {i} else mem[i := inner], kv - {Key(i, o)})
  {
    hide Key, Owner, Rest, PrefixFree;
    var inner := mem[i] - {o};
    var mem' := if inner.Keys == {} then mem - {i} else mem[i := inner];
    var kv' := kv - {Key(i, o)};
    KeyReadsBack(ids, i, o);
    forall j, q | Has(mem', j, q)
      ensures q != "" && Key(j, q) in kv' && kv'[Key(j, q)] == mem'[j][q]
    {
      assert Has(mem, j, q);
      KeyReadsBack(ids, j, q);
    }
    forall k | k in kv'
      ensures Has(mem', Owner(ids, k), Rest(ids, k)) && k == Key(Owner(ids, k), Rest(ids, k))
    {
      assert Owner(ids, k) == i ==> Rest(ids, k) in inner;
    }
  }

  datatype Call =
    | CallInsert(io: Operation, now: int)
    | CallGet(i: InstanceID, o: OperationID)
    | CallGetAll(i: InstanceID)
    | CallUpdateState(i: InstanceID, o: OperationID, state: OperationState)
    | CallUpdateStateDesc(i: InstanceID, o: OperationID, state: OperationState, desc: Option<string>)
    | CallRemove(i: InstanceID, o: OperationID)

  datatype Answer = Done(done: Result<()>) | One(one: Result<Operation>) | All(all: Result<set<Operation>>)

  /** The calls the two drivers are compared on: about these instances, with IDs that are not empty. */
  predicate CallOn(c: Call, ids: set<InstanceID>) {
    match c
    case CallInsert(io, _) => io.instanceID in ids && io.operationID != ""
    case CallGetAll(i) => i in ids
    case CallGet(i, o) => i in ids && o != ""
    case CallUpdateState(i, o, _) => i in ids && o != ""
    case CallUpdateStateDesc(i, o, _, _) => i in ids && o != ""
    case CallRemove(i, o) => i in ids && o != ""
  }

  function MemoryCall(mem: Store, c: Call): (Answer, Store) {
    match c
    case CallInsert(io, now) => var r := InsertOp(mem, io, now); (Done(r.0), r.1)
    case CallGet(i, o) => (One(GetOp(mem, i, o)), mem)
    case CallGetAll(i) =>
      (match GetAllOps(mem, i) case Ok(m) => All(Ok(m.Values)) case Err(e) => All(Err(e)), mem)
    case CallUpdateState(i, o, state) => var r := UpdateOp(mem, i, o, state, None); (Done(r.0), r.1)
    case CallUpdateStateDesc(i, o, state, desc) => var r := UpdateOp(mem, i, o, state, desc); (Done(r.0), r.1)
    case CallRemove(i, o) => var r := RemoveOp(mem, i, o); (Done(r.0), r.1)
  }

  function EtcdCall(kv: KV, c: Call): (Answer, KV) {
    match c
    case CallInsert(io, now) => var r := KVInsert(kv, io, now); (Done(r.0), r.1)
    case CallGet(i, o) => (One(KVGet(kv, i, o)), kv)
    case CallGetAll(i) => (All(KVGetAll(kv, i)), kv)
    case CallUpdateState(i, o, state) => var r := KVUpdateStateDesc(kv, i, o, state, None); (Done(r.0), r.1)
    case CallUpdateStateDesc(i, o, state, desc) => var r := KVUpdateStateDesc(kv, i, o, state, desc); (Done(r.0), r.1)
    case CallRemove(i, o) => var r := KVRemove(kv, i, o); (Done(r.0), r.1)
  }

  /** One call: same answer, and the two stores still hold the same operations. */
  lemma CallsAgree(ids: set<InstanceID>, mem: Store, kv: KV, c: Call)
    requires PrefixFree(ids) && "" !in ids && Agrees(ids, mem, kv) && CallOn(c, ids)
    ensures MemoryCall(mem, c).0 == EtcdCall(kv, c).0
    ensures Agrees(ids, MemoryCall(mem, c).1, EtcdCall(kv, c).1)
  {
    hide Key, InstanceKeyPrefix, PrefixFree, Agrees, UpdateOp, KVUpdateStateDesc;
    match c
    case CallInsert(io, now) =>
      KeyIffHas(ids, mem, kv, io.instanceID, io.operationID);
      ScanIsInnerMap(ids, mem, kv, io.instanceID);
      PutAgrees(ids, mem, kv, io.instanceID, io.operationID, io.(createdAt := now));
      var inner: Inner := if io.instanceID in mem then mem[io.instanceID] else map[];
      assert InsertOp(mem, io, now).0.Ok? ==>
          InsertOp(mem, io, now).1 == mem[io.instanceID := inner[io.operationID := io.(createdAt := now)]];
    case CallGetAll(i) => ScanIsInnerMap(ids, mem, kv, i);
    case CallGet(i, o) => KeyIffHas(ids, mem, kv, i, o);
    case CallUpdateState(i, o, state) => UpdateAgrees(ids, mem, kv, i, o, state, None);
    case CallUpdateStateDesc(i, o, state, desc) => UpdateAgrees(ids, mem, kv, i, o, state, desc);
    case CallRemove(i, o) =>
      KeyIffHas(ids, mem, kv, i, o);
      if Has(mem, i, o) {
        DeleteAgrees(ids, mem, kv, i, o);
      }
  }

  lemma UpdateAgrees(
    ids: set<InstanceID>, mem: Store, kv: KV, i: InstanceID, o: OperationID, state: OperationState,
    desc: Option<string>)
    requires PrefixFree(ids) && Agrees(ids, mem, kv) && i in ids && i != "" && o != ""
    ensures UpdateOp(mem, i, o, state, desc).0 == KVUpdateStateDesc(kv, i, o, state, desc).0
    ensures Agrees(ids, UpdateOp(mem, i, o, state, desc).1, KVUpdateStateDesc(kv, i, o, state, desc).1)
  {
    hide Key, InstanceKeyPrefix, PrefixFree;
    KeyIffHas(ids, mem, kv, i, o);
    if Has(mem, i, o) {
      PutAgrees(ids, mem, kv, i, o, mem[i][o].(state := state, description := desc));
    }
  }

  function MemoryAnswers(mem: Store, calls: seq<Call>): seq<Answer>
    decreases |calls|
  {
    if calls == [] then []
    else var r := MemoryCall(mem, calls[0]); [r.0] + MemoryAnswers(r.1, calls[1..])
  }

  function EtcdAnswers(kv: KV, calls: seq<Call>): seq<Answer>
    decreases |calls|
  {
    if calls == [] then []
    else var r := EtcdCall(kv, calls[0]); [r.0] + EtcdAnswers(r.1, calls[1..])
  }

  lemma {:induction false} RunsAgree(ids: set<InstanceID>, mem: Store, kv: KV, calls: seq<Call>)
    requires PrefixFree(ids) && "" !in ids && Agrees(ids, mem, kv)
    requires forall c | c in calls :: CallOn(c, ids)
    ensures MemoryAnswers(mem, calls) == EtcdAnswers(kv, calls)
    decreases |calls|
  {
    hide CallOn, MemoryCall, EtcdCall, Agrees, PrefixFree;
    if calls != [] {
      CallsAgree(ids, mem, kv, calls[0]);
      RunsAgree(ids, MemoryCall(mem, calls[0]).1, EtcdCall(kv, calls[0]).1, calls[1..]);
    }
  }

  /** No sequence of calls about these instances, made on fresh stores, is answered differently. */
  ghost predicate Indistinguishable(ids: set<InstanceID>) {
    forall calls: seq<Call> | (forall c | c in calls :: CallOn(c, ids)) ::
      MemoryAnswers(map[], calls) == EtcdAnswers(map[], calls)
  }

  /** Swapping the driver is invisible exactly for instance IDs that do not get into each other's way. */
  lemma DriversIndistinguishableIff(ids: set<InstanceID>)
    requires "" !in ids
    ensures Indistinguishable(ids) <==> PrefixFree(ids)
  {
    hide MemoryAnswers, EtcdAnswers, CallOn, InstanceKeyPrefix;
    if PrefixFree(ids) {
      forall calls: seq<Call> | (forall c | c in calls :: CallOn(c, ids))
        ensures MemoryAnswers(map[], calls) == EtcdAnswers(map[], calls)
      {
        RunsAgree(ids, map[], map[], calls);
      }
    } else {
      var i, j :| i in ids && j in ids && InstanceKeyPrefix(i) <= InstanceKeyPrefix(j) && i != j;
      var calls := TellApart(ids, i, j);
    }
  }

  /** An operation of one instance makes the other one look busy. */
  lemma TellApart(ids: set<InstanceID>, i: InstanceID, j: InstanceID) returns (calls: seq<Call>)
    requires i in ids && j in ids && i != "" && j != "" && i != j
    requires InstanceKeyPrefix(i) <= InstanceKeyPrefix(j)
    ensures forall c | c in calls :: CallOn(c, ids)
    ensures MemoryAnswers(map[], calls) != EtcdAnswers(map[], calls)
  {
    var first := Operation(j, "a", Create, InProgress, None, RequestParameters(None), 0);
    var second := Operation(i, "b", Create, InProgress, None, RequestParameters(None), 0);
    calls := [CallInsert(first, 0), CallInsert(second, 0)];
    var mem, kv := InsertOp(map[], first, 0).1, KVInsert(map[], first, 0).1;
    assert mem == map[j := map["a" := first]];
    assert kv == map[Key(j, "a") := first] by {
      assert Scan(map[], InstanceKeyPrefix(j)) == {};
    }
    assert Key(j, "a") in Scan(kv, InstanceKeyPrefix(i));
    assert InsertOp(mem, second, 0).0.Ok? && KVInsert(kv, second, 0).0.Err?;
    TwoAnswers(map[], map[], calls[0], calls[1]);
  }

  lemma TwoAnswers(mem: Store, kv: KV, c: Call, d: Call)
    ensures MemoryAnswers(mem, [c, d]) == [MemoryCall(mem, c).0, MemoryCall(MemoryCall(mem, c).1, d).0]
    ensures EtcdAnswers(kv, [c, d]) == [EtcdCall(kv, c).0, EtcdCall(EtcdCall(kv, c).1, d).0]
  {
    hide MemoryCall, EtcdCall;
    assert [c, d][1..] == [d] && [d][1..] == [];
    assert MemoryAnswers(MemoryCall(mem, c).1, [d]) == [MemoryCall(MemoryCall(mem, c).1, d).0];
    assert EtcdAnswers(EtcdCall(kv, c).1, [d]) == [EtcdCall(EtcdCall(kv, c).1, d).0];
  }

  /** In particular for all slash-free, non-empty instance IDs. */
  lemma DriversIndistinguishable(ids: set<InstanceID>)
    requires forall i | i in ids :: i != "" && '/' !in i
    ensures Indistinguishable(ids)
  {
    SlashFreeIsPrefixFree(ids);
    DriversIndistinguishableIff(ids);
  }
}
