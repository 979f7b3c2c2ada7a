/**
 The in-memory store of instance operations: instance ID -> operation ID -> operation.
 Each call is a function from the old contents to an answer and the new contents; the class
 below carries the calls out in place and is proved to compute exactly those functions.
 */
module Operations {
  import opened Values
  import opened Listings

  type InstanceID = string
  type OperationID = string

  datatype OperationType = Create | Remove | Undefined

  datatype OperationState = InProgress | Succeeded | Failed

  /** Parameters of a provisioning request; `None` is Go's nil map, distinct from the empty map. */
  datatype RequestParameters = RequestParameters(data: Option<Fields>)

  datatype Operation = Operation(
    instanceID: InstanceID,
    operationID: OperationID,
    kind: OperationType,
    state: OperationState,
    description: Option<string>,
    parameters: RequestParameters,
    createdAt: int)

  datatype Error = IDsNotSet | NotFound | AlreadyExists | ActiveOperationInProgress

  datatype Result<+T> = Ok(value: T) | Err(error: Error)

  type Inner = map<OperationID, Operation>
  type Store = map<InstanceID, Inner>

  predicate Has(st: Store, i: InstanceID, o: OperationID) {
    i in st && o in st[i]
  }

  predicate SomeInProgress(ops: Inner) {
    exists o | o in ops :: ops[o].state == InProgress
  }

  function InsertOp(st: Store, io: Operation, now: int): (Result<()>, Store) {
    var i, o := io.instanceID, io.operationID;
    if i == "" || o == "" then (Err(IDsNotSet), st)
    else
      var st1 := if i in st then st else st[i := map[]];
      if o in st1[i] then (Err(AlreadyExists), st1)
      else if SomeInProgress(st1[i]) then (Err(ActiveOperationInProgress), st1)
      else (Ok(()), st1[i := st1[i][o := io.(createdAt := now)]])
  }

  function GetOp(st: Store, i: InstanceID, o: OperationID): Result<Operation> {
    if i == "" || o == "" then Err(IDsNotSet)
    else if Has(st, i, o) then Ok(st[i][o]) else Err(NotFound)
  }

  /** All operations of one instance; the list the source returns is one of their orderings. */
  function GetAllOps(st: Store, i: InstanceID): Result<Inner> {
    if i in st then Ok(st[i]) else Err(NotFound)
  }

  function UpdateOp(st: Store, i: InstanceID, o: OperationID, state: OperationState, desc: Option<string>)
    : (Result<()>, Store)
  {
    match GetOp(st, i, o)
    case Err(e) => (Err(e), st)
    case Ok(op) =>
      var inner: Inner := if i in st then st[i] else map[];
      (Ok(()), st[i := inner[o := op.(state := state, description := desc)]])
  }

  function RemoveOp(st: Store, i: InstanceID, o: OperationID): (Result<()>, Store) {
    match GetOp(st, i, o)
    case Err(e) => (Err(e), st)
    case Ok(_) =>
      var inner: Inner := (if i in st then st[i] else map[]) - {o};
      (Ok(()), if inner.Keys == {} then st - {i} else st[i := inner])
  }

  /** The store as the source writes it: one map of maps, changed in place. */
  class InstanceOperation {
    var storage: Store

    constructor ()
      ensures storage == map[]
    {
      storage := map[];
    }

    method Insert(io: Operation, now: int) returns (err: Result<()>)
      modifies this
      ensures (err, storage) == InsertOp(old(storage), io, now)
    {
      if io.instanceID == "" || io.operationID == "" {
        return Err(IDsNotSet);
      }
      if io.instanceID !in storage {
        storage := storage[io.instanceID := map[]];
      }
      if io.operationID in storage[io.instanceID] {
        return Err(AlreadyExists);
      }
      var todo := storage[io.instanceID].Keys;
      while todo != {}
        invariant todo <= storage[io.instanceID].Keys
        invariant forall o | o in storage[io.instanceID].Keys - todo ::
                    storage[io.instanceID][o].state != InProgress
        decreases |todo|
      {
        var oID :| oID in todo;
        if storage[io.instanceID][oID].state == InProgress {
          return Err(ActiveOperationInProgress);
        }
        todo := todo - {oID};
      }
      storage := storage[io.instanceID := storage[io.instanceID][io.operationID := io.(createdAt := now)]];
      return Ok(());
    }

    method Get(iID: InstanceID, opID: OperationID) returns (op: Result<Operation>)
      ensures op == GetOp(storage, iID, opID)
    {
      if iID == "" || opID == "" {
        return Err(IDsNotSet);
      }
      if iID !in storage {
        return Err(NotFound);
      }
      if opID !in storage[iID] {
        return Err(NotFound);
      }
      return Ok(storage[iID][opID]);
    }

    method GetAll(iID: InstanceID) returns (all: Result<seq<Operation>>)
      ensures all.Ok? <==> GetAllOps(storage, iID).Ok?
      ensures all.Ok? ==> Lists(all.value, GetAllOps(storage, iID).value)
      ensures all.Err? ==> all.error == NotFound
    {
      if iID !in storage {
        return Err(NotFound);
      }
      var out := Collect(storage[iID]);
      return Ok(out);
    }

    method UpdateState(iID: InstanceID, opID: OperationID, state: OperationState) returns (err: Result<()>)
      modifies this
      ensures (err, storage) == UpdateOp(old(storage), iID, opID, state, None)
    {
      err := UpdateStateDesc(iID, opID, state, None);
    }

    method UpdateStateDesc(iID: InstanceID, opID: OperationID, state: OperationState, desc: Option<string>)
      returns (err: Result<()>)
      modifies this
      ensures (err, storage) == UpdateOp(old(storage), iID, opID, state, desc)
    {
      var op := Get(iID, opID);
      if op.Err? {
        return Err(op.error);
      }
      storage := storage[iID := storage[iID][opID := op.value.(state := state, description := desc)]];
      return Ok(());
    }

    method Remove(iID: InstanceID, opID: OperationID) returns (err: Result<()>)
      modifies this
      ensures (err, storage) == RemoveOp(old(storage), iID, opID)
    {
      var op := Get(iID, opID);
      if op.Err? {
        return Err(op.error);
      }
      storage := storage[iID := storage[iID] - {opID}];
      if storage[iID].Keys == {} {
        storage := storage - {iID};
        assert storage == old(storage) - {iID};
      }
      return Ok(());
    }
  }
}
