/**
 The states of instances and bindings are never stored: they are read off the list of
 operations, which the store hands over in no particular order.
 */
module OperationQueries {
  import opened Values
  import opened Listings
  import opened Operations

  /** Some operation of the list has this type and state. */
  ghost predicate SomeOp(ops: seq<Operation>, kind: OperationType, state: OperationState) {
    exists n | 0 <= n < |ops| :: ops[n].kind == kind && ops[n].state == state
  }

  method IsProvisioned(got: Result<seq<Operation>>) returns (answer: Result<bool>)
    ensures got.Ok? ==> answer ==
                        Ok(SomeOp(got.value, Create, Succeeded) && !SomeOp(got.value, Remove, Succeeded))
    ensures got.Err? ==> answer == if got.error == NotFound then Ok(false) else Err(got.error)
  {
    if got.Err? {
      return if got.error == NotFound then Ok(false) else Err(got.error);
    }
    var ops, result, n := got.value, false, 0;
    while n < |ops|
      invariant 0 <= n <= |ops|
      invariant result == SomeOp(ops[..n], Create, Succeeded)
      invariant !SomeOp(ops[..n], Remove, Succeeded)
    {
      SomeOpSnoc(ops, n, Create, Succeeded);
      SomeOpSnoc(ops, n, Remove, Succeeded);
      if ops[n].kind == Create && ops[n].state == Succeeded {
        result := true;
      }
      if ops[n].kind == Remove && ops[n].state == Succeeded {
        return Ok(false);
      }
      n := n + 1;
    }
    assert ops[..n] == ops;
    return Ok(result);
  }

  lemma SomeOpSnoc(ops: seq<Operation>, n: nat, kind: OperationType, state: OperationState)
    requires n < |ops|
    ensures SomeOp(ops[..n + 1], kind, state) <==>
            SomeOp(ops[..n], kind, state) || (ops[n].kind == kind && ops[n].state == state)
  {
    assert forall m | 0 <= m < n :: ops[..n][m] == ops[m] == ops[..n + 1][m];
    assert ops[..n + 1][n] == ops[n];
  }

  method IsDeprovisioned(got: Result<seq<Operation>>) returns (answer: Result<bool>)
    ensures got.Ok? ==> answer == Ok(SomeOp(got.value, Remove, Succeeded))
    ensures got.Err? ==> answer == Err(got.error)
  {
    if got.Err? {
      return Err(got.error);
    }
    var ops, n := got.value, 0;
    while n < |ops|
      invariant 0 <= n <= |ops|
      invariant !SomeOp(ops[..n], Remove, Succeeded)
    {
      SomeOpSnoc(ops, n, Remove, Succeeded);
      if ops[n].kind == Remove && ops[n].state == Succeeded {
        return Ok(true);
      }
      n := n + 1;
    }
    assert ops[..n] == ops;
    return Ok(false);
  }

  /** The first operation in list order that is in progress with this type. */
  function FirstInProgress(ops: seq<Operation>, kind: OperationType): Option<OperationID> {
    if ops == [] then None
    else if ops[0].kind == kind && ops[0].state == InProgress then Some(ops[0].operationID)
    else FirstInProgress(ops[1..], kind)
  }

  /** `IsProvisioningInProgress` and `IsDeprovisioningInProgress`: the same loop for the two types. */
  method IsInProgress(got: Result<seq<Operation>>, kind: OperationType) returns (answer: Result<Option<OperationID>>)
    ensures got.Ok? ==> answer == Ok(FirstInProgress(got.value, kind))
    ensures got.Err? ==> answer == if got.error == NotFound then Ok(None) else Err(got.error)
  {
    if got.Err? {
      return if got.error == NotFound then Ok(None) else Err(got.error);
    }
    var ops, n := got.value, 0;
    while n < |ops|
      invariant 0 <= n <= |ops|
      invariant FirstInProgress(ops, kind) == FirstInProgress(ops[n..], kind)
    {
      if ops[n].kind == kind && ops[n].state == InProgress {
        return Ok(Some(ops[n].operationID));
      }
      n := n + 1;
    }
    return Ok(None);
  }

  // ----- the order of the list does not matter -----

  lemma SomeOpOfStore(list: seq<Operation>, ops: Inner, kind: OperationType, state: OperationState)
    requires Lists(list, ops)
    ensures SomeOp(list, kind, state) <==> exists o | o in ops :: ops[o].kind == kind && ops[o].state == state
  {
    ListsValues(list, ops);
    hide Lists;
    if o :| o in ops && ops[o].kind == kind && ops[o].state == state {
      assert ops[o] in list;
    }
    if SomeOp(list, kind, state) {
      var n :| 0 <= n < |list| && list[n].kind == kind && list[n].state == state;
      assert list[n] in list;
      var o :| o in ops && ops[o] == list[n];
    }
  }

  lemma {:induction false} FirstInProgressIsOne(ops: seq<Operation>, kind: OperationType)
    ensures FirstInProgress(ops, kind).Some? <==> SomeOp(ops, kind, InProgress)
    ensures FirstInProgress(ops, kind).Some? ==>
              exists n | 0 <= n < |ops| ::
                ops[n].kind == kind && ops[n].state == InProgress &&
                FirstInProgress(ops, kind) == Some(ops[n].operationID)
  {
    if ops != [] {
      if ops[0].kind == kind && ops[0].state == InProgress {
        assert FirstInProgress(ops, kind) == Some(ops[0].operationID);
      } else {
        var tail := ops[1..];
        FirstInProgressIsOne(tail, kind);
        if FirstInProgress(tail, kind).Some? {
          var n :| 0 <= n < |tail| && tail[n].kind == kind && tail[n].state == InProgress &&
                   FirstInProgress(tail, kind) == Some(tail[n].operationID);
          assert ops[n + 1] == tail[n];
        }
        if m :| 0 <= m < |ops| && ops[m].kind == kind && ops[m].state == InProgress {
          assert tail[m - 1] == ops[m];
        }
      }
    }
  }

  /**
   With one operation in progress the reported ID is that operation's, whatever the order;
   with none of the asked type nothing is reported.
   */
  lemma InProgressIDIsUnique(list: seq<Operation>, ops: Inner, o: OperationID, kind: OperationType)
    requires Lists(list, ops)
    requires o in ops && ops[o].state == InProgress && ops[o].operationID == o
    requires forall p | p in ops && ops[p].state == InProgress :: p == o
    ensures FirstInProgress(list, kind) == if ops[o].kind == kind then Some(o) else None
  {
    FirstInProgressIsOne(list, kind);
    SomeOpOfStore(list, ops, kind, InProgress);
    var order :| Enumerates(list, ops, order);
    if FirstInProgress(list, kind).Some? {
      var n :| 0 <= n < |list| && list[n].kind == kind && list[n].state == InProgress &&
               FirstInProgress(list, kind) == Some(list[n].operationID);
      assert order[n] == o;
    }
  }

  // ----- bindings -----

  type BindingID = string

  datatype BindOperation = BindOperation(
    instanceID: InstanceID, bindingID: BindingID, operationID: OperationID,
    kind: OperationType, state: OperationState)

  predicate Matches(op: BindOperation, b: BindingID, kind: OperationType, state: OperationState) {
    op.bindingID == b && op.kind == kind && op.state == state
  }

  ghost predicate SomeBindOp(ops: seq<BindOperation>, b: BindingID, kind: OperationType, state: OperationState) {
    exists n | 0 <= n < |ops| :: ops[n].bindingID == b && ops[n].kind == kind && ops[n].state == state
  }

  /** The answer is order-independent; the operation returned with it is one that created the binding. */
  method IsBound(got: Result<seq<BindOperation>>, b: BindingID) returns (answer: Result<Option<BindOperation>>)
    ensures got.Ok? ==>
              answer.Ok? &&
              (answer.value.Some? <==>
                 SomeBindOp(got.value, b, Create, Succeeded) && !SomeBindOp(got.value, b, Remove, Succeeded)) &&
              (answer.value.Some? ==>
                 var op := answer.value.value;
                 op in got.value && op.bindingID == b && op.kind == Create && op.state == Succeeded)
    ensures got.Err? ==> answer == if got.error == NotFound then Ok(None) else Err(got.error)
  {
    if got.Err? {
      return if got.error == NotFound then Ok(None) else Err(got.error);
    }
    var ops, n := got.value, 0;
    var bound: Option<BindOperation> := None;
    while n < |ops|
      invariant 0 <= n <= |ops|
      invariant bound.Some? <==> exists m | 0 <= m < n :: Matches(ops[m], b, Create, Succeeded)
      invariant bound.Some? ==> bound.value in ops && Matches(bound.value, b, Create, Succeeded)
      invariant forall m | 0 <= m < n :: !Matches(ops[m], b, Remove, Succeeded)
    {
      if Matches(ops[n], b, Create, Succeeded) {
        bound := Some(ops[n]);
      }
      if Matches(ops[n], b, Remove, Succeeded) {
        return Ok(None);
      }
      n := n + 1;
    }
    return Ok(bound);
  }

  method IsBindingInProgress(got: Result<seq<BindOperation>>, b: BindingID)
    returns (answer: Result<Option<OperationID>>)
    ensures got.Ok? ==>
              answer.Ok? &&
              (answer.value.Some? <==> SomeBindOp(got.value, b, Create, InProgress)) &&
              (answer.value.Some? ==>
                 exists n | 0 <= n < |got.value| ::
                   && got.value[n].bindingID == b && got.value[n].kind == Create && got.value[n].state == InProgress
                   && answer.value.value == got.value[n].operationID)
    ensures got.Err? ==> answer == if got.error == NotFound then Ok(None) else Err(got.error)
  {
    if got.Err? {
      return if got.error == NotFound then Ok(None) else Err(got.error);
    }
    var ops, n := got.value, 0;
    while n < |ops|
      invariant 0 <= n <= |ops|
      invariant forall m | 0 <= m < n :: !Matches(ops[m], b, Create, InProgress)
    {
      if Matches(ops[n], b, Create, InProgress) {
        return Ok(Some(ops[n].operationID));
      }
      n := n + 1;
    }
    return Ok(None);
  }
}
