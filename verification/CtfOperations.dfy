/** crates/execution/src/ctf.rs: split, merge and redeem operations under a relayer.

    The tracker keeps a map of operations and an index from relayer transaction ids to
    operations. Its specification has neither: it is the list of operations in the order they
    were recorded, searched from end to end. */
module CtfOperations {
  import opened Options
  import opened Text

  datatype Kind = Split | Merge | Redeem

  datatype Status = Planned | Submitted | Confirmed | Failed

  datatype Operation = Operation(
    kind: Kind, conditionId: Bytes, relayerId: Option<Bytes>, nonce: Option<Bytes>,
    txHash: Option<Bytes>, status: Status, attemptId: Option<Bytes>)

  datatype TrackerError =
    | OperationNotFound(operationId: nat)
    | SubmittedRequiresRelayerMetadata
    | ConfirmedRequiresTxHash
    | RelayerMetadataFrozen(status: Status)
    | IllegalStatusTransition(from: Status, to: Status)
    | RelayerTransactionIdConflict(relayerId: Bytes)
    | RelayerTransactionIdAlreadyBound
    | NonceAlreadyBound(existing: Bytes, offered: Bytes)

  datatype Command =
    | Record(operation: Operation)
    | Attach(id: nat, relayerId: Option<Bytes>, nonce: Option<Bytes>)
    | Update(id: nat, status: Status, txHash: Option<Bytes>)

  /** `validate_operation_for_status`. */
  function MissingFor(operation: Operation, status: Status): Option<TrackerError> {
    if status in {Submitted, Confirmed} && (operation.relayerId.None? || operation.nonce.None?)
    then Some(SubmittedRequiresRelayerMetadata)
    else if status == Confirmed && operation.txHash.None? then Some(ConfirmedRequiresTxHash)
    else None
  }

  function WithStatus(operation: Operation, status: Status, txHash: Option<Bytes>): Operation {
    operation.(status := status, txHash := txHash.Or(operation.txHash))
  }

  function WithMetadata(operation: Operation, relayerId: Option<Bytes>, nonce: Option<Bytes>): Operation {
    operation.(relayerId := relayerId.Or(operation.relayerId), nonce := operation.nonce.Or(nonce))
  }

  // ----- The specification: a list of operations -----

  /** Some operation other than the one excepted carries the relayer id. */
  ghost predicate Taken(ops: seq<Operation>, relayerId: Bytes, except: Option<nat>) {
    exists i :: 0 <= i < |ops| && ops[i].relayerId == Some(relayerId) && except != Some(i)
  }

  ghost function Refusal(ops: seq<Operation>, c: Command): Option<TrackerError> {
    match c
    case Record(op) =>
      if MissingFor(op, op.status).Some? then MissingFor(op, op.status)
      else if op.relayerId.Some? && Taken(ops, op.relayerId.value, None)
      then Some(RelayerTransactionIdConflict(op.relayerId.value))
      else None
    case Attach(id, relayerId, nonce) =>
      if id >= |ops| then Some(OperationNotFound(id))
      else if ops[id].status != Planned then Some(RelayerMetadataFrozen(ops[id].status))
      else if relayerId.Some? && ops[id].relayerId.Some? && ops[id].relayerId != relayerId
      then Some(RelayerTransactionIdAlreadyBound)
      else if relayerId.Some? && Taken(ops, relayerId.value, Some(id))
      then Some(RelayerTransactionIdConflict(relayerId.value))
      else if nonce.Some? && ops[id].nonce.Some? && ops[id].nonce != nonce
      then Some(NonceAlreadyBound(ops[id].nonce.value, nonce.value))
      else None
    case Update(id, status, txHash) =>
      if id >= |ops| then Some(OperationNotFound(id))
      else if status == Planned && ops[id].status != Planned then Some(IllegalStatusTransition(ops[id].status, status))
      else MissingFor(WithStatus(ops[id], status, txHash), status)
  }

  /** A refused call changes nothing. */
  ghost function Step(ops: seq<Operation>, c: Command): seq<Operation> {
    if Refusal(ops, c).Some? then ops
    else match c
      case Record(op) => ops + [op]
      case Attach(id, relayerId, nonce) => ops[id := WithMetadata(ops[id], relayerId, nonce)]
      case Update(id, status, txHash) => ops[id := WithStatus(ops[id], status, txHash)]
  }

  ghost function Run(ops: seq<Operation>, commands: seq<Command>): seq<Operation>
    decreases |commands|
  {
    if commands == [] then ops else Run(Step(ops, commands[0]), commands[1..])
  }

  // ----- Every run -----

  /** No relayer id is shared, and operations past planning carry what their status needs. */
  ghost predicate Sound(ops: seq<Operation>) {
    && (forall i, j :: 0 <= i < j < |ops| && ops[i].relayerId.Some? ==> ops[i].relayerId != ops[j].relayerId)
    && (forall i :: 0 <= i < |ops| ==> MissingFor(ops[i], ops[i].status).None?)
  }

  /** What an operation keeps for good. */
  ghost predicate Keeps(was: Operation, now: Operation) {
    && (now.kind, now.conditionId, now.attemptId) == (was.kind, was.conditionId, was.attemptId)
    && (was.relayerId.Some? ==> now.relayerId == was.relayerId)
    && (was.nonce.Some? ==> now.nonce == was.nonce)
    && (was.txHash.Some? ==> now.txHash.Some?)
    && (was.status != Planned ==> now.status != Planned && now.relayerId == was.relayerId && now.nonce == was.nonce)
  }

  ghost predicate AllKept(was: seq<Operation>, now: seq<Operation>) {
    |was| <= |now| && forall i :: 0 <= i < |was| ==> Keeps(was[i], now[i])
  }

  lemma StepKeepsSound(ops: seq<Operation>, c: Command)
    requires Sound(ops)
    ensures Sound(Step(ops, c)) && AllKept(ops, Step(ops, c))
  {
    var now := Step(ops, c);
    if c.Record? && Refusal(ops, c).None? {
      forall i | 0 <= i < |ops| && ops[i].relayerId.Some? ensures ops[i].relayerId != c.operation.relayerId {
        assert c.operation.relayerId == ops[i].relayerId ==> Taken(ops, ops[i].relayerId.value, None);
      }
    }
    if c.Attach? && Refusal(ops, c).None? {
      forall i | 0 <= i < |ops| && i != c.id && now[c.id].relayerId.Some?
        ensures ops[i].relayerId != now[c.id].relayerId
      {
        assert ops[i].relayerId.Some? ==>
                 (ops[i].relayerId == c.relayerId ==> Taken(ops, ops[i].relayerId.value, Some(c.id)));
      }
    }
  }

  lemma KeepsTransitive(a: seq<Operation>, b: seq<Operation>, c: seq<Operation>)
    requires AllKept(a, b) && AllKept(b, c)
    ensures AllKept(a, c)
  {
    forall i | 0 <= i < |a| ensures Keeps(a[i], c[i]) {
      assert Keeps(a[i], b[i]) && Keeps(b[i], c[i]);
    }
  }

  /** From a sound tracker every run is sound; operations are never dropped, bound relayer ids and
      nonces never change, nothing returns to Planned, and metadata is frozen from then on. */
  lemma {:induction false} RunsKeepSound(ops: seq<Operation>, commands: seq<Command>)
    requires Sound(ops)
    ensures Sound(Run(ops, commands)) && AllKept(ops, Run(ops, commands))
    decreases |commands|
  {
    if commands != [] {
      var next := Step(ops, commands[0]);
      StepKeepsSound(ops, commands[0]);
      RunsKeepSound(next, commands[1..]);
      KeepsTransitive(ops, next, Run(next, commands[1..]));
    }
  }

  ghost predicate Hopeless(op: Operation) {
    op.status == Failed && (op.relayerId.None? || op.nonce.None?)
  }

  /** An operation that failed before its metadata was complete stays failed whatever is called. */
  lemma {:induction false} HopelessForever(ops: seq<Operation>, commands: seq<Command>, i: nat)
    requires i < |ops| && Hopeless(ops[i])
    ensures i < |Run(ops, commands)| && Hopeless(Run(ops, commands)[i])
    decreases |commands|
  {
    if commands != [] {
      HopelessForever(Step(ops, commands[0]), commands[1..], i);
    }
  }

  /** Any other operation can be brought to Confirmed: metadata still missing can be attached while
      it is Planned, and complete metadata lets every status through. */
  lemma OthersCanConfirm(ops: seq<Operation>, i: nat, relayerId: Bytes, nonce: Bytes, txHash: Bytes)
    requires Sound(ops) && i < |ops| && !Hopeless(ops[i])
    requires !Taken(ops, relayerId, None)
    ensures var op := ops[i];
            var attach := Attach(i, if op.relayerId.Some? then None else Some(relayerId),
                                 if op.nonce.Some? then None else Some(nonce));
            var done := Run(ops, [attach, Update(i, Confirmed, Some(txHash))]);
            |done| == |ops| && done[i].status == Confirmed
  {
    var op := ops[i];
    var attach := Attach(i, if op.relayerId.Some? then None else Some(relayerId),
                         if op.nonce.Some? then None else Some(nonce));
    var update := Update(i, Confirmed, Some(txHash));
    var middle := Step(ops, attach);
    assert [attach, update][1..] == [update] && [update][1..] == [];
    assert Run(ops, [attach, update]) == Run(middle, [update]) == Step(middle, update);
    assert forall j :: 0 <= j < |ops| ==> ops[j].relayerId != Some(relayerId);
    assert middle[i].relayerId.Some? && middle[i].nonce.Some?;
  }

  // ----- The tracker -----

  /** Ids run up to next, and the index is exactly the inverse of the operations' relayer ids. */
  ghost predicate Inverts(operations: map<nat, Operation>, index: map<Bytes, nat>, next: nat) {
    && (forall i: nat :: i in operations <==> i < next)
    && (forall r :: r in index ==> index[r] in operations && operations[index[r]].relayerId == Some(r))
    && (forall i :: i in operations && operations[i].relayerId.Some? ==>
          operations[i].relayerId.value in index && index[operations[i].relayerId.value] == i)
  }

  /** Giving an operation a relayer id that nothing else holds, or keeping the one it has. */
  lemma BindingKeepsInverse(operations: map<nat, Operation>, index: map<Bytes, nat>, next: nat, id: nat, op: Operation)
    requires Inverts(operations, index, next) && id in operations
    requires operations[id].relayerId.Some? ==> op.relayerId == operations[id].relayerId
    requires forall i :: i in operations && i != id && op.relayerId.Some? ==> operations[i].relayerId != op.relayerId
    ensures Inverts(operations[id := op], if op.relayerId.Some? then index[op.relayerId.value := id] else index, next)
  {
  }

  /** Handing out the next id to an operation whose relayer id nothing else holds. */
  lemma AppendKeepsInverse(operations: map<nat, Operation>, index: map<Bytes, nat>, next: nat, op: Operation)
    requires Inverts(operations, index, next)
    requires forall i :: i in operations && op.relayerId.Some? ==> operations[i].relayerId != op.relayerId
    ensures Inverts(operations[next := op], if op.relayerId.Some? then index[op.relayerId.value := next] else index,
                    next + 1)
  {
  }

  class CtfTracker {
    var operations: map<nat, Operation>
    var relayerIndex: map<Bytes, nat>
    var nextOperationId: nat

    /** Ids are handed out in order, and the index inverts the operations' relayer ids. */
    ghost predicate Valid()
      reads this
    {
      Inverts(operations, relayerIndex, nextOperationId)
    }

    ghost function Contents(): (ops: seq<Operation>)
      reads this
      requires Valid()
      ensures |ops| == nextOperationId && forall i :: 0 <= i < |ops| ==> ops[i] == operations[i]
    {
      seq(nextOperationId, i requires 0 <= i < nextOperationId && i in operations reads this => operations[i])
    }

    constructor ()
      ensures Valid() && Contents() == []
    {
      operations, relayerIndex, nextOperationId := map[], map[], 0;
    }

    /** The index answers what a search of all operations would. */
    method EnsureRelayerIdAvailable(relayerId: Option<Bytes>, operationId: Option<nat>)
      returns (e: Option<TrackerError>)
      requires Valid()
      ensures e == if relayerId.Some? && Taken(Contents(), relayerId.value, operationId)
                   then Some(RelayerTransactionIdConflict(relayerId.value)) else None
    {
      e := None;
      if relayerId.Some? && relayerId.value in relayerIndex {
        ghost var holder := relayerIndex[relayerId.value];
        assert Contents()[holder].relayerId == relayerId;
        if Some(relayerIndex[relayerId.value]) != operationId {
          e := Some(RelayerTransactionIdConflict(relayerId.value));
        }
      }
    }

    method Record(operation: Operation) returns (r: Result<nat, TrackerError>)
      requires Valid()
      modifies this
      ensures Valid() && Contents() == Step(old(Contents()), Command.Record(operation))
      ensures r == match Refusal(old(Contents()), Command.Record(operation))
                   case Some(e) => Err(e)
                   case None => Ok(old(|Contents()|))
    {
      var missing := MissingFor(operation, operation.status);
      if missing.Some? {
        return Err(missing.value);
      }
      var taken := EnsureRelayerIdAvailable(operation.relayerId, None);
      if taken.Some? {
        return Err(taken.value);
      }
      r := Ok(nextOperationId);
      Append(operation);
    }

    /** The part of `record` after its checks. */
    method Append(operation: Operation)
      requires Valid()
      requires operation.relayerId.Some? ==> !Taken(Contents(), operation.relayerId.value, None)
      modifies this
      ensures Valid() && Contents() == old(Contents()) + [operation]
    {
      ghost var before := Contents();
      var id := nextOperationId;
      forall i | i in operations && operation.relayerId.Some?
        ensures operations[i].relayerId != operation.relayerId
      {
        assert Contents()[i] == operations[i];
      }
      AppendKeepsInverse(operations, relayerIndex, nextOperationId, operation);
      if operation.relayerId.Some? {
        relayerIndex := relayerIndex[operation.relayerId.value := id];
      }
      nextOperationId := nextOperationId + 1;
      operations := operations[id := operation];
      assert Contents() == before + [operation];
    }

    method AttachRelayerMetadata(id: nat, relayerId: Option<Bytes>, nonce: Option<Bytes>)
      returns (r: Result<(), TrackerError>)
      requires Valid()
      modifies this
      ensures Valid() && Contents() == Step(old(Contents()), Attach(id, relayerId, nonce))
      ensures r == match Refusal(old(Contents()), Attach(id, relayerId, nonce))
                   case Some(e) => Err(e)
                   case None => Ok(())
    {
      if id !in operations {
        return Err(OperationNotFound(id));
      }
      var existing := operations[id];
      assert Contents()[id] == existing;
      if existing.status != Planned {
        return Err(RelayerMetadataFrozen(existing.status));
      }
      if relayerId.Some? {
        if existing.relayerId.Some? && existing.relayerId != relayerId {
          return Err(RelayerTransactionIdAlreadyBound);
        }
        var taken := EnsureRelayerIdAvailable(relayerId, Some(id));
        if taken.Some? {
          return Err(taken.value);
        }
      }
      if nonce.Some? && existing.nonce.Some? && existing.nonce != nonce {
        return Err(NonceAlreadyBound(existing.nonce.value, nonce.value));
      }
      Bind(id, relayerId, nonce);
      r := Ok(());
    }

    /** The part of `attach_relayer_metadata` after its checks. */
    method Bind(id: nat, relayerId: Option<Bytes>, nonce: Option<Bytes>)
      requires Valid() && id in operations
      requires relayerId.Some? ==> !Taken(Contents(), relayerId.value, Some(id))
      requires relayerId.Some? && operations[id].relayerId.Some? ==> operations[id].relayerId == relayerId
      modifies this
      ensures Valid()
      ensures Contents() == old(Contents())[id := WithMetadata(old(Contents())[id], relayerId, nonce)]
    {
      ghost var before := Contents();
      ghost var op := WithMetadata(operations[id], relayerId, nonce);
      forall i | i in operations && i != id && op.relayerId.Some? ensures operations[i].relayerId != op.relayerId {
        assert before[i] == operations[i];
      }
      BindingKeepsInverse(operations, relayerIndex, nextOperationId, id, op);
      var operation := operations[id];
      if relayerId.Some? {
        relayerIndex := relayerIndex[relayerId.value := id];
        operation := operation.(relayerId := relayerId);
      } else if operation.relayerId.Some? {
        assert relayerIndex[operation.relayerId.value := id] == relayerIndex;
      }
      if nonce.Some? && operation.nonce.None? {
        operation := operation.(nonce := nonce);
      }
      operations := operations[id := operation];
      assert Contents() == before[id := operation];
    }

    method UpdateStatus(id: nat, status: Status, txHash: Option<Bytes>) returns (r: Result<(), TrackerError>)
      requires Valid()
      modifies this
      ensures Valid() && Contents() == Step(old(Contents()), Update(id, status, txHash))
      ensures r == match Refusal(old(Contents()), Update(id, status, txHash))
                   case Some(e) => Err(e)
                   case None => Ok(())
    {
      if id !in operations {
        return Err(OperationNotFound(id));
      }
      ghost var before := Contents();
      var existing := operations[id];
      assert before[id] == existing;
      if status == Planned && existing.status != Planned {
        return Err(IllegalStatusTransition(existing.status, status));
      }
      var candidate := existing.(status := status);
      if txHash.Some? {
        candidate := candidate.(txHash := txHash);
      }
      var missing := MissingFor(candidate, status);
      if missing.Some? {
        return Err(missing.value);
      }
      operations := operations[id := candidate];
      assert Contents() == before[id := candidate];
      r := Ok(());
    }

    method OperationById(id: nat) returns (r: Option<Operation>)
      requires Valid()
      ensures r == if id < |Contents()| then Some(Contents()[id]) else None
    {
      r := if id in operations then Some(operations[id]) else None;
    }

    /** `operation_by_relayer_transaction_id`: the one operation that carries the id, if any does. */
    method OperationByRelayerId(relayerId: Bytes) returns (r: Option<Operation>)
      requires Valid()
      ensures r.None? <==> !Taken(Contents(), relayerId, None)
      ensures r.Some? ==>
                exists i :: 0 <= i < |Contents()| && Contents()[i].relayerId == Some(relayerId)
                            && r.value == Contents()[i]
      ensures forall i, j :: 0 <= i < j < |Contents()| ==>
                !(Contents()[i].relayerId == Contents()[j].relayerId == Some(relayerId))
    {
      if relayerId in relayerIndex {
        var id := relayerIndex[relayerId];
        assert Contents()[id].relayerId == Some(relayerId);
        r := if id in operations then Some(operations[id]) else None;
      } else {
        r := None;
      }
    }
  }
}
