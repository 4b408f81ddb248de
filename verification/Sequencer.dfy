/** Batch validation and the sequencer that turns submissions into batches. */
module Sequencer {
  import opened Model
  import opened Executor

  // ---------------------------------------------------------------- validation

  /** Indices count up from zero and no transaction appears twice. */
  predicate ValidOrder(batch: Batch) {
    && (forall i | 0 <= i < |batch.txs| :: batch.txs[i].batchIndex == i)
    && (forall i, j | 0 <= i < j < |batch.txs| :: batch.txs[i].txId != batch.txs[j].txId)
  }

  method ValidateBatchOrder(batch: Batch) returns (r: Result<()>)
    ensures r.Success? <==> ValidOrder(batch)
  {
    var seen: set<nat> := {};
    for n := 0 to |batch.txs|
      invariant forall i | 0 <= i < n :: batch.txs[i].batchIndex == i
      invariant forall id :: id in seen <==> exists i :: 0 <= i < n && batch.txs[i].txId == id
      invariant forall i, j | 0 <= i < j < n :: batch.txs[i].txId != batch.txs[j].txId
    {
      if batch.txs[n].batchIndex != n || batch.txs[n].txId in seen {
        return Failure(InvalidBatch);
      }
      seen := seen + {batch.txs[n].txId};
    }
    return Success(());
  }

  method ValidateSets(tx: OrderedTx) returns (r: Result<()>)
    ensures r.Success? <==> ValidSets(tx)
  {
    if ReadSet(tx.op) != tx.readSet || WriteSet(tx.op) != tx.writeSet {
      return Failure(InvalidBatch);
    }
    return Success(());
  }

  predicate Admissible(batch: Batch) {
    ValidOrder(batch) && forall i | 0 <= i < |batch.txs| :: ValidSets(batch.txs[i])
  }

  /** What every scheduler checks before it executes anything: the order first, then the sets
  of each transaction in turn. */
  method ValidateBatch(batch: Batch) returns (r: Result<()>)
    ensures r.Success? <==> Admissible(batch)
    ensures r.Failure? ==> r.error == InvalidBatch
  {
    hide ValidSets;
    var order := ValidateBatchOrder(batch);
    if order.Failure? {
      return Failure(InvalidBatch);
    }
    for n := 0 to |batch.txs|
      invariant forall i | 0 <= i < n :: ValidSets(batch.txs[i])
    {
      var sets := ValidateSets(batch.txs[n]);
      if sets.Failure? {
        return Failure(InvalidBatch);
      }
    }
    return Success(());
  }

  /** The transactions of a failed set, in batch order and renumbered. */
  function FailedTxs(batch: Batch, failed: set<nat>, n: nat): seq<OrderedTx>
    requires n <= |batch.txs|
  {
    if n == 0 then []
    else
      var front := FailedTxs(batch, failed, n - 1);
      if n - 1 in failed then front + [batch.txs[n - 1].(batchIndex := |front|)] else front
  }

  /** A fallback batch is admissible and holds the failed operations in batch order. */
  lemma {:induction false} FallbackAdmissible(batch: Batch, failed: set<nat>, n: nat)
    requires Admissible(batch) && n <= |batch.txs|
    ensures Admissible(Batch(batch.batchId, FailedTxs(batch, failed, n)))
    ensures OpsOf(FailedTxs(batch, failed, n)) == Select(OpsOf(batch.txs), failed, true, n)
    ensures forall i | 0 <= i < |FailedTxs(batch, failed, n)| ::
              exists j :: 0 <= j < n && FailedTxs(batch, failed, n)[i].txId == batch.txs[j].txId
  {
    if n == 0 {
    } else {
      FallbackAdmissible(batch, failed, n - 1);
      hide ReadSet, WriteSet;
      assert ValidSets(batch.txs[n - 1]);
    }
  }

  // ---------------------------------------------------------------- sequencing

  datatype Command = SubmitTx(op: FsOp) | SubmitBatch(ops: seq<FsOp>) | FlushOpen(batchId: nat)

  datatype OpenBatch = OpenBatch(batchId: nat, txs: seq<OrderedTx>)

  /** What a command adds to the sequence of accepted operations. */
  function Accepted(max: nat, command: Command): seq<FsOp> {
    match command
    case SubmitTx(op) => [op]
    case SubmitBatch(ops) => if |ops| > max then [] else ops
    case FlushOpen(_) => []
  }

  function AllAccepted(max: nat, commands: seq<Command>): seq<FsOp> {
    if commands == [] then []
    else AllAccepted(max, commands[..|commands| - 1]) + Accepted(max, commands[|commands| - 1])
  }

  function Flatten(batches: seq<Batch>): seq<OrderedTx> {
    if batches == [] then [] else Flatten(batches[..|batches| - 1]) + batches[|batches| - 1].txs
  }

  lemma FlattenMore(batches: seq<Batch>, batch: Batch)
    ensures Flatten(batches + [batch]) == Flatten(batches) + batch.txs
  {
    assert (batches + [batch])[..|batches|] == batches;
  }

  function Stamp(op: FsOp, txId: nat, index: nat): OrderedTx {
    OrderedTx(txId, index, op, ReadSet(op), WriteSet(op))
  }

  /** Transactions with consecutive ids, numbered from zero, carrying their derived sets. */
  predicate Fresh(txs: seq<OrderedTx>, firstId: nat) {
    forall i | 0 <= i < |txs| :: txs[i] == Stamp(txs[i].op, firstId + i, i)
  }

  lemma FreshAdmissible(batch: Batch, firstId: nat)
    requires Fresh(batch.txs, firstId)
    ensures Admissible(batch)
  {
    hide ReadSet, WriteSet;
  }

  /** A batch as it was dispatched, together with the place of its first transaction. */
  predicate DispatchedOk(max: nat, batches: seq<Batch>) {
    && (forall b | 0 <= b < |batches| :: Admissible(batches[b]) && |batches[b].txs| <= if max == 0 then 1 else max)
    && (forall a, b | 0 <= a < b < |batches| :: batches[a].batchId < batches[b].batchId)
  }

  /** Everything accepted, in order: what was dispatched, then what is still open. */
  function Pipeline(dispatched: seq<Batch>, open: Option<OpenBatch>): seq<OrderedTx> {
    Flatten(dispatched) + if open.Some? then open.value.txs else []
  }

  /** The accepted operations, each exactly once, in acceptance order, with consecutive ids. */
  predicate Conserved(ops: seq<FsOp>, txs: seq<OrderedTx>) {
    |txs| == |ops| && forall i | 0 <= i < |ops| :: txs[i].op == ops[i] && txs[i].txId == i + 1
  }

  /** Ids below a bound, so that the next batch id is new. */
  predicate IdsBelow(dispatched: seq<Batch>, bound: nat) {
    forall b | 0 <= b < |dispatched| :: dispatched[b].batchId < bound
  }

  predicate OpenOk(max: nat, nextBatchId: nat, dispatched: seq<Batch>, open: OpenBatch) {
    && open.batchId < nextBatchId && IdsBelow(dispatched, open.batchId)
    && 0 < |open.txs| < max && Fresh(open.txs, |Flatten(dispatched)| + 1)
  }

  lemma Extend(accepted: seq<FsOp>, all: seq<OrderedTx>, ops: seq<FsOp>, txs: seq<OrderedTx>)
    requires Conserved(accepted, all) && |txs| == |ops|
    requires forall i | 0 <= i < |ops| :: txs[i].op == ops[i] && txs[i].txId == |all| + 1 + i
    ensures Conserved(accepted + ops, all + txs)
  {
  }

  /** Sending a batch moves its transactions from the open end to the dispatched sequence. */
  lemma Dispatch(max: nat, dispatched: seq<Batch>, accepted: seq<FsOp>, batch: Batch)
    requires Conserved(accepted, Flatten(dispatched) + batch.txs) && DispatchedOk(max, dispatched)
    requires Fresh(batch.txs, |Flatten(dispatched)| + 1) && |batch.txs| <= if max == 0 then 1 else max
    requires IdsBelow(dispatched, batch.batchId)
    ensures Conserved(accepted, Pipeline(dispatched + [batch], None)) && DispatchedOk(max, dispatched + [batch])
    ensures IdsBelow(dispatched + [batch], batch.batchId + 1)
  {
    FreshAdmissible(batch, |Flatten(dispatched)| + 1);
    FlattenMore(dispatched, batch);
    hide Admissible, Fresh, Flatten, Conserved;
    assert Flatten(dispatched + [batch]) + [] == Flatten(dispatched) + batch.txs;
  }

  /** The sequencer's books: what was accepted is what is in the pipeline, ids are fresh and
  an open batch is neither empty nor full. */
  ghost predicate Balanced(max: nat, nextBatchId: nat, nextTxId: nat, open: Option<OpenBatch>, dispatched: seq<Batch>,
                           accepted: seq<FsOp>) {
    && Conserved(accepted, Pipeline(dispatched, open))
    && nextTxId == |accepted| + 1
    && DispatchedOk(max, dispatched) && IdsBelow(dispatched, nextBatchId)
    && (open.Some? ==> OpenOk(max, nextBatchId, dispatched, open.value))
  }

  function Sealed(dispatched: seq<Batch>, open: Option<OpenBatch>): seq<Batch> {
    if open.Some? then dispatched + [Batch(open.value.batchId, open.value.txs)] else dispatched
  }

  /** The open batch with one more transaction; a new batch if none is open. */
  function Joined(open: Option<OpenBatch>, nextBatchId: nat, nextTxId: nat, op: FsOp): OpenBatch {
    var current := if open.Some? then open.value else OpenBatch(nextBatchId, []);
    OpenBatch(current.batchId, current.txs + [Stamp(op, nextTxId, |current.txs|)])
  }

  lemma SealBalanced(max: nat, nextBatchId: nat, nextTxId: nat, open: Option<OpenBatch>, dispatched: seq<Batch>,
                     accepted: seq<FsOp>)
    requires Balanced(max, nextBatchId, nextTxId, open, dispatched, accepted)
    ensures Balanced(max, nextBatchId, nextTxId, None, Sealed(dispatched, open), accepted)
  {
    if open.Some? {
      var batch := Batch(open.value.batchId, open.value.txs);
      Dispatch(max, dispatched, accepted, batch);
      hide Fresh, DispatchedOk, Conserved, Flatten;
    }
  }

  /** What joining the open batch does to its transactions and to the order of acceptance. */
  lemma Joins(max: nat, nextBatchId: nat, nextTxId: nat, open: Option<OpenBatch>, dispatched: seq<Batch>,
              accepted: seq<FsOp>, op: FsOp)
    requires Balanced(max, nextBatchId, nextTxId, open, dispatched, accepted)
    ensures var joined := Joined(open, nextBatchId, nextTxId, op);
      && Conserved(accepted + [op], Flatten(dispatched) + joined.txs)
      && Fresh(joined.txs, |Flatten(dispatched)| + 1) && IdsBelow(dispatched, joined.batchId)
      && 0 < |joined.txs| <= (if max == 0 then 1 else max)
      && joined.batchId < if open.Some? then nextBatchId else nextBatchId + 1
  {
    hide Fresh, DispatchedOk, Flatten, IdsBelow, Stamp;
    var current := if open.Some? then open.value else OpenBatch(nextBatchId, []);
    var stamped := Stamp(op, nextTxId, |current.txs|);
    var all := Flatten(dispatched) + current.txs;
    NoneFresh(|Flatten(dispatched)| + 1);
    Stamped(current.txs, |Flatten(dispatched)| + 1, op);
    Extend(accepted, all, [op], [stamped]);
    assert Flatten(dispatched) + (current.txs + [stamped]) == all + [stamped];
  }

  lemma NoneFresh(firstId: nat)
    ensures Fresh([], firstId)
  {
  }

  /** Adding one transaction to the open batch, and sending it if that fills it. */
  lemma SubmitBalanced(max: nat, nextBatchId: nat, nextTxId: nat, open: Option<OpenBatch>, dispatched: seq<Batch>,
                       accepted: seq<FsOp>, op: FsOp)
    requires Balanced(max, nextBatchId, nextTxId, open, dispatched, accepted)
    ensures
      var joined := Joined(open, nextBatchId, nextTxId, op);
      var nextId := if open.Some? then nextBatchId else nextBatchId + 1;
      if |joined.txs| >= max
      then Balanced(max, nextId, nextTxId + 1, None, Sealed(dispatched, Some(joined)), accepted + [op])
      else Balanced(max, nextId, nextTxId + 1, Some(joined), dispatched, accepted + [op])
  {
    hide Joined, Fresh, DispatchedOk, Conserved, Flatten;
    var joined := Joined(open, nextBatchId, nextTxId, op);
    Joins(max, nextBatchId, nextTxId, open, dispatched, accepted, op);
    if |joined.txs| >= max {
      Dispatch(max, dispatched, accepted + [op], Batch(joined.batchId, joined.txs));
    }
  }

  lemma BatchBalanced(max: nat, nextBatchId: nat, nextTxId: nat, dispatched: seq<Batch>, accepted: seq<FsOp>,
                      ops: seq<FsOp>, txs: seq<OrderedTx>)
    requires Balanced(max, nextBatchId, nextTxId, None, dispatched, accepted) && |ops| <= max
    requires Fresh(txs, nextTxId) && |txs| == |ops|
    requires forall i | 0 <= i < |ops| :: txs[i].op == ops[i] && txs[i].txId == nextTxId + i
    ensures Balanced(max, nextBatchId + 1, nextTxId + |ops|, None, dispatched + [Batch(nextBatchId, txs)], accepted + ops)
  {
    assert Flatten(dispatched) + [] == Flatten(dispatched);
    Extend(accepted, Flatten(dispatched), ops, txs);
    Dispatch(max, dispatched, accepted + ops, Batch(nextBatchId, txs));
    hide Fresh, DispatchedOk, Flatten;
  }

  class SequencerActor {
    const maxBatchSize: nat
    var nextBatchId: nat
    var nextTxId: nat
    var openBatch: Option<OpenBatch>
    /** The batches sent to the dispatcher, in order. */
    var dispatched: seq<Batch>
    ghost var accepted: seq<FsOp>

    ghost predicate Valid()
      reads this
    {
      Balanced(maxBatchSize, nextBatchId, nextTxId, openBatch, dispatched, accepted)
    }

    constructor (max: nat)
      ensures Valid() && accepted == [] && maxBatchSize == max && dispatched == [] && openBatch.None?
      ensures nextBatchId == nextTxId == 1
    {
      maxBatchSize := max;
      nextBatchId, nextTxId := 1, 1;
      openBatch, dispatched, accepted := None, [], [];
    }

    method SealOpenBatch()
      requires Valid()
      modifies this`openBatch, this`dispatched
      ensures Valid() && openBatch.None?
      ensures dispatched == Sealed(old(dispatched), old(openBatch))
    {
      hide Balanced;
      SealBalanced(maxBatchSize, nextBatchId, nextTxId, openBatch, dispatched, accepted);
      if openBatch.Some? {
        var open := openBatch.value;
        openBatch := None;
        dispatched := dispatched + [Batch(open.batchId, open.txs)];
      }
    }

    method SubmitTx(op: FsOp) returns (txId: nat)
      requires Valid()
      modifies this
      ensures Valid() && accepted == old(accepted) + [op] && txId == old(nextTxId)
      ensures var joined := Joined(old(openBatch), old(nextBatchId), old(nextTxId), op);
        if |joined.txs| >= maxBatchSize
        then openBatch.None? && dispatched == Sealed(old(dispatched), Some(joined))
        else openBatch == Some(joined) && dispatched == old(dispatched)
    {
      hide Balanced;
      SubmitBalanced(maxBatchSize, nextBatchId, nextTxId, openBatch, dispatched, accepted, op);
      txId := nextTxId;
      if openBatch.None? {
        openBatch := Some(OpenBatch(nextBatchId, []));
        nextBatchId := nextBatchId + 1;
      }
      var open := openBatch.value;
      var txs := open.txs + [Stamp(op, txId, |open.txs|)];
      openBatch := Some(OpenBatch(open.batchId, txs));
      nextTxId := nextTxId + 1;
      accepted := accepted + [op];
      if |txs| >= maxBatchSize {
        openBatch := None;
        dispatched := dispatched + [Batch(open.batchId, txs)];
      }
    }

    method SubmitBatch(ops: seq<FsOp>) returns (r: Result<nat>)
      requires Valid()
      modifies this
      ensures Valid()
      ensures r.Success? <==> |ops| <= maxBatchSize
      ensures r.Failure? ==> r.error == BatchTooLarge && dispatched == old(dispatched) && openBatch == old(openBatch)
      ensures accepted == if r.Success? then old(accepted) + ops else old(accepted)
      ensures r.Success? ==>
        && r.value == old(nextBatchId) && openBatch.None?
        && |dispatched| == |Sealed(old(dispatched), old(openBatch))| + 1
        && dispatched[..|dispatched| - 1] == Sealed(old(dispatched), old(openBatch))
        && var last := dispatched[|dispatched| - 1];
           last.batchId == r.value && OpsOf(last.txs) == ops && Fresh(last.txs, old(nextTxId))
    {
      hide Balanced;
      if |ops| > maxBatchSize {
        return Failure(BatchTooLarge);
      }
      SealOpenBatch();
      var txs := StampAll(ops, nextTxId);
      BatchBalanced(maxBatchSize, nextBatchId, nextTxId, dispatched, accepted, ops, txs);
      var batch := Batch(nextBatchId, txs);
      nextTxId, nextBatchId := nextTxId + |ops|, nextBatchId + 1;
      accepted, dispatched := accepted + ops, dispatched + [batch];
      return Success(batch.batchId);
    }

    /** A timer for a batch that is no longer open does nothing. */
    method FlushOpen(batchId: nat)
      requires Valid()
      modifies this`openBatch, this`dispatched
      ensures Valid()
      ensures if old(openBatch).Some? && old(openBatch).value.batchId == batchId
        then openBatch.None? && dispatched == Sealed(old(dispatched), old(openBatch))
        else dispatched == old(dispatched) && openBatch == old(openBatch)
    {
      if openBatch.Some? && openBatch.value.batchId == batchId {
        SealOpenBatch();
      }
    }
  }

  lemma Stamped(txs: seq<OrderedTx>, firstId: nat, op: FsOp)
    requires Fresh(txs, firstId)
    ensures Fresh(txs + [Stamp(op, firstId + |txs|, |txs|)], firstId)
    ensures var tx := Stamp(op, firstId + |txs|, |txs|); tx.op == op && tx.txId == firstId + |txs|
  {
  }

  /** Consecutive ids, positions and derived sets for the operations of one submission. */
  method StampAll(ops: seq<FsOp>, firstId: nat) returns (txs: seq<OrderedTx>)
    ensures Fresh(txs, firstId) && |txs| == |ops|
    ensures forall i | 0 <= i < |ops| :: txs[i].op == ops[i] && txs[i].txId == firstId + i
  {
    txs := [];
    for i := 0 to |ops|
      invariant |txs| == i && Fresh(txs, firstId)
      invariant forall j | 0 <= j < i :: txs[j].op == ops[j] && txs[j].txId == firstId + j
    {
      Stamped(txs, firstId, ops[i]);
      txs := txs + [Stamp(ops[i], firstId + i, i)];
    }
  }

  /** Conservation over every sequence of commands, with timers firing when they like: every
  accepted operation appears exactly once, in acceptance and id order, across the dispatched
  batches followed by the open one; batch ids increase strictly, sizes stay within the limit
  and every dispatched batch passes validation. */
  method RunSequencer(max: nat, commands: seq<Command>) returns (dispatched: seq<Batch>, open: Option<OpenBatch>)
    ensures Conserved(AllAccepted(max, commands), Pipeline(dispatched, open))
    ensures DispatchedOk(max, dispatched)
    ensures open.Some? ==> 0 < |open.value.txs| < max
  {
    var actor := new SequencerActor(max);
    hide Conserved, DispatchedOk, IdsBelow, Fresh, Joined, Sealed, OpsOf, Flatten;
    for n := 0 to |commands|
      invariant fresh(actor) && actor.Valid() && actor.maxBatchSize == max
      invariant actor.accepted == AllAccepted(max, commands[..n])
    {
      assert commands[..n + 1][..n] == commands[..n];
      match commands[n] {
        case SubmitTx(op) =>
          var _ := actor.SubmitTx(op);
        case SubmitBatch(ops) =>
          var _ := actor.SubmitBatch(ops);
        case FlushOpen(batchId) =>
          actor.FlushOpen(batchId);
      }
    }
    assert commands[..|commands|] == commands;
    return actor.dispatched, actor.openBatch;
  }
}
