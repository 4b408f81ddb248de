/** The deterministic transaction semantics: which keys an operation reads and writes,
and what it answers and writes given the values read. */
module Executor {
  import opened Model

  function ReadSet(op: FsOp): set<Key> {
    match op
    case Rename(src, dst) =>
      if src == dst || src.Root? || dst.Root? then {src, dst} else {src.dir, dst.dir, src, dst}
    case Stat(path) => {path}
    case _ => if op.path.Root? then {op.path} else {op.path.dir, op.path}
  }

  function WriteSet(op: FsOp): set<Key> {
    if op.Stat? then {} else ReadSet(op)
  }

  /** Batch validation: the sets a transaction carries are the ones its operation derives. */
  predicate ValidSets(tx: OrderedTx) {
    tx.readSet == ReadSet(tx.op) && tx.writeSet == WriteSet(tx.op)
  }

  function ReadKey(view: Reads, key: Key): Result<Option<Inode>> {
    if key !in view then Failure(InvalidBatch)
    else match view[key]
      case Present(inode) => Success(Some(inode))
      case Missing => Success(None)
  }

  function NoWrites(result: TxResult): TxOutput { TxOutput(result, []) }

  /** `child_count += 1` on a u64, wrapping as an optimised build does. */
  function Increment(n: u64): u64 { if n == U64_MAX then 0 else n + 1 }

  /** `child_count.saturating_sub(1)`. */
  function Decrement(n: u64): u64 { if n == 0 then 0 else n - 1 }

  function Grow(dir: Inode): Inode { dir.(childCount := Increment(dir.childCount)) }

  function Shrink(dir: Inode): Inode { dir.(childCount := Decrement(dir.childCount)) }

  function ExecMkdir(path: Key, view: Reads): Result<TxOutput> {
    if path.Root? then
      var cur :- ReadKey(view, path);
      Success(if cur.Some? then NoWrites(AlreadyExists)
              else TxOutput(Ok, [Put(path, DirectoryInode(0))]))
    else
      ExecAdd(path, DirectoryInode(0), view)
  }

  function ExecCreate(path: Key, view: Reads): Result<TxOutput> {
    if path.Root? then Success(NoWrites(Invalid)) else ExecAdd(path, FileInode(), view)
  }

  /** The common part of mkdir and create below the root. */
  function ExecAdd(path: Key, inode: Inode, view: Reads): Result<TxOutput>
    requires path.Child?
  {
    var parent :- ReadKey(view, path.dir);
    if parent.None? then Success(NoWrites(NotFound))
    else if parent.value.kind != Directory then Success(NoWrites(NotDirectory))
    else
      var cur :- ReadKey(view, path);
      if cur.Some? then Success(NoWrites(AlreadyExists))
      else Success(TxOutput(Ok, [Put(path.dir, Grow(parent.value)), Put(path, inode)]))
  }

  function ExecStat(path: Key, view: Reads): Result<TxOutput> {
    var cur :- ReadKey(view, path);
    Success(NoWrites(if cur.Some? then Ok else NotFound))
  }

  function ExecUnlink(path: Key, view: Reads): Result<TxOutput> {
    if path.Root? then Success(NoWrites(Invalid)) else
    var parent :- ReadKey(view, path.dir);
    if parent.None? then Success(NoWrites(NotFound))
    else if parent.value.kind != Directory then Success(NoWrites(NotDirectory))
    else
      var target :- ReadKey(view, path);
      if target.None? then Success(NoWrites(NotFound))
      else if target.value.kind == Directory then Success(NoWrites(Invalid))
      else Success(TxOutput(Ok, [Put(path.dir, Shrink(parent.value)), Delete(path)]))
  }

  function ExecRmdir(path: Key, view: Reads): Result<TxOutput> {
    if path.Root? then Success(NoWrites(Invalid)) else
    var parent :- ReadKey(view, path.dir);
    if parent.None? then Success(NoWrites(NotFound))
    else if parent.value.kind != Directory then Success(NoWrites(NotDirectory))
    else
      var target :- ReadKey(view, path);
      if target.None? then Success(NoWrites(NotFound))
      else if target.value.kind != Directory then Success(NoWrites(NotDirectory))
      else if target.value.childCount > 0 then Success(NoWrites(DirectoryNotEmpty))
      else Success(TxOutput(Ok, [Put(path.dir, Shrink(parent.value)), Delete(path)]))
  }

  function ExecRename(src: Key, dst: Key, view: Reads): Result<TxOutput> {
    if src == dst || src.Root? || dst.Root? then Success(NoWrites(Invalid)) else
    var srcParent :- ReadKey(view, src.dir);
    if srcParent.None? then Success(NoWrites(NotFound)) else
    var dstParent :- ReadKey(view, dst.dir);
    if dstParent.None? then Success(NoWrites(NotFound))
    else if srcParent.value.kind != Directory || dstParent.value.kind != Directory then
      Success(NoWrites(NotDirectory))
    else
      var srcInode :- ReadKey(view, src);
      if srcInode.None? then Success(NoWrites(NotFound)) else
      var dstInode :- ReadKey(view, dst);
      if dstInode.Some? then Success(NoWrites(AlreadyExists))
      else if srcInode.value.kind == Directory && srcInode.value.childCount > 0 then
        Success(NoWrites(DirectoryNotEmpty))
      else
        var move := [Delete(src), Put(dst, srcInode.value)];
        Success(TxOutput(Ok,
          if src.dir == dst.dir then move
          else move + [Put(src.dir, Shrink(srcParent.value)), Put(dst.dir, Grow(dstParent.value))]))
  }

  function Execute(op: FsOp, view: Reads): TxOutput {
    var output := match op
      case Mkdir(path) => ExecMkdir(path, view)
      case Create(path) => ExecCreate(path, view)
      case Stat(path) => ExecStat(path, view)
      case Unlink(path) => ExecUnlink(path, view)
      case Rmdir(path) => ExecRmdir(path, view)
      case Rename(src, dst) => ExecRename(src, dst, view);
    if output.Success? then output.value else NoWrites(Invalid)
  }

  /** An operation writes only inside its write set, and writes nothing unless it succeeds. */
  lemma ExecuteFootprint(op: FsOp, view: Reads)
    ensures WritesWithin(Execute(op, view).writes, WriteSet(op))
    ensures Execute(op, view).result != Ok ==> Execute(op, view).writes == []
    ensures WriteSet(op) <= ReadSet(op)
  {
  }

  /** Running one operation on a store. */
  function Step(store: Store, op: FsOp): Store {
    ApplyWrites(store, Execute(op, ReadMany(store, ReadSet(op))).writes)
  }

  function Outcome(store: Store, op: FsOp): TxResult {
    Execute(op, ReadMany(store, ReadSet(op))).result
  }

  /** The plain fold of operations in order. */
  function Serial(store: Store, ops: seq<FsOp>): Store {
    if ops == [] then store else Step(Serial(store, ops[..|ops| - 1]), ops[|ops| - 1])
  }

  lemma {:induction false} SerialAppend(store: Store, a: seq<FsOp>, b: seq<FsOp>)
    ensures Serial(store, a + b) == Serial(Serial(store, a), b)
  {
    hide Step;
    if b == [] {
      assert a + b == a;
    } else {
      SerialAppend(store, a, b[..|b| - 1]);
      assert (a + b)[..|a + b| - 1] == a + b[..|b| - 1];
      assert (a + b)[|a + b| - 1] == b[|b| - 1];
    }
  }

  function OpsOf(txs: seq<OrderedTx>): seq<FsOp> {
    seq(|txs|, i requires 0 <= i < |txs| => txs[i].op)
  }

  /** Among the first `n` operations those inside (or outside) the failed set, in batch order. */
  function Select(ops: seq<FsOp>, failed: set<nat>, inside: bool, n: nat): seq<FsOp>
    requires n <= |ops|
  {
    if n == 0 then []
    else Select(ops, failed, inside, n - 1) + if (n - 1 in failed) == inside then [ops[n - 1]] else []
  }

  /** The members of a set below a bound, in ascending order. */
  function Ascending(chosen: set<nat>, inside: bool, n: nat): seq<nat> {
    if n == 0 then []
    else Ascending(chosen, inside, n - 1) + if (n - 1 in chosen) == inside then [n - 1] else []
  }

  lemma {:induction false} AscendingMeans(chosen: set<nat>, inside: bool, n: nat)
    ensures Distinct(Ascending(chosen, inside, n))
    ensures forall i: nat :: i in Ascending(chosen, inside, n) <==> i < n && (i in chosen) == inside
  {
    if n == 0 {
    } else {
      AscendingMeans(chosen, inside, n - 1);
      var front := Ascending(chosen, inside, n - 1);
      assert forall i | 0 <= i < |front| :: front[i] in front;
    }
  }

  /** Selected operations and ascending positions belong together. */
  lemma {:induction false} SelectAt(ops: seq<FsOp>, chosen: set<nat>, inside: bool, n: nat)
    requires n <= |ops|
    ensures |Select(ops, chosen, inside, n)| == |Ascending(chosen, inside, n)|
    ensures forall j | 0 <= j < |Ascending(chosen, inside, n)| ::
              Ascending(chosen, inside, n)[j] < n && Select(ops, chosen, inside, n)[j] == ops[Ascending(chosen, inside, n)[j]]
  {
    if n == 0 {
    } else {
      SelectAt(ops, chosen, inside, n - 1);
    }
  }

  lemma SelectStep(store: Store, ops: seq<FsOp>, failed: set<nat>, inside: bool, i: nat)
    requires i < |ops|
    ensures Serial(store, Select(ops, failed, inside, i + 1)) ==
            var before := Serial(store, Select(ops, failed, inside, i));
            if (i in failed) == inside then Step(before, ops[i]) else before
  {
    var front := Select(ops, failed, inside, i);
    if (i in failed) == inside {
      assert (front + [ops[i]])[..|front|] == front;
    } else {
      assert front + [] == front;
    }
  }

  /** The order the optimistic schedulers promise: the operations outside the failed set in
  batch order, then those inside it in batch order. */
  function Reordered(ops: seq<FsOp>, failed: set<nat>): seq<FsOp> {
    Select(ops, failed, false, |ops|) + Select(ops, failed, true, |ops|)
  }
}
