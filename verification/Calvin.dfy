/** Deterministic locking on file-system operations: a batch, or a sequence of batches, ends
in the store of the plain serial fold. */
module Calvin {
  import opened Model
  import opened Executor
  import opened Router
  import opened LockTables
  import opened Locking
  import opened LockingRuns

  function TxnOf(op: FsOp): Txn {
    Txn(ReadSet(op), WriteSet(op), view => Executor.Execute(op, view))
  }

  /** The shards that execute an operation; only a stat writes nothing, and its single read
  key names its coordinator. */
  function Active(l: Layout, op: FsOp): set<nat> {
    if op.Stat? then {l.shardFor(op.path)} else Owners(l, WriteSet(op))
  }

  /** The router's participants of an operation: the owners of its keys, active as above. */
  method ParticipantsOf(l: Layout, op: FsOp) returns (p: Participants)
    ensures p.all == Owners(l, ReadSet(op)) && p.active == Active(l, op) && p.passive == p.all - p.active
    ensures forall s :: s in p.all <==> exists k :: k in ReadSet(op) && l.shardFor(k) == s
    ensures forall s :: s in p.active <==>
              if op.Stat? then s == l.shardFor(op.path) else exists k :: k in WriteSet(op) && l.shardFor(k) == s
    ensures p.active != {} && p.active <= p.all
  {
    p := ParticipantsForSets(l, ReadSet(op), WriteSet(op));
    assert ReadSet(op) + WriteSet(op) == ReadSet(op);
    if op.Stat? {
      assert op.path in ReadSet(op);
    } else {
      var key := if op.Rename? then op.src else op.path;
      assert key in WriteSet(op) && l.shardFor(key) in Owners(l, WriteSet(op));
    }
  }

  /** Active shards that a batch may use: all owners of written keys, and existing shards only. */
  ghost predicate ValidActive(l: Layout, ops: seq<FsOp>, active: seq<set<nat>>) {
    && |active| == |ops|
    && forall i | 0 <= i < |ops| ::
         Owners(l, WriteSet(ops[i])) <= active[i] && forall s | s in active[i] :: s < l.shardCount
  }

  function ConfigFor(l: Layout, ops: seq<FsOp>, active: seq<set<nat>>, base: Store): Config {
    Config(l, seq(|ops|, i requires 0 <= i < |ops| => TxnOf(ops[i])), active, base)
  }

  function ActiveFor(l: Layout, ops: seq<FsOp>): seq<set<nat>> {
    seq(|ops|, i requires 0 <= i < |ops| => Active(l, ops[i]))
  }

  lemma ActiveValid(l: Layout, ops: seq<FsOp>)
    requires ValidLayout(l)
    ensures ValidActive(l, ops, ActiveFor(l, ops))
  {
    forall i | 0 <= i < |ops|
      ensures Owners(l, WriteSet(ops[i])) <= Active(l, ops[i]) && forall s | s in Active(l, ops[i]) :: s < l.shardCount
    {
      hide ReadSet;
    }
  }

  lemma ConfigValid(l: Layout, ops: seq<FsOp>, active: seq<set<nat>>, base: Store)
    requires ValidLayout(l) && ValidActive(l, ops, active)
    ensures Valid(ConfigFor(l, ops, active, base))
  {
    var c := ConfigFor(l, ops, active, base);
    forall i | 0 <= i < |ops| ensures ValidTxn(c.txs[i]) && Owners(l, c.txs[i].writeSet) <= active[i] {
      assert c.txs[i] == TxnOf(ops[i]);
      forall view: Reads ensures WritesWithin(Executor.Execute(ops[i], view).writes, WriteSet(ops[i])) {
        ExecuteFootprint(ops[i], view);
      }
      ExecuteFootprint(ops[i], map[]);
      hide Executor.Execute, ReadSet, WriteSet;
    }
  }

  /** The locking engine's serial prefix is the plain fold of the operations. */
  lemma {:induction false} PrefixIsSerial(l: Layout, ops: seq<FsOp>, active: seq<set<nat>>, base: Store, n: nat)
    requires n <= |ops|
    ensures |ConfigFor(l, ops, active, base).txs| == |ops|
    ensures Prefix(ConfigFor(l, ops, active, base), n) == Serial(base, ops[..n])
  {
    hide Executor.Execute, ReadSet;
    if n == 0 {
    } else {
      PrefixIsSerial(l, ops, active, base, n - 1);
      assert ops[..n][..n - 1] == ops[..n - 1];
    }
  }

  /** In a finished batch every active worker has reported the serial result and nobody else
  has reported anything. */
  lemma ResultsAreSerial(l: Layout, ops: seq<FsOp>, active: seq<set<nat>>, base: Store, st: State, s: nat, i: nat)
    requires ValidLayout(l) && ValidActive(l, ops, active) && i < |ops| && s < l.shardCount
    requires Inv(ConfigFor(l, ops, active, base), st) && Complete(ConfigFor(l, ops, active, base), st)
    ensures Wid(s, i) in st.phases
    ensures st.phases[Wid(s, i)] ==
            Phase.Released(if s in active[i] then Some(Outcome(Serial(base, ops[..i]), ops[i])) else None)
  {
    var c := ConfigFor(l, ops, active, base);
    CompleteIsSerial(c, st);
    PrefixIsSerial(l, ops, active, base, i);
    hide Inv, Prefix;
    var w := Wid(s, i);
    assert w in Wids(c) && (s in active[i] ==> Participant(c, w));
    assert SerialOutput(c, i).result == Outcome(Serial(base, ops[..i]), ops[i]);
  }

  /** Serializability of one batch: a run that can go no further has emptied every queue and
  merged into the serial fold, every active worker reported the serial result and nobody else
  reported anything, and no message is left. */
  lemma BatchIsSerial(l: Layout, ops: seq<FsOp>, active: seq<set<nat>>, base: Store, acts: seq<Action>)
    requires ValidLayout(l) && ValidActive(l, ops, active)
    requires var c := ConfigFor(l, ops, active, base);
      |c.active| == |c.txs| && Run(c, acts).Some? && forall a :: !Enabled(c, Run(c, acts).value, a)
    ensures var c := ConfigFor(l, ops, active, base);
      var st := Run(c, acts).value;
      && Complete(c, st)
      && (forall k :: Queue(st.queues, k) == [])
      && Merge(st.stores) == Serial(base, ops)
      && st.msgs == {}
      && (forall s: nat, i: nat | i < |ops| && s < l.shardCount ::
            && Wid(s, i) in st.phases
            && st.phases[Wid(s, i)] ==
                 Phase.Released(if s in active[i] then Some(Outcome(Serial(base, ops[..i]), ops[i])) else None))
  {
    var c := ConfigFor(l, ops, active, base);
    ConfigValid(l, ops, active, base);
    MaximalRunIsSerial(c, acts);
    RunInv(c, acts);
    var st := Run(c, acts).value;
    CompleteIsSerial(c, st);
    PrefixIsSerial(l, ops, active, base, |ops|);
    assert ops[..|ops|] == ops;
    hide Run, Inv, Enabled, Prefix;
    forall s: nat, i: nat | i < |ops| && s < l.shardCount
      ensures Wid(s, i) in st.phases
      ensures st.phases[Wid(s, i)] ==
              Phase.Released(if s in active[i] then Some(Outcome(Serial(base, ops[..i]), ops[i])) else None)
    {
      ResultsAreSerial(l, ops, active, base, st, s, i);
    }
  }

  // ---------------------------------------------------------------- many batches

  /** One batch with the steps its shards took. */
  datatype BatchRun = BatchRun(ops: seq<FsOp>, acts: seq<Action>)

  /** The store of the serial reference after every batch. */
  function Reference(base: Store, batches: seq<seq<FsOp>>): Store {
    if batches == [] then base else Serial(Reference(base, batches[..|batches| - 1]), batches[|batches| - 1])
  }

  function RunOps(runs: seq<BatchRun>): seq<seq<FsOp>> {
    seq(|runs|, i requires 0 <= i < |runs| => runs[i].ops)
  }

  /** A batch that started from some shard stores and can go no further. */
  ghost predicate Finished(l: Layout, before: seq<Store>, run: BatchRun, after: seq<Store>) {
    var c := ConfigFor(l, run.ops, ActiveFor(l, run.ops), Merge(before));
    && |c.active| == |c.txs|
    && Run(c, run.acts).Some?
    && (forall a :: !Enabled(c, Run(c, run.acts).value, a))
    && after == Run(c, run.acts).value.stores
  }

  /** The dispatcher starts a batch when every shard has finished the one before. */
  ghost predicate Chained(l: Layout, base: Store, runs: seq<BatchRun>, stores: seq<Store>)
    decreases |runs|
  {
    if runs == [] then stores == seq(l.shardCount, s requires s >= 0 => Restrict(l, base, s))
    else
      var front, last := runs[..|runs| - 1], runs[|runs| - 1];
      exists before :: Chained(l, base, front, before) && Finished(l, before, last, stores)
  }

  /** Shard stores of the right owners. */
  ghost predicate Owned(l: Layout, stores: seq<Store>) {
    |stores| == l.shardCount && OwnedStores(l, stores)
  }

  lemma FinishedIsSerial(l: Layout, before: seq<Store>, run: BatchRun, after: seq<Store>)
    requires ValidLayout(l) && Finished(l, before, run, after)
    ensures Owned(l, after) && Merge(after) == Serial(Merge(before), run.ops)
  {
    var active := ActiveFor(l, run.ops);
    var c := ConfigFor(l, run.ops, active, Merge(before));
    ActiveValid(l, run.ops);
    ConfigValid(l, run.ops, active, Merge(before));
    RunInv(c, run.acts);
    InvShape(c, Run(c, run.acts).value);
    BatchIsSerial(l, run.ops, active, Merge(before), run.acts);
  }

  /** A batch starts exactly from the stores the previous one left on the shards. */
  lemma RestartIsExact(l: Layout, stores: seq<Store>, ops: seq<FsOp>)
    requires ValidLayout(l) && Owned(l, stores)
    ensures |ConfigFor(l, ops, ActiveFor(l, ops), Merge(stores)).txs| == |ops|
    ensures Init(ConfigFor(l, ops, ActiveFor(l, ops), Merge(stores))).stores == stores
  {
    forall s | 0 <= s < |stores| ensures Restrict(l, Merge(stores), s) == stores[s] {
      forall k ensures Val(Restrict(l, Merge(stores), s), k) == Val(stores[s], k) {
        MergeVal(l, stores, k);
      }
      StoreExt(Restrict(l, Merge(stores), s), stores[s]);
    }
  }

  /** A sequence of batches ends in the reference store, whatever each shard did when. */
  lemma {:induction false} BatchesAreSerial(l: Layout, base: Store, runs: seq<BatchRun>, stores: seq<Store>)
    requires ValidLayout(l) && Chained(l, base, runs, stores)
    ensures Owned(l, stores) && Merge(stores) == Reference(base, RunOps(runs))
    decreases |runs|
  {
    hide Finished;
    if runs == [] {
      MergeRestores(l, stores, base);
    } else {
      var front, last := runs[..|runs| - 1], runs[|runs| - 1];
      var before :| Chained(l, base, front, before) && Finished(l, before, last, stores);
      BatchesAreSerial(l, base, front, before);
      FinishedIsSerial(l, before, last, stores);
      assert RunOps(runs)[..|runs| - 1] == RunOps(front);
    }
  }
}
