/** Whole sessions: any number of batches under the semantic or the optimistic scheduler,
compared with the reordered serial reference. The dispatcher starts a batch when every shard
has finished the one before, so a session is a chain of finished batches. */
module Sessions {
  import opened Model
  import opened Executor
  import opened Namespace
  import opened Router
  import opened Checker
  import opened CommitSequences
  import K = Locking
  import Calvin
  import SccBatch
  import SccProtocol
  import AriaBatch
  import AriaProtocol

  // ---------------------------------------------------------------- the serial meaning

  /** Each batch in its promised order, one batch after the other. */
  function ReorderedSerial(batches: seq<Batch>, failed: seq<set<nat>>): Store
    requires |failed| == |batches|
  {
    if batches == [] then map[]
    else
      var n := |batches| - 1;
      Serial(ReorderedSerial(batches[..n], failed[..n]), Reordered(OpsOf(batches[n].txs), failed[n]))
  }

  /** What at least one shard has failed. */
  function UnionOf(parts: seq<set<nat>>): set<nat> {
    set s, i | 0 <= s < |parts| && i in parts[s] :: i
  }

  function Unions(parts: seq<seq<set<nat>>>): seq<set<nat>> {
    seq(|parts|, b requires 0 <= b < |parts| => UnionOf(parts[b]))
  }

  /** Each shard failed transactions of the batch only. */
  ghost predicate Bounded(l: Layout, batch: Batch, parts: seq<set<nat>>) {
    |parts| == l.shardCount && forall i | i in UnionOf(parts) :: i < |batch.txs|
  }

  ghost predicate Recording(batches: seq<Batch>, failed: seq<set<nat>>, reorders: map<nat, ReorderRecord>)
    requires |failed| == |batches|
  {
    forall b | 0 <= b < |batches| ::
      batches[b].batchId in reorders && reorders[batches[b].batchId] == RecordFor(batches[b], failed[b])
  }

  predicate AllValidSets(batches: seq<Batch>) {
    forall b, i | 0 <= b < |batches| && 0 <= i < |batches[b].txs| :: ValidSets(batches[b].txs[i])
  }

  /** The checker's reordered reference computes exactly this order. */
  lemma {:induction false} ReferenceIsReordered(batches: seq<Batch>, failed: seq<set<nat>>, reorders: map<nat, ReorderRecord>)
    requires |failed| == |batches| && AllValidSets(batches) && Recording(batches, failed, reorders)
    ensures Recorded(batches, reorders)
    ensures ReorderedFold(map[], batches, reorders) == ReorderedSerial(batches, failed)
  {
    forall b | 0 <= b < |batches| ensures ValidRecord(batches[b], reorders[batches[b].batchId]) {
      RecordForIsValid(batches[b], failed[b]);
    }
    if batches == [] {
    } else {
      var n := |batches| - 1;
      ReferenceIsReordered(batches[..n], failed[..n], reorders);
      RecordForIsReordered(batches[n], failed[n], reorders);
      LastBatch(batches[n], reorders, ReorderedSerial(batches[..n], failed[..n]));
      hide ValidRecord, RecordedOrder, Reordered, TxFold, Serial, RecordFor;
    }
  }

  lemma LastBatch(batch: Batch, reorders: map<nat, ReorderRecord>, before: Store)
    requires batch.batchId in reorders && ValidRecord(batch, reorders[batch.batchId])
    requires forall i | 0 <= i < |batch.txs| :: ValidSets(batch.txs[i])
    ensures TxFold(before, RecordedOrder(batch, reorders)) == Serial(before, OpsOf(RecordedOrder(batch, reorders)))
  {
    var order := reorders[batch.batchId].successes + reorders[batch.batchId].fallbacks;
    assert forall i | 0 <= i < |order| :: order[i] in order;
    hide ValidSets;
    assert RecordedOrder(batch, reorders) == InOrder(batch.txs, order);
    TxFoldIsSerial(before, RecordedOrder(batch, reorders));
  }

  /** The plain reference is the fold that a chain of locking batches computes. */
  lemma {:induction false} ReferenceIsFold(batches: seq<Batch>)
    requires AllValidSets(batches)
    ensures BatchFold(map[], batches) ==
            Calvin.Reference(map[], seq(|batches|, b requires 0 <= b < |batches| => OpsOf(batches[b].txs)))
  {
    if batches == [] {
    } else {
      var n := |batches| - 1;
      ReferenceIsFold(batches[..n]);
      TxFoldIsSerial(BatchFold(map[], batches[..n]), batches[n].txs);
      var all := seq(|batches|, b requires 0 <= b < |batches| => OpsOf(batches[b].txs));
      assert all[..n] == seq(n, b requires 0 <= b < n => OpsOf(batches[..n][b].txs));
      hide TxFold, Serial;
    }
  }

  // ---------------------------------------------------------------- the semantic scheduler

  /** A batch with the steps its shards took. */
  datatype SccRun = SccRun(batch: Batch, acts: seq<SccBatch.Action>)

  /** A finished batch: it began with the stores before, left the stores after, and shard `s`
  failed the slots `parts[s]`. */
  ghost predicate SccFinished(l: Layout, absorbing: bool, before: seq<Store>, run: SccRun, after: seq<Store>,
                              parts: seq<set<nat>>)
  {
    var b := SccBatch.Batch(l, OpsOf(run.batch.txs), Merge(before), absorbing);
    && SccBatch.Run(b, run.acts).Some?
    && var st := SccBatch.Run(b, run.acts).value;
       && SccBatch.Complete(b, st)
       && after == st.back.stores
       && |parts| == l.shardCount == |st.front.slots|
       && forall s | 0 <= s < |parts| :: parts[s] == FailedIndices(st.front.slots[s])
  }

  ghost predicate SccSession(l: Layout, absorbing: bool, runs: seq<SccRun>, stores: seq<Store>, parts: seq<seq<set<nat>>>)
    requires |parts| == |runs|
    decreases |runs|
  {
    if runs == [] then stores == seq(l.shardCount, s requires s >= 0 => map[])
    else
      var n := |runs| - 1;
      exists before ::
        SccSession(l, absorbing, runs[..n], before, parts[..n]) && SccFinished(l, absorbing, before, runs[n], stores, parts[n])
  }

  function BatchesOf(runs: seq<SccRun>): seq<Batch> {
    seq(|runs|, i requires 0 <= i < |runs| => runs[i].batch)
  }

  function TotalOps(runs: seq<SccRun>): nat {
    if runs == [] then 0 else TotalOps(runs[..|runs| - 1]) + |runs[|runs| - 1].batch.txs|
  }

  predicate NoneSelfNests(runs: seq<SccRun>) {
    forall n | 0 <= n < |runs| :: NoSelfNesting(OpsOf(runs[n].batch.txs))
  }

  lemma SameUnion(b: SccBatch.Batch, acts: seq<SccBatch.Action>, parts: seq<set<nat>>)
    requires SccBatch.Valid(b) && SccBatch.Run(b, acts).Some? && SccBatch.Complete(b, SccBatch.Run(b, acts).value)
    requires |parts| == b.layout.shardCount == |SccBatch.Run(b, acts).value.front.slots|
    requires forall s | 0 <= s < |parts| :: parts[s] == FailedIndices(SccBatch.Run(b, acts).value.front.slots[s])
    ensures UnionOf(parts) == SccProtocol.LostSet(SccBatch.FrontConfig(b))
    ensures forall i | i in UnionOf(parts) :: i < |b.ops|
  {
    var lost := SccProtocol.LostSet(SccBatch.FrontConfig(b));
    assert forall i | i in lost :: i < |b.ops|;
    hide SccBatch.Run, SccBatch.Complete, SccProtocol.LostSet, FailedIndices, Serial, Reordered, Merge;
    SccBatch.BatchIsSerial(b, acts);
  }

  lemma SccBatchStep(l: Layout, absorbing: bool, before: seq<Store>, run: SccRun, after: seq<Store>, parts: seq<set<nat>>)
    requires ValidLayout(l) && SccFinished(l, absorbing, before, run, after, parts)
    requires WellFormed(Merge(before)) && Room(Merge(before), |run.batch.txs|) && NoSelfNesting(OpsOf(run.batch.txs))
    ensures Calvin.Owned(l, after)
    ensures Merge(after) == Serial(Merge(before), Reordered(OpsOf(run.batch.txs), UnionOf(parts)))
    ensures WellFormed(Merge(after)) && |Merge(after)| <= |Merge(before)| + |run.batch.txs|
    ensures Bounded(l, run.batch, parts)
  {
    var b := SccBatch.Batch(l, OpsOf(run.batch.txs), Merge(before), absorbing);
    hide WellFormed, Serial, Reordered, SccBatch.Run, SccBatch.Complete, SccProtocol.LostSet, K.Inv, Merge;
    SccBatch.BatchIsSerial(b, run.acts);
    SccBatch.BothInv(b, run.acts);
    K.InvShape(SccBatch.BackConfig(b), SccBatch.Run(b, run.acts).value.back);
    var lost := SccProtocol.LostSet(SccBatch.FrontConfig(b));
    SameUnion(b, run.acts, parts);
    hide UnionOf;
    ReorderedShape(b.ops, lost);
    SerialKeepsNamespace(Merge(before), Reordered(b.ops, lost));
  }

  lemma {:induction false} SelectShape(ops: seq<FsOp>, failed: set<nat>, n: nat)
    requires n <= |ops| && NoSelfNesting(ops)
    ensures |Select(ops, failed, true, n)| + |Select(ops, failed, false, n)| == n
    ensures NoSelfNesting(Select(ops, failed, true, n)) && NoSelfNesting(Select(ops, failed, false, n))
  {
    if n == 0 {
    } else {
      SelectShape(ops, failed, n - 1);
    }
  }

  lemma ReorderedShape(ops: seq<FsOp>, failed: set<nat>)
    requires NoSelfNesting(ops)
    ensures |Reordered(ops, failed)| == |ops| && NoSelfNesting(Reordered(ops, failed))
  {
    SelectShape(ops, failed, |ops|);
  }

  lemma EmptyStores(l: Layout, stores: seq<Store>)
    requires ValidLayout(l) && stores == seq(l.shardCount, s requires s >= 0 => map[])
    ensures Calvin.Owned(l, stores) && Merge(stores) == map[] && WellFormed(map[])
  {
    MergeRestores(l, stores, map[]);
  }

  /** From the empty store, every session of the semantic scheduler in which all shards return
  Ok ends in the reordered serial store and keeps the namespace well formed. */
  lemma {:induction false} SccSessionIsSerial(l: Layout, absorbing: bool, runs: seq<SccRun>, stores: seq<Store>, parts: seq<seq<set<nat>>>)
    requires ValidLayout(l) && |parts| == |runs| && SccSession(l, absorbing, runs, stores, parts)
    requires NoneSelfNests(runs) && TotalOps(runs) <= U64_MAX
    ensures Calvin.Owned(l, stores)
    ensures Merge(stores) == ReorderedSerial(BatchesOf(runs), Unions(parts))
    ensures forall b | 0 <= b < |runs| :: Bounded(l, runs[b].batch, parts[b])
    ensures WellFormed(Merge(stores)) && |Merge(stores)| <= TotalOps(runs)
    decreases |runs|
  {
    hide SccFinished, Reordered, Serial, WellFormed, Calvin.Owned, Merge, OpsOf, Bounded, UnionOf;
    if runs == [] {
      EmptyStores(l, stores);
    } else {
      var n := |runs| - 1;
      var front, last := runs[..n], runs[n];
      var before :| SccSession(l, absorbing, front, before, parts[..n]) && SccFinished(l, absorbing, before, last, stores, parts[n]);
      SccSessionIsSerial(l, absorbing, front, before, parts[..n]);
      SccBatchStep(l, absorbing, before, last, stores, parts[n]);
      assert BatchesOf(runs)[..n] == BatchesOf(front) && Unions(parts)[..n] == Unions(parts[..n]);
    }
  }

  // ---------------------------------------------------------------- the optimistic scheduler

  datatype AriaRun = AriaRun(batch: Batch, acts: seq<AriaBatch.Action>)

  /** The coordinating shard of each transaction: its id modulo the shard count. */
  function Homes(l: Layout, txs: seq<OrderedTx>): seq<nat>
    requires l.shardCount > 0
  {
    seq(|txs|, i requires 0 <= i < |txs| => txs[i].txId % l.shardCount)
  }

  function AriaOf(l: Layout, before: seq<Store>, run: AriaRun): (b: AriaBatch.Batch)
    requires l.shardCount > 0
    ensures |b.home| == |b.ops| == |run.batch.txs|
    ensures forall i | 0 <= i < |b.home| :: b.home[i] == run.batch.txs[i].txId % l.shardCount
  {
    AriaBatch.Batch(l, OpsOf(run.batch.txs), Homes(l, run.batch.txs), Merge(before))
  }

  /** A finished batch whose shards all agreed on the set `failed`. */
  ghost predicate AriaFinished(l: Layout, before: seq<Store>, run: AriaRun, after: seq<Store>, failed: set<nat>)
    requires l.shardCount > 0
  {
    var b := AriaOf(l, before, run);
    && AriaBatch.Run(b, run.acts).Some?
    && var st := AriaBatch.Run(b, run.acts).value;
       && AriaBatch.Complete(b, st)
       && after == st.back.stores
       && forall s: nat | s < l.shardCount :: s in st.front.agreed && st.front.agreed[s] == failed
  }

  ghost predicate AriaSession(l: Layout, runs: seq<AriaRun>, stores: seq<Store>, failed: seq<set<nat>>)
    requires |failed| == |runs| && l.shardCount > 0
    decreases |runs|
  {
    if runs == [] then stores == seq(l.shardCount, s requires s >= 0 => map[])
    else
      var n := |runs| - 1;
      var front, last, lost := runs[..n], runs[n], failed[n];
      exists before :: AriaSession(l, front, before, failed[..n]) && AriaFinished(l, before, last, stores, lost)
  }

  function AriaBatchesOf(runs: seq<AriaRun>): seq<Batch> {
    seq(|runs|, i requires 0 <= i < |runs| => runs[i].batch)
  }

  lemma AriaBatchStep(l: Layout, before: seq<Store>, run: AriaRun, after: seq<Store>, failed: set<nat>)
    requires ValidLayout(l) && AriaFinished(l, before, run, after, failed)
    ensures Calvin.Owned(l, after)
    ensures Merge(after) == Serial(Merge(before), Reordered(OpsOf(run.batch.txs), failed))
    ensures forall i | i in failed :: i < |run.batch.txs|
  {
    var b := AriaOf(l, before, run);
    assert forall i | i in AriaProtocol.FailedSet(AriaBatch.FrontConfig(b)) :: i < |run.batch.txs|;
    assert AriaBatch.Valid(b) && b.base == Merge(before) && b.layout == l && b.ops == OpsOf(run.batch.txs);
    hide AriaBatch.Run, AriaBatch.Complete, AriaBatch.FrontConfig, AriaBatch.BackConfig, AriaOf;
    hide Reordered, Serial, AriaProtocol.FailedSet;
    AriaBatch.BatchIsSerial(b, run.acts);
    assert AriaBatch.Run(b, run.acts).value.front.agreed[0] == failed;
    AriaOwned(b, run.acts);
  }

  lemma AriaOwned(b: AriaBatch.Batch, acts: seq<AriaBatch.Action>)
    requires AriaBatch.Valid(b) && AriaBatch.Run(b, acts).Some?
    ensures Calvin.Owned(b.layout, AriaBatch.Run(b, acts).value.back.stores)
  {
    AriaBatch.BothInv(b, acts);
    hide AriaBatch.Run;
    K.InvShape(AriaBatch.BackConfig(b), AriaBatch.Run(b, acts).value.back);
  }

  /** From the empty store, every session of the optimistic scheduler ends in the reordered
  serial store. */
  lemma {:induction false} AriaSessionIsSerial(l: Layout, runs: seq<AriaRun>, stores: seq<Store>, failed: seq<set<nat>>)
    requires ValidLayout(l) && |failed| == |runs| && AriaSession(l, runs, stores, failed)
    ensures Calvin.Owned(l, stores)
    ensures Merge(stores) == ReorderedSerial(AriaBatchesOf(runs), failed)
    ensures forall b, i | 0 <= b < |runs| && i in failed[b] :: i < |runs[b].batch.txs|
    decreases |runs|
  {
    hide AriaFinished, Reordered, Serial, Calvin.Owned, Merge, OpsOf;
    if runs == [] {
      EmptyStores(l, stores);
    } else {
      var n := |runs| - 1;
      var front, last, lost := runs[..n], runs[n], failed[n];
      var before :| AriaSession(l, front, before, failed[..n]) && AriaFinished(l, before, last, stores, lost);
      AriaSessionIsSerial(l, front, before, failed[..n]);
      AriaBatchStep(l, before, last, stores, lost);
      assert AriaBatchesOf(runs)[..n] == AriaBatchesOf(front);
    }
  }
}
