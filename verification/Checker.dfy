/** The serial references the schedulers are compared with, and the checks made on what the
shards report. */
module Checker {
  import opened Model
  import opened Executor
  import opened Router

  datatype ReorderRecord = ReorderRecord(batchId: nat, successes: seq<nat>, fallbacks: seq<nat>)

  // ---------------------------------------------------------------- plain reference

  function TxStep(store: Store, tx: OrderedTx): Store {
    ApplyWrites(store, Execute(tx.op, ReadMany(store, tx.readSet)).writes)
  }

  function TxFold(store: Store, txs: seq<OrderedTx>): Store {
    if txs == [] then store else TxStep(TxFold(store, txs[..|txs| - 1]), txs[|txs| - 1])
  }

  function BatchFold(store: Store, batches: seq<Batch>): Store {
    if batches == [] then store else TxFold(BatchFold(store, batches[..|batches| - 1]), batches[|batches| - 1].txs)
  }

  /** On transactions that carry their derived sets the reference is the fold of operations. */
  lemma {:induction false} TxFoldIsSerial(store: Store, txs: seq<OrderedTx>)
    requires forall i | 0 <= i < |txs| :: ValidSets(txs[i])
    ensures TxFold(store, txs) == Serial(store, OpsOf(txs))
  {
    if txs == [] {
    } else {
      TxFoldIsSerial(store, txs[..|txs| - 1]);
      assert OpsOf(txs)[..|txs| - 1] == OpsOf(txs[..|txs| - 1]);
      assert ValidSets(txs[|txs| - 1]);
      hide Execute, ReadSet, WriteSet;
    }
  }

  method ApplyWritesInPlace(state: Store, writes: seq<WriteOp>) returns (r: Store)
    ensures r == ApplyWrites(state, writes)
  {
    r := state;
    for i := 0 to |writes|
      invariant r == ApplyWrites(state, writes[..i])
    {
      assert writes[..i + 1][..i] == writes[..i];
      match writes[i] {
        case Put(key, value) => r := r[key := value];
        case Delete(key) => r := r - {key};
      }
    }
    assert writes[..|writes|] == writes;
  }

  method ApplyReferenceTx(state: Store, tx: OrderedTx) returns (r: Store)
    ensures r == TxStep(state, tx)
  {
    r := ApplyWritesInPlace(state, Execute(tx.op, ReadMany(state, tx.readSet)).writes);
  }

  method ReferenceExecuteBatches(batches: seq<Batch>) returns (state: Store)
    ensures state == BatchFold(map[], batches)
  {
    hide TxStep;
    state := map[];
    for i := 0 to |batches|
      invariant state == BatchFold(map[], batches[..i])
    {
      var txs := batches[i].txs;
      ghost var before := state;
      for j := 0 to |txs|
        invariant state == TxFold(before, txs[..j])
      {
        assert txs[..j + 1][..j] == txs[..j];
        state := ApplyReferenceTx(state, txs[j]);
      }
      assert txs[..|txs|] == txs && batches[..i + 1][..i] == batches[..i];
    }
    assert batches[..|batches|] == batches;
  }

  // ---------------------------------------------------------------- reordered reference

  /** A record that accounts for every transaction of its batch exactly once. */
  ghost predicate ValidRecord(batch: Batch, record: ReorderRecord) {
    var order := record.successes + record.fallbacks;
    record.batchId == batch.batchId && Distinct(order) && forall i: nat :: i in order <==> i < |batch.txs|
  }

  method ValidateReorderRecord(batch: Batch, record: ReorderRecord) returns (r: Result<()>)
    ensures r.Success? <==> ValidRecord(batch, record)
  {
    if record.batchId != batch.batchId {
      return Failure(Error.Checker);
    }
    var order := record.successes + record.fallbacks;
    var seen: set<nat> := {};
    for n := 0 to |order|
      invariant forall i: nat :: i in seen <==> i in order[..n]
      invariant forall i | i in seen :: i < |batch.txs|
      invariant Distinct(order[..n])
    {
      assert order[n] in order && order[..n + 1] == order[..n] + [order[n]];
      if order[n] >= |batch.txs| {
        return Failure(Error.Checker);
      }
      if order[n] in seen {
        Repeated(order, n);
        return Failure(Error.Checker);
      }
      seen := seen + {order[n]};
    }
    assert order[..|order|] == order;
    if i: nat :| i < |batch.txs| && i !in seen {
      return Failure(Error.Checker);
    }
    return Success(());
  }

  lemma Repeated(order: seq<nat>, n: nat)
    requires n < |order| && order[n] in order[..n]
    ensures !Distinct(order)
  {
    var m :| 0 <= m < n && order[m] == order[n];
  }

  /** The transactions of a batch in a recorded order. */
  function InOrder(txs: seq<OrderedTx>, order: seq<nat>): seq<OrderedTx>
    requires forall i | 0 <= i < |order| :: order[i] < |txs|
  {
    seq(|order|, i requires 0 <= i < |order| => txs[order[i]])
  }

  ghost predicate Recorded(batches: seq<Batch>, reorders: map<nat, ReorderRecord>) {
    forall i | 0 <= i < |batches| ::
      batches[i].batchId in reorders && ValidRecord(batches[i], reorders[batches[i].batchId])
  }

  ghost function RecordedOrder(batch: Batch, reorders: map<nat, ReorderRecord>): seq<OrderedTx>
    requires batch.batchId in reorders && ValidRecord(batch, reorders[batch.batchId])
  {
    var record := reorders[batch.batchId];
    var order := record.successes + record.fallbacks;
    assert forall i | 0 <= i < |order| :: order[i] in order;
    InOrder(batch.txs, order)
  }

  ghost function ReorderedFold(store: Store, batches: seq<Batch>, reorders: map<nat, ReorderRecord>): Store
    requires Recorded(batches, reorders)
  {
    if batches == [] then store
    else
      var front, last := batches[..|batches| - 1], batches[|batches| - 1];
      assert Recorded(front, reorders);
      TxFold(ReorderedFold(store, front, reorders), RecordedOrder(last, reorders))
  }

  /** Fails exactly if some batch has no valid record; otherwise runs each batch in its
  recorded order. */
  method ReferenceExecuteReordered(batches: seq<Batch>, reorders: map<nat, ReorderRecord>) returns (r: Result<Store>)
    ensures r.Success? <==> Recorded(batches, reorders)
    ensures r.Success? ==> r.value == ReorderedFold(map[], batches, reorders)
  {
    hide TxStep;
    var state: Store := map[];
    for i := 0 to |batches|
      invariant Recorded(batches[..i], reorders)
      invariant state == ReorderedFold(map[], batches[..i], reorders)
    {
      var batch := batches[i];
      if batch.batchId !in reorders {
        return Failure(Error.Checker);
      }
      var record := reorders[batch.batchId];
      var valid := ValidateReorderRecord(batch, record);
      if valid.Failure? {
        return Failure(Error.Checker);
      }
      var order := record.successes + record.fallbacks;
      assert forall j | 0 <= j < |order| :: order[j] in order;
      ghost var before, txs := state, InOrder(batch.txs, order);
      for j := 0 to |order|
        invariant state == TxFold(before, txs[..j])
      {
        assert txs[..j + 1][..j] == txs[..j];
        state := ApplyReferenceTx(state, batch.txs[order[j]]);
      }
      assert txs[..|txs|] == txs && batches[..i + 1][..i] == batches[..i];
    }
    assert batches[..|batches|] == batches;
    return Success(state);
  }

  // ---------------------------------------------------------------- the reference order

  function RecordFor(batch: Batch, fallback: set<nat>): ReorderRecord {
    ReorderRecord(batch.batchId, Ascending(fallback, false, |batch.txs|), Ascending(fallback, true, |batch.txs|))
  }

  lemma {:induction false} AscendingSelects(txs: seq<OrderedTx>, chosen: set<nat>, inside: bool, n: nat)
    requires n <= |txs|
    ensures forall i | 0 <= i < |Ascending(chosen, inside, n)| :: Ascending(chosen, inside, n)[i] < n
    ensures OpsOf(InOrder(txs, Ascending(chosen, inside, n))) == Select(OpsOf(txs), chosen, inside, n)
  {
    if n == 0 {
    } else {
      AscendingSelects(txs, chosen, inside, n - 1);
      var front := Ascending(chosen, inside, n - 1);
      if (n - 1 in chosen) == inside {
        assert InOrder(txs, front + [n - 1]) == InOrder(txs, front) + [txs[n - 1]];
        assert OpsOf(InOrder(txs, front) + [txs[n - 1]]) == OpsOf(InOrder(txs, front)) + [txs[n - 1].op];
      } else {
        assert front + [] == front;
      }
    }
  }

  lemma InOrderAppend(txs: seq<OrderedTx>, a: seq<nat>, b: seq<nat>)
    requires forall i | 0 <= i < |a| :: a[i] < |txs|
    requires forall i | 0 <= i < |b| :: b[i] < |txs|
    ensures OpsOf(InOrder(txs, a + b)) == OpsOf(InOrder(txs, a)) + OpsOf(InOrder(txs, b))
  {
  }

  lemma RecordForIsValid(batch: Batch, fallback: set<nat>)
    ensures ValidRecord(batch, RecordFor(batch, fallback))
  {
    var n := |batch.txs|;
    AscendingMeans(fallback, false, n);
    AscendingMeans(fallback, true, n);
    hide Ascending;
    var a, b := Ascending(fallback, false, n), Ascending(fallback, true, n);
    assert forall i | 0 <= i < |a| :: a[i] in a;
    assert forall i | 0 <= i < |b| :: b[i] in b;
  }

  /** The record built from a failed set is valid and lists the promised order: successes in
  batch order, then failures in batch order. */
  lemma RecordForIsReordered(batch: Batch, fallback: set<nat>, reorders: map<nat, ReorderRecord>)
    requires batch.batchId in reorders && reorders[batch.batchId] == RecordFor(batch, fallback)
    ensures ValidRecord(batch, RecordFor(batch, fallback))
    ensures OpsOf(RecordedOrder(batch, reorders)) == Reordered(OpsOf(batch.txs), fallback)
  {
    RecordForIsValid(batch, fallback);
    AscendingSelects(batch.txs, fallback, false, |batch.txs|);
    AscendingSelects(batch.txs, fallback, true, |batch.txs|);
    hide ValidRecord, Ascending, Select, OpsOf, InOrder;
    InOrderAppend(batch.txs, Ascending(fallback, false, |batch.txs|), Ascending(fallback, true, |batch.txs|));
    assert |OpsOf(batch.txs)| == |batch.txs|;
  }

  // ---------------------------------------------------------------- consistent reports

  predicate DistinctIds(batches: seq<Batch>) {
    forall i, j | 0 <= i < j < |batches| :: batches[i].batchId != batches[j].batchId
  }

  predicate Reported(records: seq<ReorderRecord>, batchId: nat) {
    exists r :: 0 <= r < |records| && records[r].batchId == batchId
  }

  ghost predicate Known(batches: seq<Batch>, record: ReorderRecord) {
    exists b :: 0 <= b < |batches| && ValidRecord(batches[b], record)
  }

  /** One shard reports every batch exactly once, each time with a valid record. */
  ghost predicate FaithfulReports(batches: seq<Batch>, records: seq<ReorderRecord>) {
    && (forall r | 0 <= r < |records| :: Known(batches, records[r]))
    && (forall r, q | 0 <= r < q < |records| :: records[r].batchId != records[q].batchId)
    && (forall b | 0 <= b < |batches| :: Reported(records, batches[b].batchId))
  }

  /** What one shard's records say has failed in a batch. */
  function FallbacksIn(records: seq<ReorderRecord>, batchId: nat): set<nat> {
    set r, i | 0 <= r < |records| && records[r].batchId == batchId && i in records[r].fallbacks :: i
  }

  function FallbackUnion(reports: seq<seq<ReorderRecord>>, batchId: nat): set<nat> {
    set s, i | 0 <= s < |reports| && i in FallbacksIn(reports[s], batchId) :: i
  }

  function Entry(m: map<nat, set<nat>>, k: nat): set<nat> {
    if k in m then m[k] else {}
  }

  function Members(q: seq<nat>): (r: set<nat>)
    ensures forall i: nat :: i in r <==> i in q
  {
    set i | 0 <= i < |q| :: q[i]
  }

  method IndexBatches(batches: seq<Batch>) returns (r: Result<map<nat, Batch>>)
    ensures r.Success? <==> DistinctIds(batches)
    ensures r.Success? ==> forall id ::
      (id in r.value <==> exists b :: 0 <= b < |batches| && batches[b].batchId == id)
      && (id in r.value ==> r.value[id] in batches && r.value[id].batchId == id)
  {
    var byId: map<nat, Batch> := map[];
    for n := 0 to |batches|
      invariant DistinctIds(batches[..n])
      invariant forall id :: (id in byId <==> exists b :: 0 <= b < n && batches[b].batchId == id)
                             && (id in byId ==> byId[id] in batches && byId[id].batchId == id)
    {
      if batches[n].batchId in byId {
        return Failure(Error.Checker);
      }
      byId := byId[batches[n].batchId := batches[n]];
    }
    assert batches[..|batches|] == batches;
    return Success(byId);
  }

  /** Takes in the records of one shard. */
  method CollectShard(batches: seq<Batch>, byId: map<nat, Batch>, records: seq<ReorderRecord>, before: map<nat, set<nat>>)
    returns (r: Result<map<nat, set<nat>>>)
    requires DistinctIds(batches)
    requires forall id ::
      (id in byId <==> exists b :: 0 <= b < |batches| && batches[b].batchId == id)
      && (id in byId ==> byId[id] in batches && byId[id].batchId == id)
    ensures r.Success? <==> FaithfulReports(batches, records)
    ensures r.Success? ==> forall id: nat :: Entry(r.value, id) == Entry(before, id) + FallbacksIn(records, id)
  {
    hide FallbacksIn, Known, ValidRecord, Reported, Members;
    var fallbacks: map<nat, set<nat>>, seen: set<nat> := before, {};
    NothingYet(records);
    for n := 0 to |records|
      invariant forall q | 0 <= q < n :: Known(batches, records[q])
      invariant forall q, p | 0 <= q < p < n :: records[q].batchId != records[p].batchId
      invariant forall id: nat :: id in seen <==> Reported(records[..n], id)
      invariant forall id: nat :: Entry(fallbacks, id) == Entry(before, id) + FallbacksIn(records[..n], id)
    {
      var record := records[n];
      if record.batchId !in byId {
        Unknown(batches, record);
        return Failure(Error.Checker);
      }
      var batch := byId[record.batchId];
      KnownOnly(batches, batch, record);
      var valid := ValidateReorderRecord(batch, record);
      if valid.Failure? {
        return Failure(Error.Checker);
      }
      if record.batchId in seen {
        Twice(records, n);
        return Failure(Error.Checker);
      }
      FirstTime(records, n);
      OneMore(records, n);
      fallbacks := fallbacks[record.batchId := Entry(fallbacks, record.batchId) + Members(record.fallbacks)];
      seen := seen + {record.batchId};
    }
    assert records[..|records|] == records;
    if b :| 0 <= b < |batches| && batches[b].batchId !in seen {
      return Failure(Error.Checker);
    }
    return Success(fallbacks);
  }

  lemma NothingYet(records: seq<ReorderRecord>)
    ensures forall id: nat :: FallbacksIn(records[..0], id) == {} && !Reported(records[..0], id)
  {
  }

  lemma Twice(records: seq<ReorderRecord>, n: nat)
    requires n < |records| && Reported(records[..n], records[n].batchId)
    ensures exists r, q :: 0 <= r < q < |records| && records[r].batchId == records[q].batchId
  {
    var r :| 0 <= r < n && records[..n][r].batchId == records[n].batchId;
    assert records[r].batchId == records[n].batchId;
  }

  lemma FirstTime(records: seq<ReorderRecord>, n: nat)
    requires n < |records| && !Reported(records[..n], records[n].batchId)
    ensures forall q | 0 <= q < n :: records[q].batchId != records[n].batchId
  {
    forall q | 0 <= q < n ensures records[q].batchId != records[n].batchId {
      assert records[..n][q] == records[q];
    }
  }

  lemma Unknown(batches: seq<Batch>, record: ReorderRecord)
    requires forall b | 0 <= b < |batches| :: batches[b].batchId != record.batchId
    ensures !Known(batches, record)
  {
  }

  lemma KnownOnly(batches: seq<Batch>, batch: Batch, record: ReorderRecord)
    requires DistinctIds(batches) && batch in batches && batch.batchId == record.batchId
    ensures Known(batches, record) <==> ValidRecord(batch, record)
  {
    hide Distinct;
  }

  lemma OneMore(records: seq<ReorderRecord>, n: nat)
    requires n < |records|
    ensures forall id: nat :: FallbacksIn(records[..n + 1], id) ==
              FallbacksIn(records[..n], id) + if records[n].batchId == id then Members(records[n].fallbacks) else {}
    ensures forall id: nat :: Reported(records[..n + 1], id) <==> Reported(records[..n], id) || records[n].batchId == id
  {
    forall id: nat ensures FallbacksIn(records[..n + 1], id) ==
              FallbacksIn(records[..n], id) + if records[n].batchId == id then Members(records[n].fallbacks) else {}
    {
      FallbacksSnoc(records, n, id);
    }
    forall id: nat ensures Reported(records[..n + 1], id) <==> Reported(records[..n], id) || records[n].batchId == id {
      if r :| 0 <= r < n && records[..n][r].batchId == id {
        assert records[..n + 1][r].batchId == id;
      }
      assert records[..n + 1][n] == records[n];
    }
  }

  lemma FallbacksSnoc(records: seq<ReorderRecord>, n: nat, id: nat)
    requires n < |records|
    ensures FallbacksIn(records[..n + 1], id) ==
              FallbacksIn(records[..n], id) + if records[n].batchId == id then Members(records[n].fallbacks) else {}
  {
    var all, front := records[..n + 1], records[..n];
    forall i: nat ensures i in FallbacksIn(all, id) <==>
        i in FallbacksIn(front, id) || (records[n].batchId == id && i in Members(records[n].fallbacks))
    {
      if i in FallbacksIn(front, id) {
        var r :| 0 <= r < |front| && front[r].batchId == id && i in front[r].fallbacks;
        assert all[r] == front[r];
      }
      if i in FallbacksIn(all, id) {
        var r :| 0 <= r < |all| && all[r].batchId == id && i in all[r].fallbacks;
        assert r < n ==> all[r] == front[r];
      }
      assert all[n] == records[n];
    }
  }

  /** The shards' reports are accepted exactly if every shard reports every batch once, each
  time accounting for every transaction; the reference then fails, in each batch, the union
  of what the shards failed. */
  method AssertReordersConsistent(batches: seq<Batch>, reports: seq<seq<ReorderRecord>>)
    returns (r: Result<map<nat, ReorderRecord>>)
    ensures r.Success? <==> DistinctIds(batches) && forall s | 0 <= s < |reports| :: FaithfulReports(batches, reports[s])
    ensures r.Success? ==> forall b | 0 <= b < |batches| ::
      batches[b].batchId in r.value
      && r.value[batches[b].batchId] == RecordFor(batches[b], FallbackUnion(reports, batches[b].batchId))
  {
    hide FaithfulReports, FallbacksIn, FallbackUnion, RecordFor;
    var indexed := IndexBatches(batches);
    if indexed.Failure? {
      return Failure(Error.Checker);
    }
    var fallbacks: map<nat, set<nat>> := map[];
    UnionNothing(reports);
    for s := 0 to |reports|
      invariant forall t | 0 <= t < s :: FaithfulReports(batches, reports[t])
      invariant forall id: nat :: Entry(fallbacks, id) == FallbackUnion(reports[..s], id)
    {
      var collected := CollectShard(batches, indexed.value, reports[s], fallbacks);
      if collected.Failure? {
        return Failure(Error.Checker);
      }
      UnionMore(reports, s);
      fallbacks := collected.value;
    }
    assert reports[..|reports|] == reports;
    var reference: map<nat, ReorderRecord> := map[];
    for b := 0 to |batches|
      invariant forall a | 0 <= a < b ::
        batches[a].batchId in reference &&
        reference[batches[a].batchId] == RecordFor(batches[a], FallbackUnion(reports, batches[a].batchId))
    {
      var id := batches[b].batchId;
      reference := reference[id := RecordFor(batches[b], Entry(fallbacks, id))];
    }
    return Success(reference);
  }

  lemma UnionNothing(reports: seq<seq<ReorderRecord>>)
    ensures forall id: nat :: FallbackUnion(reports[..0], id) == {}
  {
  }

  lemma UnionMore(reports: seq<seq<ReorderRecord>>, s: nat)
    requires s < |reports|
    ensures forall id: nat ::
      FallbackUnion(reports[..s + 1], id) == FallbackUnion(reports[..s], id) + FallbacksIn(reports[s], id)
  {
    hide FallbacksIn;
    var all, front := reports[..s + 1], reports[..s];
    forall id: nat, i: nat
      ensures i in FallbackUnion(all, id) <==> i in FallbackUnion(front, id) || i in FallbacksIn(reports[s], id)
    {
      if i in FallbackUnion(front, id) {
        var t :| 0 <= t < |front| && i in FallbacksIn(front[t], id);
        assert all[t] == front[t];
      }
      if i in FallbackUnion(all, id) {
        var t :| 0 <= t < |all| && i in FallbacksIn(all[t], id);
        assert t < s ==> all[t] == front[t];
      }
      assert all[s] == reports[s];
    }
  }

  // ---------------------------------------------------------------- merging

  /** Every dumped key sits on its owner and on one shard only. */
  predicate Mergeable(l: Layout, dumps: seq<(nat, Store)>) {
    && (forall d, k | 0 <= d < |dumps| && k in dumps[d].1 :: l.shardFor(k) == dumps[d].0)
    && (forall d, e, k | 0 <= d < e < |dumps| && k in dumps[d].1 :: k !in dumps[e].1)
  }

  /** The first `n` dumps merge into one store. */
  ghost predicate MergedTo(l: Layout, dumps: seq<(nat, Store)>, n: nat, merged: Store)
    requires n <= |dumps|
  {
    && Mergeable(l, dumps[..n])
    && (forall k :: k in merged <==> exists d :: 0 <= d < n && k in dumps[d].1)
    && (forall d, k | 0 <= d < n && k in dumps[d].1 :: merged[k] == dumps[d].1[k])
  }

  lemma MergeOne(l: Layout, dumps: seq<(nat, Store)>, n: nat, merged: Store)
    requires n < |dumps| && MergedTo(l, dumps, n, merged)
    requires forall k | k in dumps[n].1 :: l.shardFor(k) == dumps[n].0 && k !in merged
    ensures MergedTo(l, dumps, n + 1, merged + dumps[n].1)
  {
    forall d, k | 0 <= d < n && k in dumps[d].1 ensures k in merged && k !in dumps[n].1 {
    }
    assert dumps[..n + 1] == dumps[..n] + [dumps[n]];
  }

  lemma MergeStuck(l: Layout, dumps: seq<(nat, Store)>, n: nat, merged: Store, k: Key)
    requires n < |dumps| && MergedTo(l, dumps, n, merged)
    requires k in dumps[n].1 && (l.shardFor(k) != dumps[n].0 || k in merged)
    ensures !Mergeable(l, dumps)
  {
  }

  /** Fails exactly for a misplaced or repeated key; otherwise holds every dumped entry. */
  method MergeShardStates(l: Layout, dumps: seq<(nat, Store)>) returns (r: Result<Store>)
    ensures r.Success? <==> Mergeable(l, dumps)
    ensures r.Success? ==> forall k :: (k in r.value <==> exists d :: 0 <= d < |dumps| && k in dumps[d].1)
    ensures r.Success? ==> forall d, k | 0 <= d < |dumps| && k in dumps[d].1 :: r.value[k] == dumps[d].1[k]
  {
    var merged: Store := map[];
    for n := 0 to |dumps|
      invariant MergedTo(l, dumps, n, merged)
    {
      hide MergedTo, Mergeable;
      if k :| k in dumps[n].1 && (l.shardFor(k) != dumps[n].0 || k in merged) {
        MergeStuck(l, dumps, n, merged, k);
        return Failure(Error.Checker);
      }
      MergeOne(l, dumps, n, merged);
      merged := merged + dumps[n].1;
    }
    assert dumps[..|dumps|] == dumps;
    return Success(merged);
  }

  /** Dumps of shards that hold their own keys merge into the union of their stores. */
  lemma DumpsMerge(l: Layout, stores: seq<Store>, merged: Store)
    requires ValidLayout(l) && OwnedStores(l, stores) && |stores| == l.shardCount
    requires forall k :: k in merged <==> exists d :: 0 <= d < |stores| && k in stores[d]
    requires forall d, k | 0 <= d < |stores| && k in stores[d] :: merged[k] == stores[d][k]
    ensures merged == Merge(stores)
  {
    forall k ensures Val(merged, k) == Val(Merge(stores), k) {
      MergeVal(l, stores, k);
      if k in merged {
        var d :| 0 <= d < |stores| && k in stores[d];
        assert l.shardFor(k) == d;
      }
    }
    StoreExt(merged, Merge(stores));
  }
}
