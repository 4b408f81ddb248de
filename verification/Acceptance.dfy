/** The end-to-end check: the shards' reorder records are reconciled, the reference is run in
the reconciled order, the shards' dumps are merged, and the two stores are compared. Every
finished session passes it. */
module Acceptance {
  import opened Model
  import opened Executor
  import opened Router
  import opened Checker
  import opened Sessions
  import Calvin

  // ---------------------------------------------------------------- the check

  /** What the shards together say has failed, batch by batch. */
  function ReportedFailures(batches: seq<Batch>, reports: seq<seq<ReorderRecord>>): seq<set<nat>> {
    seq(|batches|, b requires 0 <= b < |batches| => FallbackUnion(reports, batches[b].batchId))
  }

  /** Every shard reports every batch once with a valid record, and the dumps merge into the
  serial run of each batch's successes and then its failures. */
  ghost predicate Accepted(l: Layout, batches: seq<Batch>, reports: seq<seq<ReorderRecord>>, dumps: seq<(nat, Store)>) {
    && DistinctIds(batches) && (forall s | 0 <= s < |reports| :: FaithfulReports(batches, reports[s]))
    && MergedTo(l, dumps, |dumps|, ReorderedSerial(batches, ReportedFailures(batches, reports)))
  }

  lemma MergedOnce(l: Layout, dumps: seq<(nat, Store)>, a: Store, b: Store)
    requires MergedTo(l, dumps, |dumps|, a) && MergedTo(l, dumps, |dumps|, b)
    ensures a == b
  {
    forall k ensures Val(a, k) == Val(b, k) {
      if d :| 0 <= d < |dumps| && k in dumps[d].1 {
      }
    }
    StoreExt(a, b);
  }

  lemma AllRecorded(batches: seq<Batch>, failed: seq<set<nat>>, reorders: map<nat, ReorderRecord>)
    requires |failed| == |batches| && Recording(batches, failed, reorders)
    ensures Recorded(batches, reorders)
  {
    forall b | 0 <= b < |batches| ensures ValidRecord(batches[b], reorders[batches[b].batchId]) {
      RecordForIsValid(batches[b], failed[b]);
    }
  }

  /** On batches that carry their derived sets the check passes exactly for accepted sessions. */
  method CheckSession(l: Layout, batches: seq<Batch>, reports: seq<seq<ReorderRecord>>, dumps: seq<(nat, Store)>)
    returns (r: Result<()>)
    ensures AllValidSets(batches) ==> (r.Success? <==> Accepted(l, batches, reports, dumps))
  {
    hide FaithfulReports, FallbackUnion, RecordFor, Mergeable, ValidRecord;
    var reorders := AssertReordersConsistent(batches, reports);
    if reorders.Failure? {
      return Failure(Error.Checker);
    }
    ghost var failed := ReportedFailures(batches, reports);
    AllRecorded(batches, failed, reorders.value);
    var expected := ReferenceExecuteReordered(batches, reorders.value);
    if AllValidSets(batches) {
      ReferenceIsReordered(batches, failed, reorders.value);
    }
    var actual := MergeShardStates(l, dumps);
    assert dumps[..|dumps|] == dumps;
    if actual.Failure? {
      return Failure(Error.Checker);
    }
    assert MergedTo(l, dumps, |dumps|, actual.value);
    if MergedTo(l, dumps, |dumps|, expected.value) {
      MergedOnce(l, dumps, expected.value, actual.value);
    }
    if expected.value != actual.value {
      return Failure(Error.Checker);
    }
    return Success(());
  }

  // ---------------------------------------------------------------- what a session hands in

  /** The records of one shard: for each batch, what it failed there. */
  function RecordsOf(batches: seq<Batch>, parts: seq<seq<set<nat>>>, s: nat): seq<ReorderRecord>
    requires |parts| == |batches| && forall b | 0 <= b < |parts| :: s < |parts[b]|
  {
    seq(|batches|, b requires 0 <= b < |batches| => RecordFor(batches[b], parts[b][s]))
  }

  function ReportsOf(l: Layout, batches: seq<Batch>, parts: seq<seq<set<nat>>>): seq<seq<ReorderRecord>>
    requires |parts| == |batches| && forall b | 0 <= b < |parts| :: |parts[b]| == l.shardCount
  {
    seq(l.shardCount, s requires 0 <= s < l.shardCount => RecordsOf(batches, parts, s))
  }

  function DumpsOf(stores: seq<Store>): seq<(nat, Store)> {
    seq(|stores|, s requires 0 <= s < |stores| => (s, stores[s]))
  }

  lemma RecordsFaithful(batches: seq<Batch>, parts: seq<seq<set<nat>>>, s: nat)
    requires DistinctIds(batches) && |parts| == |batches| && forall b | 0 <= b < |parts| :: s < |parts[b]|
    ensures FaithfulReports(batches, RecordsOf(batches, parts, s))
  {
    var records := RecordsOf(batches, parts, s);
    forall b | 0 <= b < |batches| ensures Known(batches, records[b]) && Reported(records, batches[b].batchId) {
      RecordForIsValid(batches[b], parts[b][s]);
      hide ValidRecord;
      assert records[b].batchId == batches[b].batchId;
    }
    hide Known, Reported;
  }

  lemma RecordedFallbacks(batches: seq<Batch>, parts: seq<seq<set<nat>>>, s: nat, b: nat)
    requires DistinctIds(batches) && |parts| == |batches| && forall a | 0 <= a < |parts| :: s < |parts[a]|
    requires b < |batches| && forall i | i in parts[b][s] :: i < |batches[b].txs|
    ensures FallbacksIn(RecordsOf(batches, parts, s), batches[b].batchId) == parts[b][s]
  {
    var records := RecordsOf(batches, parts, s);
    AscendingMeans(parts[b][s], true, |batches[b].txs|);
    hide Ascending;
    assert records[b].fallbacks == Ascending(parts[b][s], true, |batches[b].txs|);
    forall r | 0 <= r < |records| ensures records[r].batchId == batches[r].batchId {
    }
  }

  /** The union that the check reconciles is the union of what the shards failed. */
  lemma FailuresAre(l: Layout, batches: seq<Batch>, parts: seq<seq<set<nat>>>, b: nat)
    requires DistinctIds(batches) && |parts| == |batches| && b < |batches|
    requires forall a | 0 <= a < |parts| :: |parts[a]| == l.shardCount && Bounded(l, batches[a], parts[a])
    ensures FallbackUnion(ReportsOf(l, batches, parts), batches[b].batchId) == UnionOf(parts[b])
  {
    var reports, id := ReportsOf(l, batches, parts), batches[b].batchId;
    forall s | 0 <= s < l.shardCount ensures FallbacksIn(reports[s], id) == parts[b][s] {
      assert forall i | i in parts[b][s] :: i in UnionOf(parts[b]);
      RecordedFallbacks(batches, parts, s, b);
    }
    hide FallbacksIn, RecordsOf;
  }

  lemma DumpsMergeable(l: Layout, stores: seq<Store>)
    requires Calvin.Owned(l, stores)
    ensures Mergeable(l, DumpsOf(stores))
  {
    var dumps := DumpsOf(stores);
    forall d, k | 0 <= d < |dumps| && k in dumps[d].1 ensures l.shardFor(k) == dumps[d].0 {
      assert k in stores[d];
    }
    forall d, e, k | 0 <= d < e < |dumps| && k in dumps[d].1 ensures k !in dumps[e].1 {
      assert k in stores[d] && dumps[e].1 == stores[e] && l.shardFor(k) == d;
    }
  }

  lemma DumpsMerged(l: Layout, stores: seq<Store>)
    requires ValidLayout(l) && Calvin.Owned(l, stores)
    ensures MergedTo(l, DumpsOf(stores), |DumpsOf(stores)|, Merge(stores))
  {
    var dumps, merged := DumpsOf(stores), Merge(stores);
    forall k ensures Val(merged, k) == Val(stores[l.shardFor(k)], k) {
      MergeVal(l, stores, k);
    }
    DumpsMergeable(l, stores);
    hide Merge, Mergeable;
    forall k ensures k in merged <==> exists d :: 0 <= d < |dumps| && k in dumps[d].1 {
      assert Val(merged, k) == Val(stores[l.shardFor(k)], k) && dumps[l.shardFor(k)].1 == stores[l.shardFor(k)];
    }
    forall d, k | 0 <= d < |dumps| && k in dumps[d].1 ensures k in merged && merged[k] == dumps[d].1[k] {
      assert k in stores[d] && Val(merged, k) == Val(stores[l.shardFor(k)], k);
    }
    assert dumps[..|dumps|] == dumps;
  }

  lemma HandedInAccepted(l: Layout, batches: seq<Batch>, parts: seq<seq<set<nat>>>, stores: seq<Store>)
    requires ValidLayout(l) && DistinctIds(batches) && |parts| == |batches| && Calvin.Owned(l, stores)
    requires forall b | 0 <= b < |parts| :: |parts[b]| == l.shardCount && Bounded(l, batches[b], parts[b])
    requires Merge(stores) == ReorderedSerial(batches, Unions(parts))
    ensures Accepted(l, batches, ReportsOf(l, batches, parts), DumpsOf(stores))
  {
    var reports := ReportsOf(l, batches, parts);
    hide FaithfulReports, FallbackUnion, RecordFor, MergedTo, UnionOf, ReorderedSerial, Merge, RecordsOf;
    forall s | 0 <= s < |reports| ensures FaithfulReports(batches, reports[s]) {
      RecordsFaithful(batches, parts, s);
    }
    forall b | 0 <= b < |batches| ensures ReportedFailures(batches, reports)[b] == Unions(parts)[b] {
      FailuresAre(l, batches, parts, b);
    }
    assert ReportedFailures(batches, reports) == Unions(parts);
    DumpsMerged(l, stores);
  }

  // ---------------------------------------------------------------- the theorems

  /** Every session of the semantic scheduler in which all shards return Ok passes the check,
  each shard handing in a record of its own failed slots and a dump of its own store. */
  lemma SccSessionAccepted(l: Layout, absorbing: bool, runs: seq<SccRun>, stores: seq<Store>, parts: seq<seq<set<nat>>>)
    requires ValidLayout(l) && |parts| == |runs| && SccSession(l, absorbing, runs, stores, parts)
    requires NoneSelfNests(runs) && TotalOps(runs) <= U64_MAX && DistinctIds(BatchesOf(runs))
    ensures forall b | 0 <= b < |parts| :: |parts[b]| == l.shardCount
    ensures Accepted(l, BatchesOf(runs), ReportsOf(l, BatchesOf(runs), parts), DumpsOf(stores))
  {
    SccSessionIsSerial(l, absorbing, runs, stores, parts);
    hide SccSession, ReorderedSerial, Merge, Calvin.Owned, Accepted, UnionOf;
    HandedInAccepted(l, BatchesOf(runs), parts, stores);
  }

  /** Every shard of the optimistic scheduler records the agreed failed set. */
  function AgreedParts(l: Layout, failed: seq<set<nat>>): seq<seq<set<nat>>> {
    seq(|failed|, b requires 0 <= b < |failed| => seq(l.shardCount, _ => failed[b]))
  }

  lemma AgreedUnion(l: Layout, failed: seq<set<nat>>)
    requires ValidLayout(l)
    ensures Unions(AgreedParts(l, failed)) == failed
  {
    forall b | 0 <= b < |failed| ensures UnionOf(AgreedParts(l, failed)[b]) == failed[b] {
      assert AgreedParts(l, failed)[b][0] == failed[b];
    }
  }

  /** Every session of the optimistic scheduler passes the check. */
  lemma AriaSessionAccepted(l: Layout, runs: seq<AriaRun>, stores: seq<Store>, failed: seq<set<nat>>)
    requires ValidLayout(l) && |failed| == |runs| && AriaSession(l, runs, stores, failed)
    requires DistinctIds(AriaBatchesOf(runs))
    ensures Accepted(l, AriaBatchesOf(runs), ReportsOf(l, AriaBatchesOf(runs), AgreedParts(l, failed)), DumpsOf(stores))
  {
    AriaSessionIsSerial(l, runs, stores, failed);
    AgreedUnion(l, failed);
    hide AriaSession, ReorderedSerial, Merge, Calvin.Owned, Accepted;
    HandedInAccepted(l, AriaBatchesOf(runs), AgreedParts(l, failed), stores);
  }
}
