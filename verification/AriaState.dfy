/** What one shard records about one optimistic batch: who read and who wrote the keys it
owns, the outcomes staged for it, and the reports of the other shards. */
module AriaStates {
  import opened Model

  datatype Staged = Staged(result: Option<TxResult>, writes: seq<WriteOp>)

  datatype Tables = Tables(
    readers: map<Key, set<nat>>,
    writers: map<Key, set<nat>>,
    staged: map<nat, Staged>,
    done: set<nat>,
    failures: map<nat, set<nat>>)

  function At(m: map<Key, set<nat>>, k: Key): set<nat> {
    if k in m then m[k] else {}
  }

  function Note(m: map<Key, set<nat>>, k: Key, i: nat): map<Key, set<nat>> {
    m[k := At(m, k) + {i}]
  }

  function NoteWrites(m: map<Key, set<nat>>, writes: seq<WriteOp>, i: nat): map<Key, set<nat>> {
    if writes == [] then m
    else Note(NoteWrites(m, writes[..|writes| - 1], i), writes[|writes| - 1].key, i)
  }

  predicate Writes(writes: seq<WriteOp>, k: Key) {
    exists n :: 0 <= n < |writes| && writes[n].key == k
  }

  lemma {:induction false} NoteWritesAt(m: map<Key, set<nat>>, writes: seq<WriteOp>, i: nat, k: Key)
    ensures At(NoteWrites(m, writes, i), k) == At(m, k) + if Writes(writes, k) then {i} else {}
  {
    if writes == [] {
    } else {
      var front := writes[..|writes| - 1];
      NoteWritesAt(m, front, i, k);
      assert Writes(front, k) ==> Writes(writes, k) by {
        if n :| 0 <= n < |front| && front[n].key == k {
          assert writes[n].key == k;
        }
      }
      assert writes[|writes| - 1].key == k ==> Writes(writes, k);
      assert Writes(writes, k) ==> Writes(front, k) || writes[|writes| - 1].key == k by {
        if n :| 0 <= n < |writes| && writes[n].key == k {
          assert n < |front| ==> front[n].key == k;
        }
      }
    }
  }

  /** A transaction fails on a key that an earlier one writes if it writes or reads it too. */
  predicate Fails(t: Tables, k: Key, i: nat) {
    i in At(t.writers, k) + At(t.readers, k) && exists j :: j in At(t.writers, k) && j < i
  }

  function FailedIndices(t: Tables): set<nat> {
    set k, i | k in t.writers && i in t.writers[k] + At(t.readers, k) && Fails(t, k, i) :: i
  }

  lemma FailedMeans(t: Tables, i: nat)
    ensures i in FailedIndices(t) <==> exists k :: Fails(t, k, i)
  {
    if k :| Fails(t, k, i) {
      assert k in t.writers;
    }
  }

  /** The staged writes of the transactions outside the failed set, in batch order. */
  function InstallStaged(store: Store, staged: map<nat, Staged>, failed: set<nat>, n: nat): Store {
    if n == 0 then store
    else
      var before := InstallStaged(store, staged, failed, n - 1);
      if n - 1 in staged && n - 1 !in failed then ApplyWrites(before, staged[n - 1].writes) else before
  }

  /** The results a shard reports when it installs: those staged with it, outside the failed
  set, in index order. */
  function Answers(staged: map<nat, Staged>, failed: set<nat>, n: nat): seq<(nat, TxResult)> {
    if n == 0 then []
    else
      Answers(staged, failed, n - 1)
      + if n - 1 in staged && n - 1 !in failed && staged[n - 1].result.Some? then [(n - 1, staged[n - 1].result.value)] else []
  }

  lemma {:induction false} AnswersMean(staged: map<nat, Staged>, failed: set<nat>, n: nat)
    ensures forall i: nat, r :: (i, r) in Answers(staged, failed, n) <==>
              i < n && i in staged && i !in failed && staged[i].result == Some(r)
    ensures forall a, b | 0 <= a < b < |Answers(staged, failed, n)| ::
              Answers(staged, failed, n)[a].0 < Answers(staged, failed, n)[b].0
  {
    if n == 0 {
    } else {
      AnswersMean(staged, failed, n - 1);
      var front := Answers(staged, failed, n - 1);
      forall a | 0 <= a < |front| ensures front[a].0 < n - 1 {
        assert (front[a].0, front[a].1) in front;
      }
    }
  }

  predicate AllReported(reports: set<nat>, shardCount: nat) {
    forall s: nat | s < shardCount :: s in reports
  }

  class AriaBatchState {
    var readersByKey: map<Key, set<nat>>
    var writersByKey: map<Key, set<nat>>
    var stagedOutcomes: map<nat, Staged>
    var executionDoneReports: set<nat>
    var failureReports: map<nat, set<nat>>

    function View(): Tables
      reads this
    {
      Tables(readersByKey, writersByKey, stagedOutcomes, executionDoneReports, failureReports)
    }

    constructor ()
      ensures View() == Tables(map[], map[], map[], {}, map[])
    {
      readersByKey, writersByKey, stagedOutcomes := map[], map[], map[];
      executionDoneReports, failureReports := {}, map[];
    }

    method RecordReader(key: Key, txIndex: nat)
      modifies this
      ensures View() == old(View()).(readers := Note(old(readersByKey), key, txIndex))
    {
      readersByKey := readersByKey[key := (if key in readersByKey then readersByKey[key] else {}) + {txIndex}];
    }

    /** An outcome is staged once; its writes are recorded only then. */
    method StageOutcome(txIndex: nat, outcome: Staged) returns (r: Result<()>)
      modifies this
      ensures r.Success? <==> txIndex !in old(stagedOutcomes)
      ensures r.Success? ==>
        View() == old(View()).(staged := old(stagedOutcomes)[txIndex := outcome],
                               writers := NoteWrites(old(writersByKey), outcome.writes, txIndex))
      ensures r.Failure? ==> View() == old(View()).(staged := old(stagedOutcomes)[txIndex := outcome])
    {
      var duplicate := txIndex in stagedOutcomes;
      stagedOutcomes := stagedOutcomes[txIndex := outcome];
      if duplicate {
        return Failure(InvalidBatch);
      }
      for n := 0 to |outcome.writes|
        invariant stagedOutcomes == old(stagedOutcomes)[txIndex := outcome]
        invariant writersByKey == NoteWrites(old(writersByKey), outcome.writes[..n], txIndex)
        invariant View() == old(View()).(staged := stagedOutcomes, writers := writersByKey)
      {
        var key := outcome.writes[n].key;
        assert outcome.writes[..n + 1][..n] == outcome.writes[..n];
        writersByKey := writersByKey[key := (if key in writersByKey then writersByKey[key] else {}) + {txIndex}];
      }
      assert outcome.writes[..|outcome.writes|] == outcome.writes;
      return Success(());
    }

    method RecordExecutionDone(fromShard: nat, shardCount: nat) returns (r: Result<()>)
      modifies this
      ensures r.Success? <==> fromShard < shardCount && fromShard !in old(executionDoneReports)
      ensures View() == if r.Success? then old(View()).(done := old(executionDoneReports) + {fromShard}) else old(View())
    {
      if fromShard >= shardCount || fromShard in executionDoneReports {
        return Failure(InvalidBatch);
      }
      executionDoneReports := executionDoneReports + {fromShard};
      return Success(());
    }

    method RecordLocalFailures(fromShard: nat, failed: set<nat>, shardCount: nat) returns (r: Result<()>)
      modifies this
      ensures r.Success? <==> fromShard < shardCount && fromShard !in old(failureReports)
      ensures fromShard >= shardCount ==> View() == old(View())
      ensures fromShard < shardCount ==> View() == old(View()).(failures := old(failureReports)[fromShard := failed])
    {
      if fromShard >= shardCount {
        return Failure(InvalidBatch);
      }
      var duplicate := fromShard in failureReports;
      failureReports := failureReports[fromShard := failed];
      return if duplicate then Failure(InvalidBatch) else Success(());
    }

    /** For each written key every writer but the first and every later reader fails. */
    method LocalFailedIndices() returns (failed: set<nat>)
      ensures failed == FailedIndices(View())
    {
      failed := {};
      var left := writersByKey.Keys + readersByKey.Keys;
      ghost var all := left;
      while left != {}
        invariant left <= all
        invariant forall i :: i in failed <==> exists k :: k in all - left && Fails(View(), k, i)
        decreases left
      {
        var key :| key in left;
        ghost var before := failed;
        if key in writersByKey && writersByKey[key] != {} {
          var more := FailedOnKey(writersByKey[key], if key in readersByKey then readersByKey[key] else {});
          failed := failed + more;
          assert At(writersByKey, key) == writersByKey[key];
          forall i: nat ensures i in more <==> Fails(View(), key, i) {
          }
        }
        left := left - {key};
        forall i ensures i in failed <==> exists k :: k in all - left && Fails(View(), k, i) {
          assert i in failed <==> i in before || Fails(View(), key, i);
        }
      }
      forall i ensures i in failed <==> i in FailedIndices(View()) {
        FailedMeans(View(), i);
      }
    }

    /** Applies the staged writes in index order, skipping the failed transactions, and reports
    the results staged here. */
    method InstallSuccesses(store: Store, failed: set<nat>, count: nat)
      returns (installed: Store, records: seq<(nat, TxResult)>)
      ensures installed == InstallStaged(store, stagedOutcomes, failed, count)
      ensures records == Answers(stagedOutcomes, failed, count)
    {
      installed, records := store, [];
      for i := 0 to count
        invariant installed == InstallStaged(store, stagedOutcomes, failed, i)
        invariant records == Answers(stagedOutcomes, failed, i)
      {
        if i in stagedOutcomes && i !in failed {
          installed := ApplyWrites(installed, stagedOutcomes[i].writes);
          if stagedOutcomes[i].result.Some? {
            records := records + [(i, stagedOutcomes[i].result.value)];
          }
        }
      }
    }

    /** The union of the shards' failed sets, once all of them have reported. */
    method GlobalFailedIndices(shardCount: nat) returns (r: Option<set<nat>>)
      ensures r.Some? <==> AllReported(failureReports.Keys, shardCount)
      ensures r.Some? ==> forall i :: i in r.value <==> exists s :: s in failureReports && i in failureReports[s]
    {
      if s :| 0 <= s < shardCount && s !in failureReports {
        return None;
      }
      var union, left := {}, failureReports.Keys;
      while left != {}
        invariant left <= failureReports.Keys
        invariant forall i :: i in union <==> exists s :: s in failureReports.Keys - left && i in failureReports[s]
        decreases left
      {
        var s :| s in left;
        union := union + failureReports[s];
        left := left - {s};
      }
      assert failureReports.Keys - left == failureReports.Keys;
      return Some(union);
    }
  }

  method Least(s: set<nat>) returns (m: nat)
    requires s != {}
    ensures m in s && forall x | x in s :: m <= x
  {
    m :| m in s;
    var left := s;
    while left != {}
      invariant left <= s && m in s && forall x | x in s - left :: m <= x
      decreases left
    {
      var x :| x in left;
      if x < m {
        m := x;
      }
      assert forall y | y in s - (left - {x}) :: y in s - left || y == x;
      left := left - {x};
    }
    assert s - left == s;
  }

  /** The transactions that lose on one key: all writers but the first, and the readers after it. */
  method FailedOnKey(writers: set<nat>, readers: set<nat>) returns (failed: set<nat>)
    requires writers != {}
    ensures forall i :: i in failed <==> i in writers + readers && exists j :: j in writers && j < i
  {
    var winner := Least(writers);
    failed := {};
    var left := writers;
    while left != {}
      invariant left <= writers
      invariant forall i :: i in failed <==> i in writers - left && i != winner
      decreases left
    {
      var writer :| writer in left;
      if writer != winner {
        failed := failed + {writer};
      }
      left := left - {writer};
    }
    left := readers;
    while left != {}
      invariant left <= readers
      invariant forall i :: i in failed <==> (i in writers && i != winner) || (i in readers - left && winner < i)
      decreases left
    {
      var reader :| reader in left;
      if winner < reader {
        failed := failed + {reader};
      }
      left := left - {reader};
    }
  }
}
