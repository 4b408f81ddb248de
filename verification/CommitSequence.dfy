/** The write-once commit sequence of a batch and the reads and installs made from it. */
module CommitSequences {
  import opened Model
  import opened Deltas

  datatype SlotState = Pending | NoOp | Delta(delta: TxDelta) | Failed

  /** Slots as one batch sees them later: only pending slots may have changed. */
  predicate Extends(early: seq<SlotState>, late: seq<SlotState>) {
    |early| == |late| && forall i | 0 <= i < |early| :: early[i].Pending? || early[i] == late[i]
  }

  class CommitSequence {
    var slots: seq<SlotState>

    constructor (batchLen: nat)
      ensures slots == seq(batchLen, _ => Pending)
    {
      slots := seq(batchLen, _ => Pending);
    }

    /** A slot is written once, by a terminal state; every other call fails and changes nothing. */
    method SetTerminalOnce(index: nat, state: SlotState) returns (r: Result<()>)
      modifies this
      ensures r.Success? <==> !state.Pending? && index < |old(slots)| && old(slots)[index].Pending?
      ensures slots == if r.Success? then old(slots)[index := state] else old(slots)
      ensures Extends(old(slots), slots)
    {
      if state.Pending? || index >= |slots| || !slots[index].Pending? {
        return Failure(InvalidBatch);
      }
      slots := slots[index := state];
      return Success(());
    }

    /** None while the caller has to keep waiting. */
    function WaitTerminal(index: nat): (r: Result<Option<SlotState>>)
      reads this
      ensures r.Success? <==> index < |slots|
      ensures r.Success? ==> (r.value.None? <==> slots[index].Pending?)
      ensures r.Success? && r.value.Some? ==> !r.value.value.Pending? && r.value.value == slots[index]
    {
      if index >= |slots| then Failure(InvalidBatch)
      else Success(if slots[index].Pending? then None else Some(slots[index]))
    }
  }

  function FailedIndices(slots: seq<SlotState>): set<nat> {
    set i | 0 <= i < |slots| && slots[i].Failed?
  }

  // ---------------------------------------------------------------- full replay

  /** The store after every delta of the first `n` slots. */
  function Replay(store: Store, slots: seq<SlotState>, n: nat): Result<Store>
    requires n <= |slots|
  {
    if n == 0 then Success(store)
    else
      var before :- Replay(store, slots, n - 1);
      if slots[n - 1].Delta? then ApplyDelta(before, slots[n - 1].delta) else Success(before)
  }

  lemma ReplayStep(store: Store, slots: seq<SlotState>, i: nat)
    requires i < |slots| && Replay(store, slots, i).Success?
    ensures var before := Replay(store, slots, i).value;
      Replay(store, slots, i + 1) == if slots[i].Delta? then ApplyDelta(before, slots[i].delta) else Success(before)
  {
  }

  lemma {:induction false} ReplayPrefix(store: Store, slots: seq<SlotState>, m: nat, n: nat)
    requires m <= n <= |slots| && Replay(store, slots, n).Success?
    ensures Replay(store, slots, m).Success?
  {
    if m == n {
    } else {
      ReplayPrefix(store, slots, m, n - 1);
    }
  }

  predicate AllTerminal(slots: seq<SlotState>) {
    forall i | 0 <= i < |slots| :: !slots[i].Pending?
  }

  /** Installing the successes of a batch: an unfinished or failed slot outside the failed
  set is an error, and otherwise the deltas are replayed in batch order. */
  method InstallSuccesses(store: Store, snapshot: seq<SlotState>, failed: set<nat>) returns (r: Result<Store>)
    ensures (exists i :: 0 <= i < |snapshot| && i !in failed && (snapshot[i].Pending? || snapshot[i].Failed?)) ==> r.Failure?
    ensures failed == FailedIndices(snapshot) && AllTerminal(snapshot) ==> r == Replay(store, snapshot, |snapshot|)
  {
    var cur := store;
    for i := 0 to |snapshot|
      invariant failed == FailedIndices(snapshot) ==> Replay(store, snapshot, i) == Success(cur)
      invariant forall j | 0 <= j < i :: j in failed || !(snapshot[j].Pending? || snapshot[j].Failed?)
    {
      if i !in failed {
        match snapshot[i] {
          case Pending => return Failure(InvalidBatch);
          case Failed => return Failure(InvalidBatch);
          case NoOp =>
          case Delta(delta) =>
            var next := ApplyDelta(cur, delta);
            if next.Failure? {
              if failed == FailedIndices(snapshot) {
                ReplayFails(store, snapshot, i + 1, |snapshot|);
              }
              return Failure(next.error);
            }
            cur := next.value;
        }
      }
    }
    return Success(cur);
  }

  lemma {:induction false} ReplayFails(store: Store, slots: seq<SlotState>, m: nat, n: nat)
    requires m <= n <= |slots| && Replay(store, slots, m).Failure?
    ensures Replay(store, slots, n) == Replay(store, slots, m)
  {
    if m == n {
    } else {
      ReplayFails(store, slots, m, n - 1);
    }
  }

  // ---------------------------------------------------------------- materialized reads

  datatype Scan = Waits | SawFailure | Bad | At(state: Store)

  /** What the scan of the first `n` slots gives: it waits at a pending slot, stops at a
  failed one, skips deltas whose write keys miss the read keys and projects the others. */
  function ScanSlots(start: Store, keys: set<Key>, writeKeys: seq<set<Key>>, slots: seq<SlotState>, n: nat): Scan
    requires n <= |slots|
  {
    if n == 0 then At(start)
    else
      var before := ScanSlots(start, keys, writeKeys, slots, n - 1);
      if !before.At? then before
      else match slots[n - 1]
        case Pending => Waits
        case Failed => SawFailure
        case NoOp => before
        case Delta(delta) =>
          if n - 1 >= |writeKeys| then Bad
          else if writeKeys[n - 1] !! keys then before
          else match ApplyDelta(before.state, FilterDelta(delta, keys))
            case Failure(_) => Bad
            case Success(next) => At(next)
  }

  lemma {:induction false} ScanStops(start: Store, keys: set<Key>, writeKeys: seq<set<Key>>, slots: seq<SlotState>, m: nat, n: nat)
    requires m <= n <= |slots| && !ScanSlots(start, keys, writeKeys, slots, m).At?
    ensures ScanSlots(start, keys, writeKeys, slots, n) == ScanSlots(start, keys, writeKeys, slots, m)
  {
    if m == n {
    } else {
      ScanStops(start, keys, writeKeys, slots, m, n - 1);
    }
  }

  /** The first slot of the prefix at which a scan cannot go on. */
  predicate FirstStop(slots: seq<SlotState>, n: nat, i: nat) {
    && i < n <= |slots| && (slots[i].Pending? || slots[i].Failed?)
    && forall j | 0 <= j < i :: !slots[j].Pending? && !slots[j].Failed?
  }

  /** A scan over good deltas waits exactly if the first slot that stops it is pending, fails
  exactly if that slot has failed, and otherwise gets through. */
  lemma {:induction false} ScanStopsFirst(start: Store, keys: set<Key>, writeKeys: seq<set<Key>>, slots: seq<SlotState>, n: nat)
    requires n <= |slots| && !ScanSlots(start, keys, writeKeys, slots, n).Bad?
    ensures var scan := ScanSlots(start, keys, writeKeys, slots, n);
      && (scan.Waits? <==> exists i: nat :: FirstStop(slots, n, i) && slots[i].Pending?)
      && (scan.SawFailure? <==> exists i: nat :: FirstStop(slots, n, i) && slots[i].Failed?)
      && (scan.At? <==> forall i | 0 <= i < n :: !slots[i].Pending? && !slots[i].Failed?)
  {
    if n == 0 {
    } else {
      ScanStopsFirst(start, keys, writeKeys, slots, n - 1);
      hide ApplyDelta, FilterDelta;
      if ScanSlots(start, keys, writeKeys, slots, n - 1).At? {
        assert slots[n - 1].Pending? || slots[n - 1].Failed? ==> FirstStop(slots, n, n - 1);
      } else {
        var i: nat :| FirstStop(slots, n - 1, i);
        assert FirstStop(slots, n, i);
      }
    }
  }

  /** Filling pending slots never changes a scan that did not have to wait, so slots read one
  after the other while others are being written are as good as one snapshot. */
  lemma {:induction false} ScanStable(start: Store, keys: set<Key>, writeKeys: seq<set<Key>>,
                                      early: seq<SlotState>, late: seq<SlotState>, n: nat)
    requires Extends(early, late) && n <= |early|
    requires !ScanSlots(start, keys, writeKeys, early, n).Waits?
    ensures ScanSlots(start, keys, writeKeys, late, n) == ScanSlots(start, keys, writeKeys, early, n)
  {
    if n == 0 {
    } else {
      ScanStable(start, keys, writeKeys, early, late, n - 1);
    }
  }

  function StateOf(view: Reads): Store {
    map k | k in view && view[k].Present? :: view[k].inode
  }

  datatype Materialized = Blocked | Reads(view: Reads) | Failing(error: Error)

  function ScanResult(scan: Scan, keys: set<Key>): Materialized {
    match scan
    case Waits => Blocked
    case SawFailure => Failing(Error.SpeculationFailed)
    case Bad => Failing(InvalidBatch)
    case At(state) => Materialized.Reads(ReadMany(state, keys))
  }

  /** The local read of one transaction: the cached base reads, changed by the slots up to
  the largest conflicting predecessor. A bound beyond the sequence is an error, met only if
  the scan gets that far. */
  method MaterializedLocalRead(maxPred: Option<nat>, keys: set<Key>, writeKeys: seq<set<Key>>, cache: Reads,
                               slots: seq<SlotState>)
    returns (r: Materialized)
    ensures !(keys <= cache.Keys) ==> r == Failing(InvalidBatch)
    ensures keys <= cache.Keys ==>
      var bound := if maxPred.Some? then maxPred.value + 1 else 0;
      var scan := ScanSlots(StateOf(Project(cache, keys)), keys, writeKeys, slots, if bound <= |slots| then bound else |slots|);
      r == if scan.At? && bound > |slots| then Failing(InvalidBatch) else ScanResult(scan, keys)
  {
    if !(keys <= cache.Keys) {
      return Failing(InvalidBatch);
    }
    var materialized := Project(cache, keys);
    ProjectReads(cache, keys);
    if maxPred.None? {
      return Materialized.Reads(materialized);
    }
    var start := StateOf(materialized);
    var state := start;
    ghost var end := if maxPred.value < |slots| then maxPred.value + 1 else |slots|;
    for i := 0 to maxPred.value + 1
      invariant i <= |slots| && ScanSlots(start, keys, writeKeys, slots, i) == At(state)
      invariant materialized == ReadMany(state, keys)
    {
      if i >= |slots| {
        return Failing(InvalidBatch);
      }
      if slots[i].Pending? {
        ScanStops(start, keys, writeKeys, slots, i + 1, end);
        return Blocked;
      }
      match slots[i] {
        case NoOp =>
        case Failed =>
          ScanStops(start, keys, writeKeys, slots, i + 1, end);
          return Failing(Error.SpeculationFailed);
        case Delta(delta) =>
          if i >= |writeKeys| {
            ScanStops(start, keys, writeKeys, slots, i + 1, end);
            return Failing(InvalidBatch);
          }
          if !(writeKeys[i] !! keys) {
            var next := ApplyDelta(state, FilterDelta(delta, keys));
            if next.Failure? {
              ScanStops(start, keys, writeKeys, slots, i + 1, end);
              return Failing(InvalidBatch);
            }
            state := next.value;
            materialized := ReadMany(state, keys);
          }
      }
    }
    return Materialized.Reads(materialized);
  }

  function Project(cache: Reads, keys: set<Key>): Reads
    requires keys <= cache.Keys
  {
    map k | k in keys :: cache[k]
  }

  lemma ProjectReads(cache: Reads, keys: set<Key>)
    requires keys <= cache.Keys
    ensures ReadMany(StateOf(Project(cache, keys)), keys) == Project(cache, keys)
  {
  }

  // ---------------------------------------------------------------- refinement

  /** Deltas stay inside the write keys recorded for their transactions. */
  predicate WritesRecorded(slots: seq<SlotState>, writeKeys: seq<set<Key>>) {
    |writeKeys| == |slots| && forall i | 0 <= i < |slots| && slots[i].Delta? :: slots[i].delta.Keys <= writeKeys[i]
  }

  predicate SameOn(a: Store, b: Store, keys: set<Key>) {
    forall k | k in keys :: Val(a, k) == Val(b, k)
  }

  /** One projected delta does to the read keys what the whole delta does to the store. */
  lemma ProjectedDelta(small: Store, whole: Store, keys: set<Key>, delta: TxDelta)
    requires SameOn(small, whole, keys) && ApplyDelta(whole, delta).Success?
    ensures ApplyDelta(small, FilterDelta(delta, keys)).Success?
    ensures SameOn(ApplyDelta(small, FilterDelta(delta, keys)).value, ApplyDelta(whole, delta).value, keys)
  {
    var part := FilterDelta(delta, keys);
    forall k | k in part ensures ChangeVal(Val(small, k), part[k]).Success? {
      assert k in delta && k in keys;
    }
    forall k | k in keys ensures Val(ApplyDelta(small, part).value, k) == Val(ApplyDelta(whole, delta).value, k) {
      ApplyDeltaVal(small, part, k);
      ApplyDeltaVal(whole, delta, k);
    }
  }

  lemma SkippedDelta(whole: Store, keys: set<Key>, delta: TxDelta)
    requires ApplyDelta(whole, delta).Success? && delta.Keys !! keys
    ensures SameOn(whole, ApplyDelta(whole, delta).value, keys)
  {
    forall k | k in keys ensures Val(whole, k) == Val(ApplyDelta(whole, delta).value, k) {
      ApplyDeltaVal(whole, delta, k);
    }
  }

  /** The materialized read refines the full replay: over a terminal prefix whose deltas all
  apply, the scan fails exactly if some slot of the prefix failed, and otherwise agrees on
  the read keys with the store after every delta of the prefix. */
  lemma {:induction false} ScanRefinesReplay(start: Store, whole: Store, keys: set<Key>, writeKeys: seq<set<Key>>,
                                             slots: seq<SlotState>, n: nat)
    requires n <= |slots| && WritesRecorded(slots, writeKeys) && SameOn(start, whole, keys)
    requires Replay(whole, slots, n).Success? && forall i | 0 <= i < n :: !slots[i].Pending?
    ensures var scan := ScanSlots(start, keys, writeKeys, slots, n);
      if exists i :: 0 <= i < n && slots[i].Failed? then scan == SawFailure
      else scan.At? && SameOn(scan.state, Replay(whole, slots, n).value, keys)
  {
    if n == 0 {
    } else {
      ReplayPrefix(whole, slots, n - 1, n);
      ScanRefinesReplay(start, whole, keys, writeKeys, slots, n - 1);
      var scan := ScanSlots(start, keys, writeKeys, slots, n - 1);
      if scan.At? && slots[n - 1].Delta? {
        var before, delta := Replay(whole, slots, n - 1).value, slots[n - 1].delta;
        if writeKeys[n - 1] !! keys {
          SkippedDelta(before, keys, delta);
        } else {
          ProjectedDelta(scan.state, before, keys, delta);
        }
      }
    }
  }
}
