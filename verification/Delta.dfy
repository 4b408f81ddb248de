/** Mergeable deltas: the difference a successful transaction makes to each key it writes,
with the machine arithmetic of the child counter written out. */
module Deltas {
  import opened Model
  import opened Executor

  datatype Change = PutInode(value: Inode) | Remove | AddChildren(delta: i64)

  /** One change per written key. The source keeps a vector sorted by key with at most one
  operation for each key. */
  type TxDelta = map<Key, Change>

  // ---------------------------------------------------------------- building a delta

  /** `new as i128 - was as i128`, which must fit an i64. */
  function CountChange(was: u64, now: u64): Result<Option<Change>> {
    var diff: int := now - was;
    if diff == 0 then Success(None)
    else if I64_MIN <= diff <= I64_MAX then Success(Some(AddChildren(diff)))
    else Failure(InvalidBatch)
  }

  function KeyChange(was: ReadValue, now: ReadValue): Result<Option<Change>> {
    match (was, now)
    case (Missing, Missing) => Success(None)
    case (Missing, Present(v)) => Success(Some(PutInode(v)))
    case (Present(_), Missing) => Success(Some(Remove))
    case (Present(a), Present(b)) =>
      if a == b then Success(None)
      else if a.kind == Directory && b.kind == Directory then
        if b.(childCount := a.childCount) == a then CountChange(a.childCount, b.childCount)
        else Success(Some(PutInode(b)))
      else Success(Some(PutInode(b)))
  }

  function NewValue(view: Reads, writes: seq<WriteOp>, key: Key): ReadValue
    requires key in view
  {
    LastVal(writes, key, view[key])
  }

  function OutputToDelta(writeSet: set<Key>, view: Reads, out: TxOutput): Result<TxDelta> {
    if out.result != Ok || !(writeSet <= view.Keys) || !WritesWithin(out.writes, writeSet)
       || exists k | k in writeSet :: KeyChange(view[k], NewValue(view, out.writes, k)).Failure?
    then Failure(InvalidBatch)
    else Success(map k | k in writeSet && KeyChange(view[k], NewValue(view, out.writes, k)).value.Some?
                   :: KeyChange(view[k], NewValue(view, out.writes, k)).value.value)
  }

  /** No delta without an Ok result, a read for every written key and writes inside the set. */
  lemma OutputRefused(writeSet: set<Key>, view: Reads, out: TxOutput)
    ensures OutputToDelta(writeSet, view, out).Success? ==>
      out.result == Ok && (forall k | k in writeSet :: k in view) && forall w | w in out.writes :: w.key in writeSet
  {
  }

  // ---------------------------------------------------------------- applying a delta

  /** `checked_add` for a non-negative amount, `checked_sub` of the magnitude otherwise. */
  function AddSigned(value: u64, delta: i64): Option<u64> {
    if delta >= 0 then if value + delta <= U64_MAX then Some(value + delta) else None
    else
      var magnitude: int := -(delta as int);
      if value >= magnitude then Some(value - magnitude) else None
  }

  function ChangeVal(before: ReadValue, change: Change): Result<ReadValue> {
    match change
    case PutInode(v) => Success(Present(v))
    case Remove => Success(Missing)
    case AddChildren(delta) =>
      if before.Missing? || before.inode.kind != Directory then Failure(InvalidBatch)
      else match AddSigned(before.inode.childCount, delta)
        case None => Failure(InvalidBatch)
        case Some(n) => Success(Present(before.inode.(childCount := n)))
  }

  predicate Applicable(store: Store, delta: TxDelta) {
    forall k | k in delta :: ChangeVal(Val(store, k), delta[k]).Success?
  }

  function ValAfter(store: Store, delta: TxDelta, key: Key): ReadValue
    requires Applicable(store, delta)
  {
    if key in delta then ChangeVal(Val(store, key), delta[key]).value else Val(store, key)
  }

  function ApplyDelta(store: Store, delta: TxDelta): Result<Store> {
    if !Applicable(store, delta) then Failure(InvalidBatch)
    else Success(map k | k in store.Keys + delta.Keys && ValAfter(store, delta, k).Present?
                   :: ValAfter(store, delta, k).inode)
  }

  lemma ApplyDeltaVal(store: Store, delta: TxDelta, key: Key)
    requires ApplyDelta(store, delta).Success?
    ensures Val(ApplyDelta(store, delta).value, key) == ValAfter(store, delta, key)
  {
  }

  /** A delta applies exactly if every counter it moves belongs to a present directory and stays
  a 64-bit count; then the counters move by their amounts, and put and removed keys are as
  they were put or removed. */
  lemma ApplyDeltaMeans(store: Store, delta: TxDelta)
    ensures ApplyDelta(store, delta).Success? <==>
      forall k | k in delta && delta[k].AddChildren? ::
        k in store && store[k].kind == Directory && 0 <= store[k].childCount + delta[k].delta <= U64_MAX
    ensures ApplyDelta(store, delta).Success? ==>
      var after := ApplyDelta(store, delta).value;
      && (forall k | k !in delta :: (k in after <==> k in store) && (k in store ==> after[k] == store[k]))
      && (forall k | k in delta :: match delta[k]
            case PutInode(v) => k in after && after[k] == v
            case Remove => k !in after
            case AddChildren(n) => k in store && k in after && after[k] == Inode(Directory, store[k].childCount + n))
  {
    forall k | k in delta
      ensures ChangeVal(Val(store, k), delta[k]).Success? <==>
        (delta[k].AddChildren? ==>
           k in store && store[k].kind == Directory && 0 <= store[k].childCount + delta[k].delta <= U64_MAX)
    {
    }
    if ApplyDelta(store, delta).Success? {
      var after := ApplyDelta(store, delta).value;
      forall k ensures Val(after, k) == ValAfter(store, delta, k) {
        ApplyDeltaVal(store, delta, k);
      }
    }
  }

  function FilterDelta(delta: TxDelta, keys: set<Key>): TxDelta {
    map k | k in delta && k in keys :: delta[k]
  }

  /** Edits a store key by key, stopping at the first change that does not apply. */
  method ApplyDeltaToState(state: Store, delta: TxDelta) returns (r: Result<Store>)
    ensures r == ApplyDelta(state, delta)
  {
    var cur, left := state, delta.Keys;
    while left != {}
      invariant left <= delta.Keys
      invariant forall k | k in delta.Keys - left :: ChangeVal(Val(state, k), delta[k]).Success?
      invariant forall k :: Val(cur, k) == if k in delta.Keys - left
                              then ChangeVal(Val(state, k), delta[k]).value else Val(state, k)
      decreases left
    {
      var key :| key in left;
      assert Val(cur, key) == Val(state, key);
      match delta[key] {
        case PutInode(v) =>
          cur := cur[key := v];
        case Remove =>
          cur := cur - {key};
        case AddChildren(amount) =>
          if key !in cur || cur[key].kind != Directory {
            assert ChangeVal(Val(state, key), delta[key]).Failure?;
            return Failure(InvalidBatch);
          }
          var next := AddSigned(cur[key].childCount, amount);
          if next.None? {
            assert ChangeVal(Val(state, key), delta[key]).Failure?;
            return Failure(InvalidBatch);
          }
          cur := cur[key := cur[key].(childCount := next.value)];
      }
      left := left - {key};
    }
    assert delta.Keys - left == delta.Keys;
    assert Applicable(state, delta);
    var want := ApplyDelta(state, delta).value;
    forall k ensures Val(cur, k) == Val(want, k) {
      ApplyDeltaVal(state, delta, k);
    }
    StoreExt(cur, want);
    return Success(cur);
  }

  // ---------------------------------------------------------------- round trip

  /** A change computed from two values and applied to the first gives the second. */
  lemma KeyChangeRoundTrip(was: ReadValue, now: ReadValue)
    ensures KeyChange(was, now).Success? ==>
      match KeyChange(was, now).value
      case None => was == now
      case Some(ch) => ChangeVal(was, ch) == Success(now)
    ensures KeyChange(was, now).Failure? <==> CountOverflow(was, now)
  {
  }

  /** The one difference a delta cannot express. */
  predicate CountOverflow(was: ReadValue, now: ReadValue) {
    was.Present? && now.Present? && was.inode.kind == Directory && now.inode.kind == Directory &&
    !(I64_MIN <= now.inode.childCount - was.inode.childCount <= I64_MAX)
  }

  /** Turning an output into a delta fails exactly when some child count moves further than
  an i64 reaches; otherwise applying the delta to the store the output was computed from
  always works and equals applying the writes in order, repeated writes included. */
  lemma DeltaRoundTrip(store: Store, readSet: set<Key>, writeSet: set<Key>, out: TxOutput)
    requires writeSet <= readSet && out.result == Ok && WritesWithin(out.writes, writeSet)
    ensures var view := ReadMany(store, readSet);
      var after := ApplyWrites(store, out.writes);
      if (exists k | k in writeSet :: CountOverflow(Val(store, k), Val(after, k)))
      then OutputToDelta(writeSet, view, out).Failure?
      else
        && OutputToDelta(writeSet, view, out).Success?
        && OutputToDelta(writeSet, view, out).value.Keys <= writeSet
        && ApplyDelta(store, OutputToDelta(writeSet, view, out).value) == Success(after)
  {
    var view, after := ReadMany(store, readSet), ApplyWrites(store, out.writes);
    forall k | k in writeSet
      ensures NewValue(view, out.writes, k) == Val(after, k) && view[k] == Val(store, k)
      ensures KeyChange(view[k], NewValue(view, out.writes, k)).Failure? <==>
              CountOverflow(Val(store, k), Val(after, k))
    {
      ApplyWritesVal(store, out.writes, k);
      KeyChangeRoundTrip(Val(store, k), Val(after, k));
    }
    if OutputToDelta(writeSet, view, out).Success? {
      RoundTripStore(store, readSet, writeSet, out);
    }
  }

  lemma RoundTripStore(store: Store, readSet: set<Key>, writeSet: set<Key>, out: TxOutput)
    requires writeSet <= readSet && out.result == Ok && WritesWithin(out.writes, writeSet)
    requires OutputToDelta(writeSet, ReadMany(store, readSet), out).Success?
    ensures ApplyDelta(store, OutputToDelta(writeSet, ReadMany(store, readSet), out).value) ==
            Success(ApplyWrites(store, out.writes))
  {
    var view, after := ReadMany(store, readSet), ApplyWrites(store, out.writes);
    var delta := OutputToDelta(writeSet, view, out).value;
    forall k ensures if k in delta then ChangeVal(Val(store, k), delta[k]) == Success(Val(after, k))
                     else Val(store, k) == Val(after, k)
    {
      if k in writeSet {
        ApplyWritesVal(store, out.writes, k);
        KeyChangeRoundTrip(Val(store, k), Val(after, k));
      } else {
        ApplyWritesFrame(store, out.writes, writeSet, k);
      }
    }
    assert Applicable(store, delta);
    forall k ensures Val(ApplyDelta(store, delta).value, k) == Val(after, k) {
      ApplyDeltaVal(store, delta, k);
    }
    StoreExt(ApplyDelta(store, delta).value, after);
  }
}
