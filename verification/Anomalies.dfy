/** What moving a directory directly below itself does to the semantic scheduler: runs that
end, without any error or failure, in another store than the serial order gives. */
module Anomalies {
  import opened Model
  import opened Executor
  import opened Deltas
  import opened Namespace
  import opened SemanticTables
  import opened Plans
  import opened Router
  import P = SccProtocol
  import S = SccSystem
  import R = SccRuns
  import Sight = SccSight
  import Spec = SccSerial

  // ---------------------------------------------------------------- moving a directory below itself

  const A: Key := Child(Root, "a")
  const B: Key := Child(A, "b")
  const X: Key := Child(Root, "x")
  const HISTORY: seq<FsOp> := [Mkdir(Root), Mkdir(A)]
  const NESTING: seq<FsOp> := [Rename(A, B), Rmdir(B)]
  const LATER: seq<FsOp> := [Create(X), Rmdir(A)]

  /** The well-formed store of the history, the store after the move, and the store that the
  removal leaves: a directory that its parent does not count. */
  const TIDY: Store := map[Root := DirectoryInode(1), A := DirectoryInode(0)]
  const MOVED: Store := map[Root := DirectoryInode(0), A := DirectoryInode(1), B := DirectoryInode(0)]
  const LEFT: Store := map[Root := DirectoryInode(0), A := DirectoryInode(0)]
  const GROWN: Store := map[Root := DirectoryInode(1), A := DirectoryInode(0), X := FileInode()]

  /** Where the semantic scheduler and the serial order end. */
  const SPECULATED: Store := map[Root := DirectoryInode(1), X := FileInode()]
  const PROMISED: Store := map[Root := DirectoryInode(0), X := FileInode()]

  lemma FirstSteps()
    ensures Step(map[], Mkdir(Root)) == map[Root := DirectoryInode(0)]
    ensures Step(map[Root := DirectoryInode(0)], Mkdir(A)) == TIDY
  {
    assert Outcome(map[], Mkdir(Root)) == Ok;
    RootEffect(map[], Mkdir(Root));
    var one: Store := map[Root := DirectoryInode(0)];
    assert Outcome(one, Mkdir(A)) == Ok;
    AddEffect(one, Mkdir(A));
  }

  lemma MoveStep()
    ensures Outcome(TIDY, Rename(A, B)) == Ok && Step(TIDY, Rename(A, B)) == MOVED
  {
    RenameEffect(TIDY, Rename(A, B));
  }

  lemma RemoveStep()
    ensures Outcome(MOVED, Rmdir(B)) == Ok && Step(MOVED, Rmdir(B)) == LEFT
  {
    assert Outcome(MOVED, Rmdir(B)) == Ok;
    DropEffect(MOVED, Rmdir(B));
  }

  lemma CreateStep()
    ensures Outcome(LEFT, Create(X)) == Ok && Step(LEFT, Create(X)) == GROWN
  {
    assert Outcome(LEFT, Create(X)) == Ok;
    AddEffect(LEFT, Create(X));
  }

  lemma LastStep()
    ensures Step(GROWN, Rmdir(A)) == PROMISED
  {
    assert Outcome(GROWN, Rmdir(A)) == Ok;
    DropEffect(GROWN, Rmdir(A));
  }

  lemma TwoOps(store: Store, a: FsOp, b: FsOp)
    ensures Serial(store, [a, b]) == Step(Step(store, a), b)
  {
    hide Step;
    assert [a, b][..1] == [a] && [a][..0] == [];
    assert Serial(store, [a]) == Step(Serial(store, []), a);
  }

  lemma Stores()
    ensures Serial(map[], HISTORY) == TIDY && Serial(TIDY, NESTING) == LEFT && Serial(LEFT, LATER) == PROMISED
  {
    hide Serial, Step, Outcome;
    FirstSteps();
    MoveStep();
    RemoveStep();
    CreateStep();
    LastStep();
    TwoOps(map[], Mkdir(Root), Mkdir(A));
    TwoOps(TIDY, Rename(A, B), Rmdir(B));
    TwoOps(LEFT, Create(X), Rmdir(A));
  }

  lemma Shapes()
    ensures WellFormed(TIDY) && !WellFormed(LEFT)
  {
    assert Children(TIDY, Root) == {A} && Children(TIDY, A) == {};
    assert A in Children(LEFT, Root) && !EntryOk(LEFT, Root);
  }

  // ---------------------------------------------------------------- what the shards agree on

  /** Transaction `i` succeeds on the prefix it reads and takes one store to the next. */
  ghost predicate WonAt(c: P.Config, deltas: seq<TxDelta>, stores: seq<Store>, i: nat)
    requires i < |c.txs| == |deltas| && |stores| == |deltas| + 1
  {
    && c.txs[i].run(ReadMany(stores[P.Cut(c, i)], c.txs[i].readSet)) == P.Won(deltas[i])
    && deltas[i].Keys <= c.txs[i].writeSet
    && ApplyDelta(stores[i], deltas[i]) == Success(stores[i + 1])
  }

  ghost predicate AllWon(c: P.Config, deltas: seq<TxDelta>, stores: seq<Store>) {
    && |c.txs| == |deltas| && |stores| == |deltas| + 1 && stores[0] == c.base
    && forall i: nat | i < |c.txs| :: WonAt(c, deltas, stores, i)
  }

  lemma {:induction false} WonSpec(c: P.Config, deltas: seq<TxDelta>, stores: seq<Store>, n: nat)
    requires AllWon(c, deltas, stores) && n <= |c.txs|
    ensures forall i | 0 <= i < n :: P.SpecVerdict(c, i) == P.Won(deltas[i])
    ensures forall i | 0 <= i <= n :: P.SpecStore(c, i) == stores[i]
  {
    if n == 0 {
      assert P.SpecStore(c, 0) == c.base;
    } else {
      WonSpec(c, deltas, stores, n - 1);
      assert WonAt(c, deltas, stores, n - 1);
      assert P.SpecVerdict(c, n - 1) == P.Won(deltas[n - 1]);
      assert P.SpecStore(c, n) == P.Patched(P.SpecStore(c, n - 1), deltas[n - 1]);
    }
  }

  lemma WonSound(c: P.Config, deltas: seq<TxDelta>, stores: seq<Store>)
    requires AllWon(c, deltas, stores)
    ensures P.Sound(c) && P.LostSet(c) == {}
  {
    WonSpec(c, deltas, stores, |c.txs|);
    hide P.SpecVerdict, P.SpecStore, ApplyDelta;
    forall i: nat | i < |c.txs|
      ensures P.SpecVerdict(c, i) == P.Won(deltas[i]) && deltas[i].Keys <= c.txs[i].writeSet
      ensures ApplyDelta(P.SpecStore(c, i), deltas[i]).Success?
    {
      assert WonAt(c, deltas, stores, i);
    }
  }

  /** If every transaction succeeds on its prefix, every run of the speculation that can go no
  further has failed nothing and merges into the last of the stores. */
  lemma WonRuns(c: P.Config, deltas: seq<TxDelta>, stores: seq<Store>, acts: seq<S.Action>)
    requires P.Valid(c) && AllWon(c, deltas, stores) && Sight.Maximal(c, acts)
    ensures R.Complete(c, S.Run(c, acts).value) && P.LostSet(c) == {}
    ensures Merge(S.Run(c, acts).value.stores) == stores[|c.txs|]
  {
    WonSpec(c, deltas, stores, |c.txs|);
    WonSound(c, deltas, stores);
    hide P.Sound, P.Valid, P.SpecStore, P.LostSet, S.Run, S.Inv, R.Complete, Sight.NoSight, AllWon, Merge;
    Sight.PlainlySafe(c);
    Sight.CompletesIff(c);
    S.RunInv(c, acts);
    R.CompleteIsSpecified(c, S.Run(c, acts).value);
  }

  /** The operation succeeds on a store, with a delta on its own keys. */
  ghost predicate Wins(op: FsOp, prefix: Store, delta: TxDelta) {
    Spec.Attempt(op, ReadMany(prefix, ReadSet(op))) == P.Won(delta) && delta.Keys <= WriteSet(op)
  }

  ghost predicate Takes(before: Store, delta: TxDelta, after: Store) {
    ApplyDelta(before, delta) == Success(after)
  }

  /** The delta of a success on the store it reads takes that store to the next. */
  lemma OwnDelta(store: Store, op: FsOp, after: Store) returns (delta: TxDelta)
    requires Outcome(store, op) == Ok && Step(store, op) == after && !op.Stat?
    requires forall k :: !CountOverflow(Val(store, k), Val(after, k))
    ensures Wins(op, store, delta) && Takes(store, delta, after)
  {
    var view := ReadMany(store, ReadSet(op));
    var out := Execute(op, view);
    ExecuteFootprint(op, view);
    hide Execute;
    DeltaRoundTrip(store, ReadSet(op), WriteSet(op), out);
    delta := OutputToDelta(WriteSet(op), view, out).value;
  }

  /** On the store that the nesting leaves, the saturated decrement is no change at all. */
  lemma SaturatedDelta()
    ensures Spec.Attempt(Rmdir(A), ReadMany(LEFT, ReadSet(Rmdir(A)))) == P.Won(map[A := Remove])
  {
    var view := ReadMany(LEFT, ReadSet(Rmdir(A)));
    var a, b := Put(Root, DirectoryInode(0)), Delete(A);
    var out := TxOutput(Ok, [a, b]);
    assert Execute(Rmdir(A), view) == out;
    LastValTwo(a, b, Root, view[Root]);
    LastValTwo(a, b, A, view[A]);
    hide Execute, LastVal;
    var got := OutputToDelta(WriteSet(Rmdir(A)), view, out);
    assert WriteSet(Rmdir(A)) == {Root, A} && WritesWithin(out.writes, {Root, A});
    assert KeyChange(view[Root], NewValue(view, out.writes, Root)) == Success(None);
    assert KeyChange(view[A], NewValue(view, out.writes, A)) == Success(Some(Remove));
    hide KeyChange, NewValue;
    assert got.Success? && got.value.Keys == {A};
    assert got.value == map[A := Remove];
  }

  lemma SaturatedApplied()
    ensures ApplyDelta(GROWN, map[A := Remove]) == Success(SPECULATED)
  {
    var delta: TxDelta := map[A := Remove];
    assert Applicable(GROWN, delta);
    var got := ApplyDelta(GROWN, delta).value;
    forall k ensures Val(got, k) == Val(SPECULATED, k) {
      ApplyDeltaVal(GROWN, delta, k);
    }
    StoreExt(got, SPECULATED);
  }

  lemma LastDelta() returns (delta: TxDelta)
    ensures Wins(Rmdir(A), LEFT, delta) && Takes(GROWN, delta, SPECULATED)
  {
    SaturatedDelta();
    SaturatedApplied();
    delta := map[A := Remove];
  }

  lemma MoveDelta() returns (delta: TxDelta)
    ensures Wins(Rename(A, B), TIDY, delta) && Takes(TIDY, delta, MOVED)
  {
    hide Step, Outcome;
    MoveStep();
    delta := OwnDelta(TIDY, Rename(A, B), MOVED);
  }

  lemma RemoveDelta() returns (delta: TxDelta)
    ensures Wins(Rmdir(B), MOVED, delta) && Takes(MOVED, delta, LEFT)
  {
    hide Step, Outcome;
    RemoveStep();
    delta := OwnDelta(MOVED, Rmdir(B), LEFT);
  }

  lemma SameReads()
    ensures ReadMany(MOVED, ReadSet(Create(X))) == ReadMany(LEFT, ReadSet(Create(X)))
  {
  }

  lemma CreateDelta() returns (delta: TxDelta)
    ensures Wins(Create(X), LEFT, delta) && Wins(Create(X), MOVED, delta) && Takes(LEFT, delta, GROWN)
  {
    SameReads();
    hide Step, Outcome, ReadMany;
    CreateStep();
    delta := OwnDelta(LEFT, Create(X), GROWN);
  }

  // ---------------------------------------------------------------- the two batches

  lemma LaterBounds()
    ensures Bound(LATER, 0) == 0 && Bound(LATER, 1) == 0
  {
    assert Preds(LATER, 1) == {};
  }

  lemma WholeBounds(ops: seq<FsOp>)
    requires ops == NESTING + LATER
    ensures Bound(ops, 0) == 0 && Bound(ops, 1) == 1 && Bound(ops, 2) == 1 && Bound(ops, 3) == 2
  {
    assert ops == [Rename(A, B), Rmdir(B), Create(X), Rmdir(A)];
    assert 0 in Preds(ops, 1);
    assert Preds(ops, 2) == {0};
    assert Preds(ops, 3) == {0, 1};
  }

  lemma WonHere(layout: Layout, ops: seq<FsOp>, base: Store, absorbing: bool,
                deltas: seq<TxDelta>, stores: seq<Store>, i: nat, b: nat)
    requires i < |ops| == |deltas| && |stores| == |deltas| + 1 && b == Bound(ops, i)
    requires Wins(ops[i], stores[b], deltas[i]) && Takes(stores[i], deltas[i], stores[i + 1])
    ensures var c := Spec.ConfigOf(layout, ops, base, absorbing);
      c.base == base && |c.txs| == |ops| && WonAt(c, deltas, stores, i)
  {
    hide Spec.Attempt, ReadMany, ReadSet, WriteSet, ApplyDelta, Bound;
    var c := Spec.ConfigOf(layout, ops, base, absorbing);
    assert |c.txs| == |ops| && c.txs[i] == Spec.TxnOf(ops, i);
  }

  lemma WholeWon(c: P.Config, layout: Layout, ops: seq<FsOp>, absorbing: bool)
    returns (deltas: seq<TxDelta>, stores: seq<Store>)
    requires ops == NESTING + LATER && c == Spec.ConfigOf(layout, ops, TIDY, absorbing)
    ensures |c.txs| == 4 && AllWon(c, deltas, stores) && stores[4] == SPECULATED
  {
    assert ops == [Rename(A, B), Rmdir(B), Create(X), Rmdir(A)];
    WholeBounds(ops);
    hide *;
    var d0 := MoveDelta();
    var d1 := RemoveDelta();
    var d2 := CreateDelta();
    var d3 := LastDelta();
    FourWon(layout, ops, absorbing, d0, d1, d2, d3, TIDY, MOVED, LEFT, GROWN, SPECULATED);
    deltas, stores := [d0, d1, d2, d3], [TIDY, MOVED, LEFT, GROWN, SPECULATED];
  }

  lemma FourWon(layout: Layout, ops: seq<FsOp>, absorbing: bool, d0: TxDelta, d1: TxDelta, d2: TxDelta, d3: TxDelta,
                s0: Store, s1: Store, s2: Store, s3: Store, s4: Store)
    requires |ops| == 4 && Bound(ops, 0) == 0 && Bound(ops, 1) == 1 && Bound(ops, 2) == 1 && Bound(ops, 3) == 2
    requires Wins(ops[0], s0, d0) && Wins(ops[1], s1, d1) && Wins(ops[2], s1, d2) && Wins(ops[3], s2, d3)
    requires Takes(s0, d0, s1) && Takes(s1, d1, s2) && Takes(s2, d2, s3) && Takes(s3, d3, s4)
    ensures |Spec.ConfigOf(layout, ops, s0, absorbing).txs| == 4
    ensures AllWon(Spec.ConfigOf(layout, ops, s0, absorbing), [d0, d1, d2, d3], [s0, s1, s2, s3, s4])
  {
    hide *;
    var deltas, stores := [d0, d1, d2, d3], [s0, s1, s2, s3, s4];
    WonHere(layout, ops, s0, absorbing, deltas, stores, 0, 0);
    WonHere(layout, ops, s0, absorbing, deltas, stores, 1, 1);
    WonHere(layout, ops, s0, absorbing, deltas, stores, 2, 1);
    WonHere(layout, ops, s0, absorbing, deltas, stores, 3, 2);
    AllWonIntro(Spec.ConfigOf(layout, ops, s0, absorbing), deltas, stores);
  }

  lemma AllWonIntro(c: P.Config, deltas: seq<TxDelta>, stores: seq<Store>)
    requires |c.txs| == |deltas| <= 4 && |stores| == |deltas| + 1 && stores[0] == c.base
    requires 0 < |deltas| ==> WonAt(c, deltas, stores, 0)
    requires 1 < |deltas| ==> WonAt(c, deltas, stores, 1)
    requires 2 < |deltas| ==> WonAt(c, deltas, stores, 2)
    requires 3 < |deltas| ==> WonAt(c, deltas, stores, 3)
    ensures AllWon(c, deltas, stores)
  {
    hide WonAt;
  }

  lemma LaterWon(c: P.Config, layout: Layout, ops: seq<FsOp>, absorbing: bool)
    returns (deltas: seq<TxDelta>, stores: seq<Store>)
    requires ops == LATER && c == Spec.ConfigOf(layout, ops, LEFT, absorbing)
    ensures |c.txs| == 2 && AllWon(c, deltas, stores) && stores[2] == SPECULATED
  {
    assert ops == [Create(X), Rmdir(A)];
    LaterBounds();
    hide *;
    var d0 := CreateDelta();
    var d1 := LastDelta();
    TwoWon(layout, ops, absorbing, d0, d1, LEFT, GROWN, SPECULATED);
    deltas, stores := [d0, d1], [LEFT, GROWN, SPECULATED];
  }

  lemma TwoWon(layout: Layout, ops: seq<FsOp>, absorbing: bool, d0: TxDelta, d1: TxDelta, s0: Store, s1: Store, s2: Store)
    requires |ops| == 2 && Bound(ops, 0) == 0 && Bound(ops, 1) == 0
    requires Wins(ops[0], s0, d0) && Wins(ops[1], s0, d1) && Takes(s0, d0, s1) && Takes(s1, d1, s2)
    ensures |Spec.ConfigOf(layout, ops, s0, absorbing).txs| == 2
    ensures AllWon(Spec.ConfigOf(layout, ops, s0, absorbing), [d0, d1], [s0, s1, s2])
  {
    hide *;
    var deltas, stores := [d0, d1], [s0, s1, s2];
    WonHere(layout, ops, s0, absorbing, deltas, stores, 0, 0);
    WonHere(layout, ops, s0, absorbing, deltas, stores, 1, 0);
    AllWonIntro(Spec.ConfigOf(layout, ops, s0, absorbing), deltas, stores);
  }

  // ---------------------------------------------------------------- the theorems

  /** A rename of an empty directory directly below itself, followed by the removal of what it
  made, leaves a parent that does not count its child. Then the semantic scheduler creates a
  file and removes that child, without any failure, yet every run ends with another count
  than the serial order: the decrement that must commute with the increment saturates. Here
  it happens within one batch from a well-formed store. */
  lemma SelfNestingBreaksSpeculation(layout: Layout, absorbing: bool, acts: seq<S.Action>)
    requires ValidLayout(layout)
    requires Sight.Maximal(Spec.ConfigOf(layout, NESTING + LATER, TIDY, absorbing), acts)
    ensures Serial(map[], HISTORY) == TIDY && WellFormed(TIDY)
    ensures var c := Spec.ConfigOf(layout, NESTING + LATER, TIDY, absorbing);
      && P.LostSet(c) == {} && R.Complete(c, S.Run(c, acts).value)
      && Merge(S.Run(c, acts).value.stores) == SPECULATED
    ensures Serial(TIDY, NESTING + LATER) == PROMISED
  {
    var ops := NESTING + LATER;
    var c := Spec.ConfigOf(layout, ops, TIDY, absorbing);
    Stores();
    Shapes();
    SerialAppend(TIDY, NESTING, LATER);
    var deltas, stores := WholeWon(c, layout, ops, absorbing);
    Spec.ConfigValid(layout, ops, TIDY, absorbing);
    hide *;
    WonRuns(c, deltas, stores, acts);
  }

  /** It also happens in a later batch that moves nothing: from the store an earlier batch
  left, the two operations alone are enough. */
  lemma SelfNestingBreaksLaterBatch(layout: Layout, absorbing: bool, acts: seq<S.Action>)
    requires ValidLayout(layout)
    requires Sight.Maximal(Spec.ConfigOf(layout, LATER, LEFT, absorbing), acts)
    ensures Serial(map[], HISTORY + NESTING) == LEFT && !WellFormed(LEFT)
    ensures var c := Spec.ConfigOf(layout, LATER, LEFT, absorbing);
      && P.LostSet(c) == {} && R.Complete(c, S.Run(c, acts).value)
      && Merge(S.Run(c, acts).value.stores) == SPECULATED
    ensures Serial(LEFT, LATER) == PROMISED
  {
    var c := Spec.ConfigOf(layout, LATER, LEFT, absorbing);
    Stores();
    Shapes();
    SerialAppend(map[], HISTORY, NESTING);
    var deltas, stores := LaterWon(c, layout, LATER, absorbing);
    Spec.ConfigValid(layout, LATER, LEFT, absorbing);
    hide *;
    WonRuns(c, deltas, stores, acts);
  }
}
