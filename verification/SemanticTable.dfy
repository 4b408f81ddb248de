/** The hand-written commutativity table of the semantic scheduler and its soundness. */
module SemanticTables {
  import opened Model
  import opened Executor
  import opened Deltas
  import opened Namespace

  datatype PathId = CreateSuccess | MkdirSuccess | UnlinkSuccess | RmdirSuccess | StatSuccess | RenameSuccess

  /** Bit patterns in the source; no pattern is ever combined with another. */
  datatype ConflictMask =
    | SameTarget
    | SameParentDifferentTarget
    | LhsTargetIsRhsParent
    | AncestorDescendant
    | RootInvolved
    | IndependentSubtree
    | RenameInvolved

  datatype SemanticKey = SemanticKey(path1: PathId, path2: PathId, conflictMask: ConflictMask)

  datatype SemanticTable = SemanticTable(entries: map<SemanticKey, bool>, defaultConflict: bool) {
    predicate HasConflict(key: SemanticKey) {
      if key in entries then entries[key] else defaultConflict
    }
  }

  function PredictedPath(op: FsOp): PathId {
    match op
    case Create(_) => CreateSuccess
    case Mkdir(_) => MkdirSuccess
    case Unlink(_) => UnlinkSuccess
    case Rmdir(_) => RmdirSuccess
    case Rename(_, _) => RenameSuccess
    case Stat(_) => StatSuccess
  }

  function PrimaryTarget(op: FsOp): Key {
    if op.Rename? then op.src else op.path
  }

  function ConflictMaskOf(lhs: FsOp, rhs: FsOp): ConflictMask {
    if lhs.Rename? || rhs.Rename? then RenameInvolved else
    var l, r := PrimaryTarget(lhs), PrimaryTarget(rhs);
    if l.Root? || r.Root? then RootInvolved
    else if l == r then SameTarget
    else if l == r.dir then LhsTargetIsRhsParent
    else if StrictAncestor(l, r) || StrictAncestor(r, l) then AncestorDescendant
    else if l.dir == r.dir then SameParentDifferentTarget
    else IndependentSubtree
  }

  /** The pairs the table declares free of conflict. */
  predicate Commuting(key: SemanticKey) {
    match key.conflictMask
    case SameParentDifferentTarget => !key.path1.RenameSuccess? && !key.path2.RenameSuccess?
    case IndependentSubtree => !key.path1.RenameSuccess? && !key.path2.RenameSuccess?
    case SameTarget => key.path1.StatSuccess? && key.path2.StatSuccess?
    case LhsTargetIsRhsParent => key.path1.StatSuccess? && key.path2.StatSuccess?
    case AncestorDescendant => key.path1.StatSuccess? && key.path2.StatSuccess?
    case _ => false
  }

  /** The key under which a pair of operations is looked up. */
  function PairKey(lhs: FsOp, rhs: FsOp): SemanticKey {
    SemanticKey(PredictedPath(lhs), PredictedPath(rhs), ConflictMaskOf(lhs, rhs))
  }

  predicate Conflict(lhs: FsOp, rhs: FsOp) {
    !Commuting(PairKey(lhs, rhs))
  }

  /** When two operations need no order, said about their paths: neither is a rename or at
  the root, and either both only look or neither path is the other or above it. */
  predicate Independent(a: FsOp, b: FsOp) {
    && !a.Rename? && !b.Rename? && a.path != Root && b.path != Root
    && ((a.Stat? && b.Stat?)
        || (a.path != b.path && !StrictAncestor(a.path, b.path) && !StrictAncestor(b.path, a.path)))
  }

  lemma ParentIsAncestor(k: Key)
    requires k.Child?
    ensures StrictAncestor(k.dir, k)
  {
  }

  /** The table and the mask together declare exactly the independent pairs free of conflict. */
  lemma ConflictMeans(a: FsOp, b: FsOp)
    ensures !Conflict(a, b) <==> Independent(a, b)
  {
    if !a.Rename? && !b.Rename? && a.path.Child? && b.path.Child? {
      ParentIsAncestor(a.path);
      ParentIsAncestor(b.path);
      if a.path.dir == b.path.dir && a.path != b.path {
        Siblings(a.path, b.path);
      }
    }
  }

  lemma Siblings(a: Key, b: Key)
    requires a.Child? && b.Child? && a.dir == b.dir
    ensures !StrictAncestor(a, b)
  {
    NotAbove(a, a.dir);
  }

  lemma {:induction false} NotAbove(a: Key, k: Key)
    requires a.Child? && (k == a.dir || StrictAncestor(k, a.dir))
    ensures a != k && !StrictAncestor(a, k)
  {
    AncestorDepth(k, a.dir);
    AncestorDepth(a, k);
  }

  // ---------------------------------------------------------------- building the tables

  function Insert(t: SemanticTable, lhs: PathId, rhs: PathId, mask: ConflictMask): SemanticTable {
    t.(entries := t.entries[SemanticKey(lhs, rhs, mask) := false])
  }

  const SUCCESSES: seq<PathId> := [CreateSuccess, MkdirSuccess, UnlinkSuccess, RmdirSuccess, StatSuccess]
  const STAT_MASKS: seq<ConflictMask> :=
    [SameTarget, SameParentDifferentTarget, LhsTargetIsRhsParent, AncestorDescendant]

  function PathRank(p: PathId): nat {
    match p
    case CreateSuccess => 0
    case MkdirSuccess => 1
    case UnlinkSuccess => 2
    case RmdirSuccess => 3
    case StatSuccess => 4
    case RenameSuccess => 5
  }

  function MaskRank(m: ConflictMask): nat {
    match m
    case SameTarget => 0
    case SameParentDifferentTarget => 1
    case LhsTargetIsRhsParent => 2
    case AncestorDescendant => 3
    case _ => 4
  }

  predicate PairsBefore(k: SemanticKey, n: nat, i: nat, j: nat) {
    PathRank(k.path2) < n && (PathRank(k.path1) < i || (PathRank(k.path1) == i && PathRank(k.path2) < j))
  }

  /** The keys inserted once the loops of a stage have reached `i` and `j`. */
  predicate Inserted(k: SemanticKey, stage: nat, i: nat, j: nat) {
    match stage
    case 0 => k.conflictMask.SameParentDifferentTarget? && PairsBefore(k, 4, i, j)
    case 1 =>
      || (k.conflictMask.SameParentDifferentTarget? && PairsBefore(k, 4, 4, 0))
      || (k.path1.StatSuccess? && k.path2.StatSuccess? && MaskRank(k.conflictMask) < i <= 4)
    case 2 =>
      || Inserted(k, 1, 4, 0)
      || (k.conflictMask.SameParentDifferentTarget? &&
          ((PathRank(k.path1) < i <= 4 && k.path2.StatSuccess?) || (k.path1.StatSuccess? && PathRank(k.path2) < i <= 4)))
    case _ => Inserted(k, 2, 4, 0) || (k.conflictMask.IndependentSubtree? && PairsBefore(k, 5, i, j))
  }

  ghost predicate Holds(t: SemanticTable, stage: nat, i: nat, j: nat) {
    && t.defaultConflict
    && forall k :: (k in t.entries <==> Inserted(k, stage, i, j)) && (k in t.entries ==> !t.entries[k])
  }

  method InsertMutations() returns (t: SemanticTable)
    ensures Holds(t, 0, 4, 0)
  {
    t := SemanticTable(map[], true);
    for i := 0 to 4
      invariant Holds(t, 0, i, 0)
    {
      for j := 0 to 4
        invariant Holds(t, 0, i, j)
      {
        t := Insert(t, SUCCESSES[i], SUCCESSES[j], SameParentDifferentTarget);
      }
    }
  }

  method InsertStats(before: SemanticTable) returns (t: SemanticTable)
    requires Holds(before, 0, 4, 0)
    ensures Holds(t, 2, 4, 0)
  {
    t := before;
    for i := 0 to 4
      invariant Holds(t, 1, i, 0)
    {
      t := Insert(t, StatSuccess, StatSuccess, STAT_MASKS[i]);
    }
    for i := 0 to 4
      invariant Holds(t, 2, i, 0)
    {
      t := Insert(t, SUCCESSES[i], StatSuccess, SameParentDifferentTarget);
      t := Insert(t, StatSuccess, SUCCESSES[i], SameParentDifferentTarget);
    }
  }

  method InsertIndependent(before: SemanticTable) returns (t: SemanticTable)
    requires Holds(before, 2, 4, 0)
    ensures Holds(t, 3, 5, 0)
  {
    t := before;
    for i := 0 to 5
      invariant Holds(t, 3, i, 0)
    {
      for j := 0 to 5
        invariant Holds(t, 3, i, j)
      {
        t := Insert(t, SUCCESSES[i], SUCCESSES[j], IndependentSubtree);
      }
    }
  }

  /** One table, filled by the insertion loops: exactly the commuting pairs are conflict-free
  and everything else falls to the default. */
  method BuildTable() returns (t: SemanticTable)
    ensures forall k :: t.HasConflict(k) <==> !Commuting(k)
  {
    t := InsertMutations();
    t := InsertStats(t);
    t := InsertIndependent(t);
    assert forall k :: Inserted(k, 3, 5, 0) <==> Commuting(k);
  }

  /** The effect and condition tables receive the same insertions. */
  method BuildSemanticTables() returns (effect: SemanticTable, condition: SemanticTable)
    ensures forall k :: effect.HasConflict(k) <==> !Commuting(k)
    ensures forall k :: condition.HasConflict(k) <==> !Commuting(k)
    ensures forall a: FsOp, b: FsOp :: !effect.HasConflict(PairKey(a, b)) <==> Independent(a, b)
    ensures forall a: FsOp, b: FsOp :: !condition.HasConflict(PairKey(a, b)) <==> Independent(a, b)
  {
    effect := BuildTable();
    condition := BuildTable();
    hide Commuting, Independent, ConflictMaskOf, PredictedPath;
    forall a: FsOp, b: FsOp ensures !Commuting(PairKey(a, b)) <==> !Independent(a, b) {
      ConflictMeans(a, b);
    }
  }

  // ---------------------------------------------------------------- key overlap

  /** Independent subtrees share no key; same-parent targets share at most the parent. */
  lemma CommutingKeys(a: FsOp, b: FsOp)
    requires !Conflict(a, b) && !(a.Stat? && b.Stat?)
    ensures !a.Rename? && !b.Rename? && a.path.Child? && b.path.Child? && a.path != b.path
    ensures a.path != b.path.dir && b.path != a.path.dir
    ensures ReadSet(a) * ReadSet(b) <= if a.path.dir == b.path.dir then {a.path.dir} else {}
    ensures ConflictMaskOf(a, b) == (if a.path.dir == b.path.dir then SameParentDifferentTarget else IndependentSubtree)
  {
    ParentIsAncestor(a.path);
    ParentIsAncestor(b.path);
  }

  // ---------------------------------------------------------------- deltas of successes

  function DeltaOf(store: Store, op: FsOp): Result<TxDelta> {
    var view := ReadMany(store, ReadSet(op));
    OutputToDelta(WriteSet(op), view, Execute(op, view))
  }

  /** The delta of a successful operation, which does not depend on the store. */
  function FixedDelta(op: FsOp): TxDelta
    requires !op.Rename?
  {
    match op
    case Stat(_) => map[]
    case Create(p) => if p.Root? then map[] else map[p.dir := AddChildren(1), p := PutInode(FileInode())]
    case Mkdir(p) =>
      if p.Root? then map[Root := PutInode(DirectoryInode(0))]
      else map[p.dir := AddChildren(1), p := PutInode(DirectoryInode(0))]
    case Unlink(p) => if p.Root? then map[] else map[p.dir := AddChildren(-1), p := Remove]
    case Rmdir(p) => if p.Root? then map[] else map[p.dir := AddChildren(-1), p := Remove]
  }

  lemma LastValTwo(a: WriteOp, b: WriteOp, k: Key, before: ReadValue)
    ensures LastVal([a, b], k, before) ==
            if b.key == k then b.Value() else if a.key == k then a.Value() else before
  {
    assert [a, b][..1] == [a] && [a][..0] == [];
    assert LastVal([a], k, before) == if a.key == k then a.Value() else before;
  }

  lemma AddDelta(store: Store, op: FsOp)
    requires WellFormed(store) && Room(store, 1) && (op.Create? || op.Mkdir?) && op.path.Child?
    requires Outcome(store, op) == Ok
    ensures DeltaOf(store, op) == Success(FixedDelta(op))
  {
    AddEffect(store, op);
    CountBound(store, op.path.dir);
    assert EntryOk(store, op.path.dir);
    var view := ReadMany(store, ReadSet(op));
    var a, b := Put(op.path.dir, Grow(store[op.path.dir])), Put(op.path, Added(op));
    assert Execute(op, view) == TxOutput(Ok, [a, b]);
    LastValTwo(a, b, op.path.dir, view[op.path.dir]);
    LastValTwo(a, b, op.path, view[op.path]);
    hide Execute, Outcome, Step, LastVal;
    TwoChanges(WriteSet(op), view, a, b);
  }

  /** The delta of a two-key operation, change by change. */
  lemma TwoChanges(writeSet: set<Key>, view: Reads, a: WriteOp, b: WriteOp)
    requires writeSet == {a.key, b.key} <= view.Keys && a.key != b.key
    requires KeyChange(view[a.key], a.Value()).Success? && KeyChange(view[b.key], b.Value()).Success?
    requires KeyChange(view[a.key], a.Value()).value.Some? && KeyChange(view[b.key], b.Value()).value.Some?
    ensures OutputToDelta(writeSet, view, TxOutput(Ok, [a, b])) ==
            Success(map[a.key := KeyChange(view[a.key], a.Value()).value.value,
                        b.key := KeyChange(view[b.key], b.Value()).value.value])
  {
    LastValTwo(a, b, a.key, view[a.key]);
    LastValTwo(a, b, b.key, view[b.key]);
    assert NewValue(view, [a, b], a.key) == a.Value();
    assert NewValue(view, [a, b], b.key) == b.Value();
    hide KeyChange, LastVal;
    assert WritesWithin([a, b], writeSet);
    var out := TxOutput(Ok, [a, b]);
    assert OutputToDelta(writeSet, view, out).Success?;
    var delta := OutputToDelta(writeSet, view, out).value;
    assert a.key in delta && delta[a.key] == KeyChange(view[a.key], a.Value()).value.value;
    assert b.key in delta && delta[b.key] == KeyChange(view[b.key], b.Value()).value.value;
    assert delta.Keys == {a.key, b.key};
    assert delta == map[a.key := KeyChange(view[a.key], a.Value()).value.value,
                        b.key := KeyChange(view[b.key], b.Value()).value.value];
  }

  lemma DropDelta(store: Store, op: FsOp)
    requires WellFormed(store) && (op.Unlink? || op.Rmdir?) && Outcome(store, op) == Ok
    ensures DeltaOf(store, op) == Success(FixedDelta(op))
  {
    DropEffect(store, op);
    Counted(store, op.path);
    var view := ReadMany(store, ReadSet(op));
    var a, b := Put(op.path.dir, Shrink(store[op.path.dir])), Delete(op.path);
    assert Execute(op, view) == TxOutput(Ok, [a, b]);
    hide Execute, Outcome, Step, LastVal;
    TwoChanges(WriteSet(op), view, a, b);
  }

  lemma RootDelta(store: Store, op: FsOp)
    requires op.Mkdir? && op.path.Root? && Outcome(store, op) == Ok
    ensures DeltaOf(store, op) == Success(FixedDelta(op))
  {
    RootEffect(store, op);
    var view := ReadMany(store, ReadSet(op));
    var out := Execute(op, view);
    var w := Put(Root, DirectoryInode(0));
    assert out == TxOutput(Ok, [w]) && [w][..0] == [];
    assert LastVal([w], Root, view[Root]) == w.Value();
    hide Execute, Outcome, Step, LastVal;
    assert WriteSet(op) == {Root} && WritesWithin([w], {Root});
    assert OutputToDelta({Root}, view, out).Success?;
    var delta := OutputToDelta({Root}, view, out).value;
    assert Root in delta && delta[Root] == PutInode(DirectoryInode(0));
    assert delta.Keys == {Root};
    assert delta == FixedDelta(op);
  }

  lemma SuccessDelta(store: Store, op: FsOp)
    requires WellFormed(store) && Room(store, 1) && !op.Rename? && Outcome(store, op) == Ok
    ensures DeltaOf(store, op) == Success(FixedDelta(op))
    ensures ApplyDelta(store, FixedDelta(op)) == Success(Step(store, op))
  {
    var view := ReadMany(store, ReadSet(op));
    ExecuteFootprint(op, view);
    if op.Stat? {
    } else if op.path.Root? {
      RootDelta(store, op);
    } else if op.Create? || op.Mkdir? {
      AddDelta(store, op);
    } else {
      DropDelta(store, op);
    }
    RoundTripStore(store, ReadSet(op), WriteSet(op), Execute(op, view));
  }

  // ---------------------------------------------------------------- soundness

  /** Two stores that look alike to an operation: equal on its keys, except that its parent
  directory may count its children differently. */
  ghost predicate LooksAlike(a: Store, b: Store, op: FsOp)
    requires !op.Rename?
  {
    forall k | k in ReadSet(op) ::
      Val(a, k) == Val(b, k)
      || (op.path.Child? && !op.Stat? && k == op.path.dir
          && k in a && k in b && a[k].kind == Directory && b[k].kind == Directory)
  }

  lemma SameOutcome(a: Store, b: Store, op: FsOp)
    requires !op.Rename? && LooksAlike(a, b, op)
    ensures Outcome(a, op) == Outcome(b, op)
  {
    var va, vb := ReadMany(a, ReadSet(op)), ReadMany(b, ReadSet(op));
    assert op.path in ReadSet(op) && (op.path.Child? && !op.Stat? ==> op.path.dir in ReadSet(op));
    assert va[op.path] == vb[op.path];
    assert op.path.Child? && !op.Stat? ==>
      va[op.path.dir] == vb[op.path.dir]
      || (va[op.path.dir].Present? && vb[op.path.dir].Present?
          && va[op.path.dir].inode.kind == Directory && vb[op.path.dir].inode.kind == Directory);
    hide LooksAlike, ReadMany, ReadSet, Val;
    SameResult(va, vb, op);
  }

  /** A result depends only on the target and on whether the parent is a directory. */
  lemma SameResult(va: Reads, vb: Reads, op: FsOp)
    requires !op.Rename? && op.path in va && op.path in vb && va[op.path] == vb[op.path]
    requires op.path.Child? && !op.Stat? ==> op.path.dir in va && op.path.dir in vb
    requires op.path.Child? && !op.Stat? ==>
      va[op.path.dir] == vb[op.path.dir]
      || (va[op.path.dir].Present? && vb[op.path.dir].Present?
          && va[op.path.dir].inode.kind == Directory && vb[op.path.dir].inode.kind == Directory)
    ensures Execute(op, va).result == Execute(op, vb).result
  {
  }

  lemma StepFrame(store: Store, op: FsOp, k: Key)
    requires k !in WriteSet(op)
    ensures Val(Step(store, op), k) == Val(store, k)
  {
    var view := ReadMany(store, ReadSet(op));
    ExecuteFootprint(op, view);
    ApplyWritesFrame(store, Execute(op, view).writes, WriteSet(op), k);
  }

  lemma ParentStays(store: Store, op: FsOp)
    requires !op.Rename? && !op.Stat? && op.path.Child? && Outcome(store, op) == Ok
    ensures op.path.dir in store && store[op.path.dir].kind == Directory
    ensures op.path.dir in Step(store, op) && Step(store, op)[op.path.dir].kind == Directory
  {
    if op.Create? || op.Mkdir? {
      AddEffect(store, op);
    } else {
      DropEffect(store, op);
    }
  }

  lemma AlikeAfter(store: Store, first: FsOp, second: FsOp)
    requires !Conflict(first, second) && Outcome(store, first) == Ok
    ensures !first.Rename? && !second.Rename?
    ensures LooksAlike(store, Step(store, first), second)
  {
    if first.Stat? {
      NotOkUnchanged(store, first);
    } else {
      CommutingKeys(first, second);
      ParentStays(store, first);
      hide Step, Outcome;
      forall k | k in ReadSet(second) && k !in WriteSet(first) ensures Val(Step(store, first), k) == Val(store, k) {
        StepFrame(store, first, k);
      }
    }
  }

  /** Soundness of the table, one direction of time: after a non-conflicting success the
  second operation answers as before and, if it succeeds, makes the same difference. */
  lemma SecondUnaffected(store: Store, first: FsOp, second: FsOp)
    requires WellFormed(store) && Room(store, 2)
    requires !Conflict(first, second) && Outcome(store, first) == Ok
    ensures Outcome(Step(store, first), second) == Outcome(store, second)
    ensures !second.Rename?
    ensures Outcome(store, second) == Ok ==>
      && DeltaOf(store, second) == DeltaOf(Step(store, first), second) == Success(FixedDelta(second))
  {
    AlikeAfter(store, first, second);
    SameOutcome(store, Step(store, first), second);
    StepKeepsNamespace(store, first);
    StepSize(store, first);
    if Outcome(store, second) == Ok {
      SuccessDelta(store, second);
      SuccessDelta(Step(store, first), second);
    }
  }

  /** Soundness of the table: whenever it declares an ordered pair free of conflict and the
  first operation succeeds in a well-formed store, the second has the same result whether
  or not the first has been applied; and if it succeeds, both make the same differences in
  either order, the deltas commute, and together they equal the serial execution. */
  lemma TableSound(store: Store, first: FsOp, second: FsOp)
    requires WellFormed(store) && Room(store, 2)
    requires !Conflict(first, second) && Outcome(store, first) == Ok
    ensures Outcome(Step(store, first), second) == Outcome(store, second)
    ensures Outcome(store, second) == Ok ==>
      && DeltaOf(store, first).Success? && DeltaOf(store, second).Success?
      && DeltaOf(Step(store, first), second) == DeltaOf(store, second)
      && DeltaOf(Step(store, second), first) == DeltaOf(store, first)
      && var d1, d2 := DeltaOf(store, first).value, DeltaOf(store, second).value;
         && ApplyDelta(store, d1) == Success(Step(store, first))
         && ApplyDelta(store, d2) == Success(Step(store, second))
         && ApplyDelta(Step(store, first), d2) == Success(Step(Step(store, first), second))
         && ApplyDelta(Step(store, second), d1) == Success(Step(Step(store, first), second))
  {
    SecondUnaffected(store, first, second);
    if Outcome(store, second) == Ok {
      ConflictSymmetric(first, second);
      SecondUnaffected(store, second, first);
      BothDeltas(store, first, second);
    }
  }

  /** Only mask LhsTargetIsRhsParent depends on the order, and it never matters. */
  lemma ConflictSymmetric(a: FsOp, b: FsOp)
    ensures Conflict(a, b) <==> Conflict(b, a)
  {
    if !a.Rename? && !b.Rename? && a.path.Child? && b.path.Child? {
      ParentIsAncestor(a.path);
      ParentIsAncestor(b.path);
    }
  }

  lemma OtherStep(store: Store, op: FsOp)
    requires WellFormed(store) && Room(store, 2) && !op.Rename?
    ensures WellFormed(Step(store, op)) && Room(Step(store, op), 1) && Room(store, 1)
  {
    StepKeepsNamespace(store, op);
    StepSize(store, op);
  }

  lemma SharedCounters(a: FsOp, b: FsOp)
    requires !Conflict(a, b)
    ensures !a.Rename? && !b.Rename?
    ensures forall k | k in FixedDelta(a) && k in FixedDelta(b) ::
              FixedDelta(a)[k].AddChildren? && FixedDelta(b)[k].AddChildren?
  {
    if !(a.Stat? && b.Stat?) {
      CommutingKeys(a, b);
    }
  }

  lemma BothDeltas(store: Store, first: FsOp, second: FsOp)
    requires WellFormed(store) && Room(store, 2)
    requires !Conflict(first, second) && Outcome(store, first) == Ok && Outcome(store, second) == Ok
    requires Outcome(Step(store, first), second) == Ok && Outcome(Step(store, second), first) == Ok
    ensures !first.Rename? && !second.Rename?
    ensures DeltaOf(store, first) == Success(FixedDelta(first)) == DeltaOf(Step(store, second), first)
    ensures ApplyDelta(store, FixedDelta(first)) == Success(Step(store, first))
    ensures ApplyDelta(store, FixedDelta(second)) == Success(Step(store, second))
    ensures ApplyDelta(Step(store, first), FixedDelta(second)) == Success(Step(Step(store, first), second))
    ensures ApplyDelta(Step(store, second), FixedDelta(first)) == Success(Step(Step(store, first), second))
  {
    hide *;
    SharedCounters(first, second);
    OtherStep(store, first);
    OtherStep(store, second);
    SuccessDelta(store, first);
    SuccessDelta(store, second);
    SuccessDelta(Step(store, first), second);
    SuccessDelta(Step(store, second), first);
    DeltasCommute(store, FixedDelta(first), FixedDelta(second));
  }

  /** Deltas commute when every key they share only has its counter moved by both. */
  lemma DeltasCommute(store: Store, a: TxDelta, b: TxDelta)
    requires ApplyDelta(store, a).Success? && ApplyDelta(store, b).Success?
    requires ApplyDelta(ApplyDelta(store, a).value, b).Success?
    requires ApplyDelta(ApplyDelta(store, b).value, a).Success?
    requires forall k | k in a && k in b :: a[k].AddChildren? && b[k].AddChildren?
    ensures ApplyDelta(ApplyDelta(store, a).value, b) == ApplyDelta(ApplyDelta(store, b).value, a)
  {
    var ab := ApplyDelta(ApplyDelta(store, a).value, b).value;
    var ba := ApplyDelta(ApplyDelta(store, b).value, a).value;
    forall k ensures Val(ab, k) == Val(ba, k) {
      ApplyDeltaVal(store, a, k);
      ApplyDeltaVal(store, b, k);
      ApplyDeltaVal(ApplyDelta(store, a).value, b, k);
      ApplyDeltaVal(ApplyDelta(store, b).value, a, k);
    }
    StoreExt(ab, ba);
  }
}
