/** The semantic scheduler on file-system operations: the speculative prefix stores are the
serial executions of the successes, so what the protocol agrees on is serializable. */
module SccSerial {
  import opened Model
  import opened Executor
  import opened Deltas
  import opened Namespace
  import opened SemanticTables
  import opened Plans
  import opened Router
  import opened SccProtocol

  /** Executing and turning the output into a delta, as a worker does with its full reads. */
  function Attempt(op: FsOp, view: Reads): Verdict {
    var out := Execute(op, view);
    if out.result != Ok then Lost
    else match OutputToDelta(WriteSet(op), view, out)
      case Success(delta) => Won(delta)
      case Failure(_) => Broken
  }

  function TxnOf(ops: seq<FsOp>, i: nat): SccTxn
    requires i < |ops|
  {
    SccTxn(ReadSet(ops[i]), WriteSet(ops[i]), Preds(ops, i), Bound(ops, i), view => Attempt(ops[i], view))
  }

  function ConfigOf(layout: Layout, ops: seq<FsOp>, base: Store, absorbing: bool): Config {
    Config(layout, seq(|ops|, i requires 0 <= i < |ops| => TxnOf(ops, i)), base, absorbing)
  }

  lemma ConfigValid(layout: Layout, ops: seq<FsOp>, base: Store, absorbing: bool)
    requires ValidLayout(layout)
    ensures Valid(ConfigOf(layout, ops, base, absorbing))
  {
    var c := ConfigOf(layout, ops, base, absorbing);
    forall i | 0 <= i < |ops| ensures ValidTxn(c.txs[i], i) {
      ExecuteFootprint(ops[i], map[]);
      assert c.txs[i] == TxnOf(ops, i);
      assert (if ops[i].Rename? then ops[i].src else ops[i].path) in ReadSet(ops[i]);
      hide Execute;
    }
  }

  /** What the worker of a transaction goes by: the keys its operation derives, the earlier
  operations that are not independent of it on their paths, and the last of them as bound. */
  lemma WorkerPlan(layout: Layout, ops: seq<FsOp>, base: Store, absorbing: bool, i: nat, last: Option<nat>)
    requires i < |ops| && IsLastPred(ops, i, last)
    ensures var c := ConfigOf(layout, ops, base, absorbing);
      && |c.txs| == |ops| && c.txs[i].readSet == ReadSet(ops[i]) && c.txs[i].writeSet == WriteSet(ops[i])
      && c.txs[i].preds == (set u | 0 <= u < i && !Independent(ops[u], ops[i]))
      && c.txs[i].bound == Cut(c, i) == PrefixLength(last)
  {
    forall u | 0 <= u < i ensures Conflict(ops[u], ops[i]) <==> !Independent(ops[u], ops[i]) {
      ConflictMeans(ops[u], ops[i]);
    }
    BoundIsPlanned(ops, i, last);
    hide Conflict, Independent, IsLastPred, ReadSet, WriteSet, Attempt, Bound, PrefixLength;
    assert ConfigOf(layout, ops, base, absorbing).txs[i] == TxnOf(ops, i);
  }

  // ---------------------------------------------------------------- one operation

  /** Counters move by at most one, so a successful operation always has a delta. */
  lemma NoOverflow(store: Store, op: FsOp, k: Key)
    requires WellFormed(store) && Room(store, 1) && Outcome(store, op) == Ok && !SelfNesting(op)
    ensures !CountOverflow(Val(store, k), Val(Step(store, op), k))
  {
    if op.Rename? {
      MoveNoOverflow(store, op, k);
    } else {
      OtherNoOverflow(store, op, k);
    }
  }

  lemma MoveNoOverflow(store: Store, op: FsOp, k: Key)
    requires WellFormed(store) && Room(store, 1) && Outcome(store, op) == Ok && op.Rename? && !SelfNesting(op)
    ensures !CountOverflow(Val(store, k), Val(Step(store, op), k))
  {
    RenameEffect(store, op);
    NoWrap(store, op.dst.dir);
    MoveNear(store, op.src, op.dst, k);
    hide Step, Outcome, WellFormed, Val, CountOverflow;
  }

  lemma MoveNear(store: Store, src: Key, dst: Key, k: Key)
    requires src in store && dst !in store && src.Child? && dst.Child? && src != dst
    requires src.dir in store && dst.dir in store && store[dst.dir].childCount < U64_MAX && dst.dir != src
    ensures var moved := (store - {src})[dst := store[src]];
      !CountOverflow(Val(store, k), Val(moved, k)) &&
      !CountOverflow(Val(store, k), Val(moved[src.dir := Shrink(store[src.dir])][dst.dir := Grow(store[dst.dir])], k))
  {
  }

  lemma OnlyMkdirAtRoot(store: Store, op: FsOp)
    requires Outcome(store, op) == Ok && !op.Rename? && !op.Stat? && op.path.Root?
    ensures op.Mkdir?
  {
  }

  lemma OtherNoOverflow(store: Store, op: FsOp, k: Key)
    requires WellFormed(store) && Room(store, 1) && Outcome(store, op) == Ok && !op.Rename?
    ensures !CountOverflow(Val(store, k), Val(Step(store, op), k))
  {
    hide Step, Outcome, WellFormed;
    if op.Stat? {
      NotOkUnchanged(store, op);
    } else if op.path.Root? {
      OnlyMkdirAtRoot(store, op);
      RootEffect(store, op);
    } else if op.Unlink? || op.Rmdir? {
      DropEffect(store, op);
    } else {
      AddEffect(store, op);
      NoWrap(store, op.path.dir);
    }
  }

  lemma NoWrap(store: Store, dir: Key)
    requires WellFormed(store) && Room(store, 1) && dir in store && store[dir].kind == Directory
    ensures store[dir].childCount < U64_MAX
  {
    CountBound(store, dir);
    assert EntryOk(store, dir);
  }

  /** In a well-formed store a success always has a delta, and its delta is its effect. */
  lemma StepDelta(store: Store, op: FsOp)
    requires WellFormed(store) && Room(store, 1) && Outcome(store, op) == Ok && !SelfNesting(op)
    ensures DeltaOf(store, op).Success? && DeltaOf(store, op).value.Keys <= WriteSet(op)
    ensures ApplyDelta(store, DeltaOf(store, op).value) == Success(Step(store, op))
  {
    var view := ReadMany(store, ReadSet(op));
    ExecuteFootprint(op, view);
    forall k | k in WriteSet(op) ensures !CountOverflow(Val(store, k), Val(Step(store, op), k)) {
      NoOverflow(store, op, k);
    }
    hide Execute, ApplyDelta, OutputToDelta, ReadSet, WriteSet;
    DeltaRoundTrip(store, ReadSet(op), WriteSet(op), Execute(op, view));
  }

  // ---------------------------------------------------------------- the prefix stores

  /** What one transaction of the batch does to the prefix store: nothing when it is lost, and
  its serial step, with result Ok, when it succeeds. */
  ghost predicate TxOk(c: Config, ops: seq<FsOp>, i: nat)
    requires |c.txs| == |ops| && i < |ops|
  {
    match SpecVerdict(c, i)
    case Broken => false
    case Lost => SpecStore(c, i + 1) == SpecStore(c, i)
    case Won(delta) =>
      && Outcome(SpecStore(c, i), ops[i]) == Ok
      && delta.Keys <= WriteSet(ops[i])
      && ApplyDelta(SpecStore(c, i), delta) == Success(SpecStore(c, i + 1))
      && SpecStore(c, i + 1) == Step(SpecStore(c, i), ops[i])
  }

  ghost predicate PrefixOk(c: Config, base: Store, n: nat)
    requires n <= |c.txs|
  {
    WellFormed(SpecStore(c, n)) && |SpecStore(c, n)| <= |base| + n
  }

  ghost predicate Batch(layout: Layout, ops: seq<FsOp>, base: Store) {
    ValidLayout(layout) && WellFormed(base) && Room(base, |ops|) && NoSelfNesting(ops)
  }

  /** Going up the sequence past transactions that do not conflict, an operation keeps its
  result and its delta. */
  lemma {:induction false} Climb(c: Config, layout: Layout, ops: seq<FsOp>, base: Store, i: nat, j: nat)
    requires Batch(layout, ops, base) && i < |ops| == |c.txs| && Bound(ops, i) <= j <= i
    requires forall k | 0 <= k < i :: TxOk(c, ops, k) && PrefixOk(c, base, k)
    ensures Outcome(SpecStore(c, j), ops[i]) == Outcome(SpecStore(c, Bound(ops, i)), ops[i])
    ensures Outcome(SpecStore(c, j), ops[i]) == Ok ==>
              DeltaOf(SpecStore(c, j), ops[i]) == DeltaOf(SpecStore(c, Bound(ops, i)), ops[i])
  {
    hide *;
    if j == Bound(ops, i) {
    } else {
      Climb(c, layout, ops, base, i, j - 1);
      assert TxOk(c, ops, j - 1) && PrefixOk(c, base, j - 1);
      ClimbOne(c, layout, ops, base, i, j - 1);
    }
  }

  lemma ClimbOne(c: Config, layout: Layout, ops: seq<FsOp>, base: Store, i: nat, j: nat)
    requires Batch(layout, ops, base) && i < |ops| == |c.txs| && Bound(ops, i) <= j < i
    requires TxOk(c, ops, j) && PrefixOk(c, base, j)
    ensures Outcome(SpecStore(c, j + 1), ops[i]) == Outcome(SpecStore(c, j), ops[i])
    ensures Outcome(SpecStore(c, j), ops[i]) == Ok ==>
              DeltaOf(SpecStore(c, j + 1), ops[i]) == DeltaOf(SpecStore(c, j), ops[i])
  {
    assert !Conflict(ops[j], ops[i]);
    hide Outcome, Step, DeltaOf, SpecStore, WellFormed, Conflict, Bound, SpecVerdict;
    if SpecVerdict(c, j).Won? {
      SecondUnaffected(SpecStore(c, j), ops[j], ops[i]);
    }
  }

  lemma AttemptIs(store: Store, op: FsOp)
    ensures var v := Attempt(op, ReadMany(store, ReadSet(op)));
      if Outcome(store, op) != Ok then v == Lost
      else if DeltaOf(store, op).Success? then v == Won(DeltaOf(store, op).value) else v == Broken
  {
  }

  lemma VerdictIs(layout: Layout, ops: seq<FsOp>, base: Store, absorbing: bool, i: nat)
    requires i < |ops|
    ensures var c := ConfigOf(layout, ops, base, absorbing);
      var v := SpecVerdict(c, i);
      v == Lost || v == Attempt(ops[i], ReadMany(SpecStore(c, Bound(ops, i)), ReadSet(ops[i])))
  {
    hide Attempt;
  }

  lemma OneTx(layout: Layout, ops: seq<FsOp>, base: Store, absorbing: bool, i: nat)
    requires Batch(layout, ops, base) && i < |ops|
    requires |ConfigOf(layout, ops, base, absorbing).txs| == |ops|
    requires AllOk(ConfigOf(layout, ops, base, absorbing), ops, base, i)
    ensures var c := ConfigOf(layout, ops, base, absorbing);
      TxOk(c, ops, i) && PrefixOk(c, base, i + 1)
  {
    var c := ConfigOf(layout, ops, base, absorbing);
    assert |c.txs| == |ops| && Room(SpecStore(c, i), 1) && !SelfNesting(ops[i]);
    assert WellFormed(SpecStore(c, i));
    VerdictIs(layout, ops, base, absorbing, i);
    AttemptIs(SpecStore(c, Bound(ops, i)), ops[i]);
    Climb(c, layout, ops, base, i, i);
    StoreStep(c, i);
    hide ConfigOf, Attempt, Outcome, Step, DeltaOf, SpecStore, SpecVerdict, WellFormed, ApplyDelta, Bound;
    if Outcome(SpecStore(c, i), ops[i]) == Ok {
      StepDelta(SpecStore(c, i), ops[i]);
      StepKeepsNamespace(SpecStore(c, i), ops[i]);
      StepSize(SpecStore(c, i), ops[i]);
    }
  }

  ghost predicate AllOk(c: Config, ops: seq<FsOp>, base: Store, n: nat)
    requires n <= |c.txs| == |ops|
  {
    PrefixOk(c, base, n) && forall k | 0 <= k < n :: TxOk(c, ops, k) && PrefixOk(c, base, k)
  }

  lemma AllOkMore(c: Config, ops: seq<FsOp>, base: Store, n: nat)
    requires n < |c.txs| == |ops| && AllOk(c, ops, base, n) && TxOk(c, ops, n) && PrefixOk(c, base, n + 1)
    ensures AllOk(c, ops, base, n + 1)
  {
    hide TxOk, PrefixOk;
  }

  lemma AllOkNone(c: Config, layout: Layout, ops: seq<FsOp>)
    requires |c.txs| == |ops| && Batch(layout, ops, c.base)
    ensures AllOk(c, ops, c.base, 0)
  {
  }

  lemma {:induction false} AllTxs(layout: Layout, ops: seq<FsOp>, base: Store, absorbing: bool, n: nat)
    requires Batch(layout, ops, base) && n <= |ops|
    ensures |ConfigOf(layout, ops, base, absorbing).txs| == |ops|
    ensures AllOk(ConfigOf(layout, ops, base, absorbing), ops, base, n)
  {
    var c := ConfigOf(layout, ops, base, absorbing);
    assert c.base == base && |c.txs| == |ops|;
    hide *;
    if n == 0 {
      AllOkNone(c, layout, ops);
    } else {
      AllTxs(layout, ops, base, absorbing, n - 1);
      OneTx(layout, ops, base, absorbing, n - 1);
      AllOkMore(c, ops, base, n - 1);
    }
  }

  // ---------------------------------------------------------------- the theorem

  lemma TxAt(layout: Layout, ops: seq<FsOp>, base: Store, absorbing: bool, i: nat)
    requires Batch(layout, ops, base) && i < |ops|
    ensures |ConfigOf(layout, ops, base, absorbing).txs| == |ops|
    ensures TxOk(ConfigOf(layout, ops, base, absorbing), ops, i)
  {
    AllTxs(layout, ops, base, absorbing, i + 1);
  }

  /** Speculation is sound: no execution breaks, every delta applies to its prefix. */
  lemma ConfigSound(layout: Layout, ops: seq<FsOp>, base: Store, absorbing: bool)
    requires Batch(layout, ops, base)
    ensures Sound(ConfigOf(layout, ops, base, absorbing))
  {
    var c := ConfigOf(layout, ops, base, absorbing);
    forall i | 0 <= i < |ops|
      ensures match SpecVerdict(c, i)
        case Lost => true
        case Broken => false
        case Won(delta) => delta.Keys <= c.txs[i].writeSet && ApplyDelta(SpecStore(c, i), delta).Success?
    {
      TxAt(layout, ops, base, absorbing, i);
      assert c.txs[i].writeSet == WriteSet(ops[i]);
    }
  }

  /** The prefix store is the serial execution of the successes of the prefix. */
  lemma {:induction false} SpecIsSerial(layout: Layout, ops: seq<FsOp>, base: Store, absorbing: bool, n: nat)
    requires Batch(layout, ops, base) && n <= |ops|
    ensures |ConfigOf(layout, ops, base, absorbing).txs| == |ops|
    ensures var c := ConfigOf(layout, ops, base, absorbing);
      SpecStore(c, n) == Serial(base, Select(ops, LostSet(c), false, n))
  {
    SpecNone(layout, ops, base, absorbing);
    hide *;
    if n == 0 {
    } else {
      SpecIsSerial(layout, ops, base, absorbing, n - 1);
      SelectStep(base, ops, LostSet(ConfigOf(layout, ops, base, absorbing)), false, n - 1);
      SpecStep(layout, ops, base, absorbing, n - 1);
    }
  }

  lemma SpecNone(layout: Layout, ops: seq<FsOp>, base: Store, absorbing: bool)
    ensures var c := ConfigOf(layout, ops, base, absorbing);
      |c.txs| == |ops| && SpecStore(c, 0) == base && Serial(base, Select(ops, LostSet(c), false, 0)) == base
  {
  }

  lemma SpecStep(layout: Layout, ops: seq<FsOp>, base: Store, absorbing: bool, i: nat)
    requires Batch(layout, ops, base) && i < |ops| == |ConfigOf(layout, ops, base, absorbing).txs|
    ensures var c := ConfigOf(layout, ops, base, absorbing);
      SpecStore(c, i + 1) == if i in LostSet(c) then SpecStore(c, i) else Step(SpecStore(c, i), ops[i])
  {
    var c := ConfigOf(layout, ops, base, absorbing);
    TxAt(layout, ops, base, absorbing, i);
    assert i in LostSet(c) <==> SpecVerdict(c, i).Lost?;
    hide SpecVerdict, SpecStore, Step, Outcome, LostSet, ApplyDelta, ConfigOf, Batch;
  }

  /** The prefix a transaction reads reaches up to its last conflicting predecessor. */
  lemma BoundMeans(ops: seq<FsOp>, i: nat, k: nat)
    requires i < |ops|
    ensures k < Bound(ops, i) <==> exists m :: k <= m < i && Conflict(ops[m], ops[i])
  {
    if k < Bound(ops, i) {
      assert k <= Bound(ops, i) - 1 < i && Conflict(ops[Bound(ops, i) - 1], ops[i]);
    }
  }

  /** A lost transaction that shares a shard with `i` and that `i` must look past, because one
  at or after it conflicts with `i`. */
  predicate Inherits(layout: Layout, ops: seq<FsOp>, lost: set<nat>, i: nat)
    requires i < |ops|
  {
    exists k: nat, m: nat | k <= m < i ::
      k in lost && Conflict(ops[m], ops[i]) && Owners(layout, ReadSet(ops[k])) * Owners(layout, ReadSet(ops[i])) != {}
  }

  lemma VerdictCases(layout: Layout, ops: seq<FsOp>, base: Store, absorbing: bool, i: nat)
    requires i < |ops|
    ensures var c := ConfigOf(layout, ops, base, absorbing);
      && |c.txs| == |ops|
      && (i in LostSet(c) <==>
            (exists k | 0 <= k < Bound(ops, i) ::
               k in LostSet(c) && Owners(layout, ReadSet(ops[k])) * Owners(layout, ReadSet(ops[i])) != {})
            || Outcome(SpecStore(c, Bound(ops, i)), ops[i]) != Ok)
  {
    var c := ConfigOf(layout, ops, base, absorbing);
    assert |c.txs| == |ops|;
    hide ConfigOf, Attempt, Outcome, ReadSet, Owners, Bound, DeltaOf, SpecVerdict, SpecStore, Sources, Cut, LostSet;
    AttemptIs(SpecStore(c, Bound(ops, i)), ops[i]);
    VerdictDef(c, i);
    TxnIs(layout, ops, base, absorbing, i);
    forall k | 0 <= k < i ensures Sources(c, k) == Owners(layout, ReadSet(ops[k])) {
      TxnIs(layout, ops, base, absorbing, k);
    }
  }

  lemma TxnIs(layout: Layout, ops: seq<FsOp>, base: Store, absorbing: bool, i: nat)
    requires i < |ops|
    ensures var c := ConfigOf(layout, ops, base, absorbing);
      && |c.txs| == |ops| && c.txs[i].readSet == ReadSet(ops[i])
      && Cut(c, i) == Bound(ops, i) && Sources(c, i) == Owners(layout, ReadSet(ops[i]))
      && forall view :: c.txs[i].run(view) == Attempt(ops[i], view)
  {
    hide Attempt, ReadSet, Owners, Bound;
    assert ConfigOf(layout, ops, base, absorbing).txs[i] == TxnOf(ops, i);
  }

  lemma InheritsMeans(layout: Layout, ops: seq<FsOp>, lost: set<nat>, i: nat)
    requires i < |ops|
    ensures Inherits(layout, ops, lost, i) <==>
      exists k | 0 <= k < Bound(ops, i) :: k in lost && Owners(layout, ReadSet(ops[k])) * Owners(layout, ReadSet(ops[i])) != {}
  {
    hide Bound, Conflict, Owners, ReadSet;
    var mine := Owners(layout, ReadSet(ops[i]));
    if k: nat, m: nat :| k <= m < i && k in lost && Conflict(ops[m], ops[i]) && Owners(layout, ReadSet(ops[k])) * mine != {} {
      BoundMeans(ops, i, k);
    }
    if k: nat :| k < Bound(ops, i) && k in lost && Owners(layout, ReadSet(ops[k])) * mine != {} {
      BoundMeans(ops, i, k);
    }
  }

  /** Exactly which transactions fall back: those that fail when they are run after the earlier
  successes, and those that must look past a lost one on a common shard. */
  lemma LostMeans(layout: Layout, ops: seq<FsOp>, base: Store, absorbing: bool, i: nat)
    requires Batch(layout, ops, base) && i < |ops|
    ensures var lost := LostSet(ConfigOf(layout, ops, base, absorbing));
      i in lost <==> Outcome(Serial(base, Select(ops, lost, false, i)), ops[i]) != Ok || Inherits(layout, ops, lost, i)
  {
    var c := ConfigOf(layout, ops, base, absorbing);
    hide *;
    VerdictCases(layout, ops, base, absorbing, i);
    InheritsMeans(layout, ops, LostSet(c), i);
    SpecIsSerial(layout, ops, base, absorbing, i);
    forall k | 0 <= k < i ensures TxOk(c, ops, k) && PrefixOk(c, base, k) {
      TxPrefixAt(layout, ops, base, absorbing, k);
    }
    Climb(c, layout, ops, base, i, i);
  }

  lemma TxPrefixAt(layout: Layout, ops: seq<FsOp>, base: Store, absorbing: bool, k: nat)
    requires Batch(layout, ops, base) && k < |ops|
    ensures var c := ConfigOf(layout, ops, base, absorbing);
      |c.txs| == |ops| && TxOk(c, ops, k) && PrefixOk(c, base, k)
  {
    AllTxs(layout, ops, base, absorbing, k + 1);
    hide TxOk, PrefixOk;
  }

  /** Every speculative success is a success, with the same store before it, in the serial run. */
  lemma SuccessIsSerial(layout: Layout, ops: seq<FsOp>, base: Store, absorbing: bool, i: nat)
    requires Batch(layout, ops, base) && i < |ops|
    requires i !in LostSet(ConfigOf(layout, ops, base, absorbing))
    ensures var c := ConfigOf(layout, ops, base, absorbing);
      Outcome(Serial(base, Select(ops, LostSet(c), false, i)), ops[i]) == Ok
  {
    SpecIsSerial(layout, ops, base, absorbing, i);
    TxAt(layout, ops, base, absorbing, i);
  }
}
