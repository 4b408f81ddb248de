/** The batch plan of the semantic scheduler: two conflict graphs and the prefix bounds. */
module Plans {
  import opened Model
  import opened SemanticTables

  /** `nodes[i]` is the set of successors of transaction `i`. */
  datatype SemanticDag = SemanticDag(nodes: seq<set<nat>>)

  datatype SccTxPlan = SccTxPlan(
    predictedPath: PathId, effectMaxPred: Option<nat>, conditionMaxPred: Option<nat>)
  {
    predicate EffectPrefixCoversCondition() {
      match (effectMaxPred, conditionMaxPred)
      case (_, None) => true
      case (Some(effect), Some(condition)) => effect >= condition
      case (None, Some(_)) => false
    }
  }

  datatype SccBatchPlan = SccBatchPlan(effect: SemanticDag, condition: SemanticDag, txPlans: seq<SccTxPlan>)

  /** How many leading slots a worker with this bound looks at. */
  function PrefixLength(m: Option<nat>): nat {
    match m
    case None => 0
    case Some(p) => p + 1
  }

  lemma CoversMeans(p: SccTxPlan)
    ensures p.EffectPrefixCoversCondition() <==> PrefixLength(p.conditionMaxPred) <= PrefixLength(p.effectMaxPred)
  {
  }

  // ---------------------------------------------------------------- specification

  function Preds(ops: seq<FsOp>, j: nat): set<nat>
    requires j < |ops|
  {
    set i | 0 <= i < j && Conflict(ops[i], ops[j])
  }

  function SuccsBelow(ops: seq<FsOp>, i: nat, n: nat): set<nat>
    requires i < |ops| && n <= |ops|
  {
    set j | i < j < n && Conflict(ops[i], ops[j])
  }

  /** The largest conflicting predecessor of `j` among the first `n` transactions. */
  function MaxPred(ops: seq<FsOp>, j: nat, n: nat): (m: Option<nat>)
    requires j < |ops| && n <= |ops|
    ensures m.Some? ==> m.value < n && m.value in Preds(ops, j)
    ensures forall i | i in Preds(ops, j) && i < n :: m.Some? && i <= m.value
  {
    if n == 0 then None
    else if n - 1 < j && Conflict(ops[n - 1], ops[j]) then Some(n - 1)
    else MaxPred(ops, j, n - 1)
  }

  /** How many leading slots a transaction must see before it reads. */
  function Bound(ops: seq<FsOp>, j: nat): (b: nat)
    requires j < |ops|
    ensures b <= j
    ensures forall i | i in Preds(ops, j) :: i < b
    ensures forall i | b <= i < j :: !Conflict(ops[i], ops[j])
    ensures b == 0 || Conflict(ops[b - 1], ops[j])
  {
    assert forall i | 0 <= i < j && Conflict(ops[i], ops[j]) :: i in Preds(ops, j);
    match MaxPred(ops, j, j)
    case None => 0
    case Some(m) => m + 1
  }

  // ---------------------------------------------------------------- construction

  function UpdateMaxPred(slot: Option<nat>, pred: nat): Option<nat> {
    match slot
    case None => Some(pred)
    case Some(current) => Some(if current >= pred then current else pred)
  }

  function AddEdge(dag: SemanticDag, from: nat, to: nat): (r: Result<SemanticDag>)
    ensures r.Success? <==> from < to < |dag.nodes|
  {
    if from >= |dag.nodes| || to >= |dag.nodes| || from >= to then Failure(InvalidBatch)
    else Success(SemanticDag(dag.nodes[from := dag.nodes[from] + {to}]))
  }

  /** The graph and the bounds after all pairs before (i, j). */
  ghost predicate Partial(ops: seq<FsOp>, dag: SemanticDag, max: seq<Option<nat>>, i: nat, j: nat) {
    && |dag.nodes| == |ops| == |max| && i <= |ops| && j <= |ops|
    && (forall a | 0 <= a < |ops| ::
          dag.nodes[a] == if a < i then SuccsBelow(ops, a, |ops|) else if a == i then SuccsBelow(ops, a, j) else {})
    && (forall b | 0 <= b < |ops| :: max[b] == MaxPred(ops, b, if b < j && i < |ops| then i + 1 else i))
  }

  lemma PartialRow(ops: seq<FsOp>, dag: SemanticDag, max: seq<Option<nat>>, i: nat)
    requires i < |ops| && Partial(ops, dag, max, i, |ops|)
    ensures Partial(ops, dag, max, i + 1, if i + 1 < |ops| then i + 2 else |ops|) || i + 1 == |ops|
    ensures i + 1 == |ops| ==> Partial(ops, dag, max, |ops|, 0)
  {
    forall b | 0 <= b < |ops| ensures i + 1 < |ops| && b < i + 2 ==> max[b] == MaxPred(ops, b, i + 2) {
    }
  }

  /** What recording a pair adds to its row of the graph and to the later bound. */
  lemma PairStep(ops: seq<FsOp>, i: nat, j: nat)
    requires i < j < |ops|
    ensures SuccsBelow(ops, i, j + 1) == if Conflict(ops[i], ops[j]) then SuccsBelow(ops, i, j) + {j} else SuccsBelow(ops, i, j)
    ensures MaxPred(ops, j, i + 1) == if Conflict(ops[i], ops[j]) then UpdateMaxPred(MaxPred(ops, j, i), i) else MaxPred(ops, j, i)
  {
    hide Conflict;
  }

  /** Records one pair in one graph. */
  method RecordPair(ops: seq<FsOp>, table: SemanticTable, dag: SemanticDag, max: seq<Option<nat>>, i: nat, j: nat)
    returns (r: Result<(SemanticDag, seq<Option<nat>>)>)
    requires forall k :: table.HasConflict(k) <==> !Commuting(k)
    requires i < j < |ops| && Partial(ops, dag, max, i, j)
    ensures r.Success? && Partial(ops, r.value.0, r.value.1, i, j + 1)
  {
    var key := PairKey(ops[i], ops[j]);
    assert table.HasConflict(key) <==> Conflict(ops[i], ops[j]);
    PairStep(ops, i, j);
    hide Conflict, Commuting, SuccsBelow, MaxPred, PairKey;
    if table.HasConflict(key) {
      var added := AddEdge(dag, i, j);
      return Success((added.value, max[j := UpdateMaxPred(max[j], i)]));
    }
    return Success((dag, max));
  }

  predicate PathOf(op: FsOp, path: PathId) {
    match path
    case CreateSuccess => op.Create?
    case MkdirSuccess => op.Mkdir?
    case UnlinkSuccess => op.Unlink?
    case RmdirSuccess => op.Rmdir?
    case StatSuccess => op.Stat?
    case RenameSuccess => op.Rename?
  }

  /** The largest earlier transaction that is not independent, if there is one. */
  predicate IsLastPred(ops: seq<FsOp>, j: nat, m: Option<nat>)
    requires j < |ops|
  {
    match m
    case None => forall i | 0 <= i < j :: Independent(ops[i], ops[j])
    case Some(p) => p < j && !Independent(ops[p], ops[j]) && forall i | p < i < j :: Independent(ops[i], ops[j])
  }

  /** The planned bound is how many leading slots the transaction must see: one more than the
  last predecessor, or none. */
  lemma BoundIsPlanned(ops: seq<FsOp>, j: nat, m: Option<nat>)
    requires j < |ops| && IsLastPred(ops, j, m)
    ensures Bound(ops, j) == PrefixLength(m)
  {
    forall i | 0 <= i < |ops| ensures Conflict(ops[i], ops[j]) <==> !Independent(ops[i], ops[j]) {
      ConflictMeans(ops[i], ops[j]);
    }
    hide Conflict, Independent, MaxPred;
    assert m.Some? ==> m.value in Preds(ops, j);
  }

  lemma MaxPredIsLast(ops: seq<FsOp>, j: nat)
    requires j < |ops|
    ensures IsLastPred(ops, j, MaxPred(ops, j, j))
  {
    forall i | 0 <= i < |ops| ensures Conflict(ops[i], ops[j]) <==> !Independent(ops[i], ops[j]) {
      ConflictMeans(ops[i], ops[j]);
    }
    hide Conflict, Independent, MaxPred;
    var m := MaxPred(ops, j, j);
    forall i | 0 <= i < j && (m.None? || m.value < i) ensures Independent(ops[i], ops[j]) {
      assert i !in Preds(ops, j);
    }
  }

  lemma {:induction false} MaxPredStops(ops: seq<FsOp>, j: nat, n: nat)
    requires j < |ops| && j <= n <= |ops|
    ensures MaxPred(ops, j, n) == MaxPred(ops, j, j)
    decreases n
  {
    if n == j {
    } else {
      MaxPredStops(ops, j, n - 1);
    }
  }

  /** The edges are exactly the pairs in batch order that are not independent; the bound of a
  transaction is the largest such predecessor, which is also what its worker goes by; the two
  graphs coincide, so the effect prefix always covers the condition prefix and the condition
  phase is never entered. */
  ghost predicate PlanOk(ops: seq<FsOp>, plan: SccBatchPlan) {
    && |plan.effect.nodes| == |plan.condition.nodes| == |plan.txPlans| == |ops|
    && plan.effect == plan.condition
    && (forall i, j | 0 <= i < |ops| && 0 <= j < |ops| ::
          j in plan.effect.nodes[i] <==> i < j && !Independent(ops[i], ops[j]))
    && (forall j | 0 <= j < |ops| :: TxPlanOk(ops, j, plan.txPlans[j]))
  }

  ghost predicate TxPlanOk(ops: seq<FsOp>, j: nat, p: SccTxPlan)
    requires j < |ops|
  {
    && PathOf(ops[j], p.predictedPath)
    && p.effectMaxPred == p.conditionMaxPred && IsLastPred(ops, j, p.effectMaxPred)
    && Bound(ops, j) == PrefixLength(p.effectMaxPred)
    && p.EffectPrefixCoversCondition()
  }

  lemma TxPlanned(ops: seq<FsOp>, j: nat)
    requires j < |ops|
    ensures TxPlanOk(ops, j, SccTxPlan(PredictedPath(ops[j]), MaxPred(ops, j, |ops|), MaxPred(ops, j, |ops|)))
  {
    hide MaxPred, Bound, IsLastPred, Independent, Conflict;
    MaxPredStops(ops, j, |ops|);
    MaxPredIsLast(ops, j);
    BoundIsPlanned(ops, j, MaxPred(ops, j, j));
  }

  lemma Planned(ops: seq<FsOp>, dag: SemanticDag, max: seq<Option<nat>>, plan: SccBatchPlan)
    requires Partial(ops, dag, max, |ops|, 0) && |plan.txPlans| == |ops|
    requires plan.effect == plan.condition == dag
    requires forall j | 0 <= j < |ops| :: plan.txPlans[j] == SccTxPlan(PredictedPath(ops[j]), max[j], max[j])
    ensures PlanOk(ops, plan)
  {
    hide Conflict, Independent, MaxPred, PredictedPath, TxPlanOk;
    forall i, j | 0 <= i < |ops| && 0 <= j < |ops| ensures Conflict(ops[i], ops[j]) <==> !Independent(ops[i], ops[j]) {
      ConflictMeans(ops[i], ops[j]);
    }
    forall j | 0 <= j < |ops| ensures TxPlanOk(ops, j, plan.txPlans[j]) {
      TxPlanned(ops, j);
    }
  }

  /** Two graphs and two sets of bounds, filled pair by pair. */
  method BuildSccBatchPlan(ops: seq<FsOp>) returns (r: Result<SccBatchPlan>)
    ensures r.Success? && PlanOk(ops, r.value)
  {
    var effectTable, conditionTable := BuildSemanticTables();
    var len := |ops|;
    var effect := SemanticDag(seq(len, _ => {}));
    var condition := SemanticDag(seq(len, _ => {}));
    var effectMax: seq<Option<nat>> := seq(len, _ => None);
    var conditionMax: seq<Option<nat>> := seq(len, _ => None);
    for i := 0 to len
      invariant Partial(ops, effect, effectMax, i, if i < len then i + 1 else 0)
      invariant Partial(ops, condition, conditionMax, i, if i < len then i + 1 else 0)
    {
      for j := i + 1 to len
        invariant Partial(ops, effect, effectMax, i, j)
        invariant Partial(ops, condition, conditionMax, i, j)
      {
        var e := RecordPair(ops, effectTable, effect, effectMax, i, j);
        effect, effectMax := e.value.0, e.value.1;
        var c := RecordPair(ops, conditionTable, condition, conditionMax, i, j);
        condition, conditionMax := c.value.0, c.value.1;
      }
      PartialRow(ops, effect, effectMax, i);
      PartialRow(ops, condition, conditionMax, i);
    }
    var txPlans := seq(len, j requires 0 <= j < len =>
      SccTxPlan(PredictedPath(ops[j]), effectMax[j], conditionMax[j]));
    assert effect.nodes == condition.nodes && effectMax == conditionMax;
    hide PlanOk, Partial, Independent, Commuting;
    Planned(ops, effect, effectMax, SccBatchPlan(effect, condition, txPlans));
    return Success(SccBatchPlan(effect, condition, txPlans));
  }
}
