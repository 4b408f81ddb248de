/** The conflict graph at run time: which transactions are ready, and who is told. */
module DagRuntimes {
  import opened Model
  import opened Plans
  import opened SemanticTables

  /** `waiting` holds while the one-shot sender of the vertex has not been used. */
  datatype DagRuntimeNode = DagRuntimeNode(indegree: nat, successors: set<nat>, waiting: bool, finished: bool)

  predicate InRange(dag: SemanticDag) {
    forall u, v | 0 <= u < |dag.nodes| && v in dag.nodes[u] :: v < |dag.nodes|
  }

  function Predecessors(nodes: seq<DagRuntimeNode>, v: nat): set<nat> {
    set u | 0 <= u < |nodes| && v in nodes[u].successors
  }

  function Pending(nodes: seq<DagRuntimeNode>, v: nat): set<nat> {
    set u | 0 <= u < |nodes| && v in nodes[u].successors && !nodes[u].finished
  }

  /** Ready: every predecessor has finished and somebody had a reason to look, namely the
  start, which has reached the vertices below `begun`, or the last of its predecessors. */
  predicate Ready(nodes: seq<DagRuntimeNode>, v: nat, begun: nat) {
    v < |nodes| && Pending(nodes, v) == {} && (v < begun || Predecessors(nodes, v) != {})
  }

  /** The bookkeeping of one vertex while the successors in `left` have not yet been told of
  a finish: the indegree counts the unfinished predecessors and a signal was sent exactly if
  the vertex is ready. */
  ghost predicate VertexOk(nodes: seq<DagRuntimeNode>, signals: seq<nat>, begun: nat, left: set<nat>, v: nat) {
    && (v in signals <==> v !in left && Ready(nodes, v, begun))
    && (v < |nodes| ==>
          && nodes[v].indegree == |Pending(nodes, v)| + (if v in left then 1 else 0)
          && (v in signals <==> !nodes[v].waiting))
  }

  ghost predicate Consistent(nodes: seq<DagRuntimeNode>, signals: seq<nat>, begun: nat, left: set<nat>) {
    && (forall u, v | 0 <= u < |nodes| && v in nodes[u].successors :: v < |nodes|)
    && (forall v: nat :: VertexOk(nodes, signals, begun, left, v))
    && Distinct(signals)
  }

  predicate SameShape(a: seq<DagRuntimeNode>, b: seq<DagRuntimeNode>) {
    |a| == |b| && forall v | 0 <= v < |a| :: a[v].successors == b[v].successors
  }

  predicate SameProgress(a: seq<DagRuntimeNode>, b: seq<DagRuntimeNode>) {
    SameShape(a, b) && forall v | 0 <= v < |a| :: a[v].finished == b[v].finished
  }

  lemma ProgressDecides(a: seq<DagRuntimeNode>, b: seq<DagRuntimeNode>, v: nat)
    requires SameProgress(a, b)
    ensures Pending(a, v) == Pending(b, v) && Predecessors(a, v) == Predecessors(b, v)
  {
  }

  class DagRuntime {
    var nodes: seq<DagRuntimeNode>
    /** The signals sent so far, in order. */
    var signals: seq<nat>
    ghost var begun: nat

    /** The indegree of a vertex is its number of unfinished predecessors, and a vertex has
    been signalled, once, exactly if it is ready. */
    ghost predicate Valid()
      reads this
    {
      begun <= |nodes| && Consistent(nodes, signals, begun, {})
    }

    constructor (dag: SemanticDag)
      requires InRange(dag)
      ensures Valid() && signals == [] && begun == 0
      ensures |nodes| == |dag.nodes|
      ensures forall v | 0 <= v < |nodes| :: nodes[v].successors == dag.nodes[v] && !nodes[v].finished
    {
      var indegrees := CountPredecessors(dag);
      nodes := seq(|dag.nodes|, v requires 0 <= v < |dag.nodes| =>
        DagRuntimeNode(indegrees[v], dag.nodes[v], true, false));
      signals := [];
      begun := 0;
      new;
      forall v: nat ensures VertexOk(nodes, [], 0, {}, v) {
        assert Predecessors(nodes, v) == Pending(nodes, v);
        if v < |nodes| {
          assert Pending(nodes, v) == EdgesInto(dag, v, |dag.nodes|);
        }
      }
    }

    method NotifyReady(v: nat)
      requires v < |nodes|
      modifies this
      ensures nodes == old(nodes)[v := old(nodes)[v].(waiting := false)] && begun == old(begun)
      ensures signals == if old(nodes)[v].waiting then old(signals) + [v] else old(signals)
    {
      if nodes[v].waiting {
        nodes := nodes[v := nodes[v].(waiting := false)];
        signals := signals + [v];
      }
    }

    /** Signals every vertex without unfinished predecessors that was not signalled before. */
    method Start()
      requires Valid()
      modifies this
      ensures Valid() && begun == |nodes| && SameProgress(old(nodes), nodes)
      ensures old(signals) <= signals
    {
      hide Consistent;
      for v := 0 to |nodes|
        invariant SameProgress(old(nodes), nodes) && begun <= |nodes| && old(signals) <= signals && begun == old(begun)
        invariant Consistent(nodes, signals, if v < begun then begun else v, {})
      {
        ghost var nodes0, signals0 := nodes, signals;
        if nodes[v].indegree == 0 {
          NotifyReady(v);
        }
        Begun(nodes0, signals0, nodes, signals, begun, v);
      }
      begun := |nodes|;
    }

    /** Fails exactly for an unknown vertex or one that has finished; the underflow error is
    unreachable. */
    method FinishVertex(i: nat) returns (r: Result<()>)
      requires Valid()
      modifies this
      ensures Valid() && begun == old(begun) && old(signals) <= signals
      ensures r.Success? <==> i < |old(nodes)| && !old(nodes)[i].finished
      ensures r.Failure? ==> nodes == old(nodes) && signals == old(signals)
      ensures r.Success? ==> SameShape(old(nodes), nodes)
      ensures r.Success? ==> forall v | 0 <= v < |nodes| :: nodes[v].finished == (old(nodes)[v].finished || v == i)
    {
      hide Consistent;
      if i >= |nodes| || nodes[i].finished {
        return Failure(InvalidBatch);
      }
      nodes := nodes[i := nodes[i].(finished := true)];
      var left := nodes[i].successors;
      FinishedOne(old(nodes), nodes, signals, begun, i);
      ghost var target := nodes;
      while left != {}
        invariant SameProgress(target, nodes) && left <= target[i].successors
        invariant begun == old(begun) && old(signals) <= signals
        invariant Consistent(nodes, signals, begun, left)
        decreases left
      {
        var s: nat :| s in left;
        Counted(nodes, signals, begun, left, s);
        if nodes[s].indegree == 0 {
          assert false;
        }
        ghost var nodes0, signals0 := nodes, signals;
        nodes := nodes[s := nodes[s].(indegree := nodes[s].indegree - 1)];
        if nodes[s].indegree == 0 {
          NotifyReady(s);
        }
        Told(nodes0, signals0, nodes, signals, begun, left, s, i);
        left := left - {s};
      }
      return Success(());
    }
  }

  lemma SameSets(a: seq<DagRuntimeNode>, b: seq<DagRuntimeNode>)
    requires SameProgress(a, b)
    ensures forall v: nat :: Pending(a, v) == Pending(b, v) && Predecessors(a, v) == Predecessors(b, v)
  {
    forall v: nat ensures Pending(a, v) == Pending(b, v) && Predecessors(a, v) == Predecessors(b, v) {
      ProgressDecides(a, b, v);
    }
  }

  lemma Counted(nodes: seq<DagRuntimeNode>, signals: seq<nat>, begun: nat, left: set<nat>, s: nat)
    requires Consistent(nodes, signals, begun, left) && s in left
    requires exists u :: 0 <= u < |nodes| && s in nodes[u].successors
    ensures s < |nodes| && nodes[s].indegree > 0
  {
    assert VertexOk(nodes, signals, begun, left, s);
  }

  /** The start has reached vertex `v`. */
  lemma Begun(was: seq<DagRuntimeNode>, told: seq<nat>, now: seq<DagRuntimeNode>, signals: seq<nat>, begun: nat, v: nat)
    requires var from := if v < begun then begun else v; Consistent(was, told, from, {})
    requires v < |was|
    requires if was[v].indegree == 0 && was[v].waiting
             then now == was[v := was[v].(waiting := false)] && signals == told + [v]
             else now == was && signals == told
    ensures Consistent(now, signals, if v + 1 < begun then begun else v + 1, {})
  {
    var from, to := if v < begun then begun else v, if v + 1 < begun then begun else v + 1;
    SameSets(was, now);
    assert VertexOk(was, told, from, {}, v);
    hide Pending, Predecessors;
    forall u: nat ensures VertexOk(now, signals, to, {}, u) {
      assert VertexOk(was, told, from, {}, u);
    }
  }

  /** One successor has been told that a predecessor finished. */
  lemma Told(was: seq<DagRuntimeNode>, told: seq<nat>, now: seq<DagRuntimeNode>, signals: seq<nat>,
             begun: nat, left: set<nat>, s: nat, i: nat)
    requires Consistent(was, told, begun, left) && s in left
    requires i < |was| && s in was[i].successors && s < |was| && was[s].indegree > 0
    requires var ready := was[s].indegree == 1 && was[s].waiting;
      && signals == (if ready then told + [s] else told)
      && now == was[s := was[s].(indegree := was[s].indegree - 1, waiting := was[s].waiting && !ready)]
    ensures Consistent(now, signals, begun, left - {s})
  {
    SameSets(was, now);
    assert i in Predecessors(now, s);
    assert VertexOk(was, told, begun, left, s);
    hide Pending, Predecessors;
    forall u: nat ensures VertexOk(now, signals, begun, left - {s}, u) {
      assert VertexOk(was, told, begun, left, u);
    }
  }

  /** Marking a vertex finished takes it out of its successors' pending sets. */
  lemma FinishedOne(was: seq<DagRuntimeNode>, now: seq<DagRuntimeNode>, signals: seq<nat>, begun: nat, i: nat)
    requires Consistent(was, signals, begun, {}) && i < |was| && !was[i].finished
    requires now == was[i := was[i].(finished := true)]
    ensures Consistent(now, signals, begun, now[i].successors)
  {
    forall v: nat ensures VertexOk(now, signals, begun, now[i].successors, v) {
      assert VertexOk(was, signals, begun, {}, v);
      FinishedPending(was, now, i, v);
    }
  }

  lemma FinishedPending(was: seq<DagRuntimeNode>, now: seq<DagRuntimeNode>, i: nat, v: nat)
    requires i < |was| && !was[i].finished && now == was[i := was[i].(finished := true)]
    ensures Pending(now, v) == Pending(was, v) - {i} && Predecessors(now, v) == Predecessors(was, v)
    ensures v in now[i].successors <==> i in Pending(was, v)
  {
  }

  // ---------------------------------------------------------------- indegrees

  function EdgesInto(dag: SemanticDag, v: nat, n: nat): set<nat>
    requires n <= |dag.nodes|
  {
    set u | 0 <= u < n && v in dag.nodes[u]
  }

  method CountPredecessors(dag: SemanticDag) returns (indegrees: seq<nat>)
    requires InRange(dag)
    ensures |indegrees| == |dag.nodes|
    ensures forall v | 0 <= v < |dag.nodes| :: indegrees[v] == |EdgesInto(dag, v, |dag.nodes|)|
  {
    indegrees := seq(|dag.nodes|, _ => 0);
    for u := 0 to |dag.nodes|
      invariant |indegrees| == |dag.nodes|
      invariant forall v | 0 <= v < |dag.nodes| :: indegrees[v] == |EdgesInto(dag, v, u)|
    {
      var left := dag.nodes[u];
      while left != {}
        invariant left <= dag.nodes[u] && |indegrees| == |dag.nodes|
        invariant forall v | 0 <= v < |dag.nodes| ::
          indegrees[v] == |EdgesInto(dag, v, u)| + if v in dag.nodes[u] - left then 1 else 0
        decreases left
      {
        var s: nat :| s in left;
        indegrees := indegrees[s := indegrees[s] + 1];
        left := left - {s};
      }
      forall v | 0 <= v < |dag.nodes|
        ensures EdgesInto(dag, v, u + 1) == EdgesInto(dag, v, u) + if v in dag.nodes[u] then {u} else {}
      {
      }
    }
  }

  // ---------------------------------------------------------------- planned graphs

  /** On the graph of a plan a vertex waits exactly for its unfinished conflicting predecessors,
  all of which come before it in the batch. */
  lemma PlannedWaits(ops: seq<FsOp>, dag: SemanticDag, nodes: seq<DagRuntimeNode>, v: nat)
    requires |dag.nodes| == |ops| == |nodes| && v < |ops|
    requires forall i, j | 0 <= i < |ops| && 0 <= j < |ops| :: j in dag.nodes[i] <==> i < j && !Independent(ops[i], ops[j])
    requires forall u | 0 <= u < |nodes| :: nodes[u].successors == dag.nodes[u]
    ensures Pending(nodes, v) == set u | 0 <= u < v && !Independent(ops[u], ops[v]) && !nodes[u].finished
    ensures Pending(nodes, v) == set u | u in Preds(ops, v) && !nodes[u].finished
  {
    forall u | 0 <= u < v ensures Conflict(ops[u], ops[v]) <==> !Independent(ops[u], ops[v]) {
      ConflictMeans(ops[u], ops[v]);
    }
    hide Conflict, Independent;
  }

  // ---------------------------------------------------------------- a whole batch

  lemma AllTold(nodes: seq<DagRuntimeNode>, signals: seq<nat>)
    requires Consistent(nodes, signals, |nodes|, {})
    requires forall v | 0 <= v < |nodes| :: nodes[v].finished
    ensures forall v: nat :: v in signals <==> v < |nodes|
    ensures Distinct(signals)
  {
    forall v: nat ensures v in signals <==> v < |nodes| {
      assert VertexOk(nodes, signals, |nodes|, {}, v);
    }
  }

  /** Start, then finish the vertices in any order, each once: no call fails, and at the end
  every vertex has been signalled exactly once. */
  method FinishAll(dag: SemanticDag, order: seq<nat>) returns (signals: seq<nat>)
    requires InRange(dag) && Distinct(order)
    requires forall v: nat :: v in order <==> v < |dag.nodes|
    ensures forall v: nat :: v in signals <==> v < |dag.nodes|
    ensures Distinct(signals)
  {
    hide Consistent;
    var runtime := new DagRuntime(dag);
    runtime.Start();
    for n := 0 to |order|
      invariant fresh(runtime) && runtime.Valid()
      invariant |runtime.nodes| == runtime.begun == |dag.nodes|
      invariant forall v | 0 <= v < |dag.nodes| :: runtime.nodes[v].finished <==> v in order[..n]
    {
      assert order[n] !in order[..n] && order[n] in order;
      var r := runtime.FinishVertex(order[n]);
      assert r.Success?;
      assert order[..n + 1] == order[..n] + [order[n]];
    }
    assert order[..|order|] == order;
    AllTold(runtime.nodes, runtime.signals);
    return runtime.signals;
  }
}
