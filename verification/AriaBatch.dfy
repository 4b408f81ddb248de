/** A whole batch of the optimistic scheduler: snapshot execution, the two barriers and the
installation on every shard, then the locking fallback for the failed transactions. */
module AriaBatch {
  import opened Model
  import opened Executor
  import opened Router
  import opened AriaStates
  import P = AriaProtocol
  import R = AriaRuns
  import K = Locking
  import L = LockingRuns
  import Calvin
  import opened Fallback

  /** `home[i]` is the transaction id of operation `i` modulo the shard count. */
  datatype Batch = Batch(layout: Layout, ops: seq<FsOp>, home: seq<nat>, base: Store)

  ghost predicate Valid(b: Batch) {
    ValidLayout(b.layout) && |b.home| == |b.ops| && forall i | 0 <= i < |b.ops| :: b.home[i] < b.layout.shardCount
  }

  function FrontConfig(b: Batch): P.Config {
    P.Config(b.layout, seq(|b.ops|, i requires 0 <= i < |b.ops| => Calvin.TxnOf(b.ops[i])), b.home, b.base)
  }

  function FailedOps(b: Batch): seq<FsOp> {
    Select(b.ops, P.FailedSet(FrontConfig(b)), true, |b.ops|)
  }

  /** The home shards of the failed transactions, in the order of the fallback. */
  function FailedHomes(b: Batch, n: nat): seq<nat>
    requires n <= |b.home|
  {
    if n == 0 then []
    else FailedHomes(b, n - 1) + if n - 1 in P.FailedSet(FrontConfig(b)) then [b.home[n - 1]] else []
  }

  /** Fallback executors: the owners of the written keys and the home shard. */
  function FallbackActive(b: Batch): seq<set<nat>>
    requires |b.home| == |b.ops|
  {
    var ops, homes := FailedOps(b), FailedHomes(b, |b.ops|);
    seq(|ops|, i requires 0 <= i < |ops| =>
      Owners(b.layout, WriteSet(ops[i])) + if i < |homes| then {homes[i]} else {})
  }

  function BackConfig(b: Batch): (c: K.Config)
    requires |b.home| == |b.ops|
    ensures |c.active| == |c.txs|
  {
    var front := FrontConfig(b);
    Calvin.ConfigFor(b.layout, FailedOps(b), FallbackActive(b), P.SpecStore(front, |front.txs|))
  }

  lemma {:induction false} HomesMatch(b: Batch, n: nat)
    requires Valid(b) && n <= |b.ops|
    ensures |FailedHomes(b, n)| == |Select(b.ops, P.FailedSet(FrontConfig(b)), true, n)|
    ensures forall i | 0 <= i < |FailedHomes(b, n)| :: FailedHomes(b, n)[i] < b.layout.shardCount
  {
    if n == 0 {
    } else {
      HomesMatch(b, n - 1);
    }
  }

  lemma ConfigsOk(b: Batch)
    requires Valid(b)
    ensures P.Valid(FrontConfig(b)) && K.Valid(BackConfig(b))
    ensures Calvin.ValidActive(b.layout, FailedOps(b), FallbackActive(b))
  {
    var front := FrontConfig(b);
    forall i | 0 <= i < |b.ops| ensures K.ValidTxn(front.txs[i]) {
      assert front.txs[i] == Calvin.TxnOf(b.ops[i]);
      forall view: Reads ensures WritesWithin(Execute(b.ops[i], view).writes, WriteSet(b.ops[i])) {
        ExecuteFootprint(b.ops[i], view);
      }
      ExecuteFootprint(b.ops[i], map[]);
      hide Execute, ReadSet, WriteSet;
    }
    HomesMatch(b, |b.ops|);
    ActiveOk(b);
    Calvin.ConfigValid(b.layout, FailedOps(b), FallbackActive(b), P.SpecStore(front, |front.txs|));
  }

  lemma ActiveOk(b: Batch)
    requires Valid(b) && forall i | 0 <= i < |FailedHomes(b, |b.ops|)| :: FailedHomes(b, |b.ops|)[i] < b.layout.shardCount
    ensures Calvin.ValidActive(b.layout, FailedOps(b), FallbackActive(b))
  {
    hide FailedOps, FailedHomes, WriteSet;
  }

  // ---------------------------------------------------------------- the combined system

  datatype State = State(front: P.State, back: K.State)

  type Action = Fallback.Action<P.Action>

  predicate Enabled(b: Batch, st: State, a: Action)
    requires |b.home| == |b.ops| && P.Shape(FrontConfig(b), st.front)
  {
    match a
    case Front(f) => P.Enabled(FrontConfig(b), st.front, f)
    case Back(k) =>
      && (k.Start? ==> k.shard in st.front.agreed && k.shard < |st.back.stores|)
      && K.Enabled(BackConfig(b), st.back, k)
  }

  function Next(b: Batch, st: State, a: Action): (after: State)
    requires |b.home| == |b.ops| && P.Shape(FrontConfig(b), st.front) && Enabled(b, st, a)
    ensures P.Shape(FrontConfig(b), after.front)
  {
    match a
    case Front(f) => st.(front := P.Next(FrontConfig(b), st.front, f))
    case Back(k) => st.(back := K.Next(BackConfig(b), HandOver(st.front.stores, st.back, k), k))
  }

  function Run(b: Batch, acts: seq<Action>): (r: Option<State>)
    requires |b.home| == |b.ops|
    ensures r.Some? ==> P.Shape(FrontConfig(b), r.value.front)
  {
    if acts == [] then Some(State(P.Init(FrontConfig(b)), K.Init(BackConfig(b))))
    else
      var before := Run(b, acts[..|acts| - 1]);
      if before.Some? && Enabled(b, before.value, acts[|acts| - 1])
      then Some(Next(b, before.value, acts[|acts| - 1])) else None
  }

  /** Every run of the whole batch is a run of the optimistic phase and a run of the fallback. */
  lemma {:induction false} RunSplits(b: Batch, acts: seq<Action>)
    requires Valid(b) && Run(b, acts).Some?
    ensures P.Run(FrontConfig(b), Fronts(acts)) == Some(Run(b, acts).value.front)
    ensures K.Run(BackConfig(b), Backs(acts)) == Some(Run(b, acts).value.back)
  {
    if acts == [] {
    } else {
      var before, a := acts[..|acts| - 1], acts[|acts| - 1];
      RunSplits(b, before);
      SplitStep(b, before, a);
      assert acts == before + [a];
    }
  }

  lemma SplitStep(b: Batch, acts: seq<Action>, a: Action)
    requires Valid(b) && Run(b, acts).Some? && Enabled(b, Run(b, acts).value, a)
    requires P.Run(FrontConfig(b), Fronts(acts)) == Some(Run(b, acts).value.front)
    requires K.Run(BackConfig(b), Backs(acts)) == Some(Run(b, acts).value.back)
    ensures P.Run(FrontConfig(b), Fronts(acts + [a])) == Some(Next(b, Run(b, acts).value, a).front)
    ensures K.Run(BackConfig(b), Backs(acts + [a])) == Some(Next(b, Run(b, acts).value, a).back)
  {
    var st := Run(b, acts).value;
    ConfigsOk(b);
    HalvesStep(acts, a);
    P.RunInv(FrontConfig(b), Fronts(acts));
    match a {
      case Front(f) =>
        assert (Fronts(acts) + [f])[..|Fronts(acts) + [f]| - 1] == Fronts(acts);
      case Back(k) =>
        if k.Start? {
          R.InstalledShard(FrontConfig(b), st.front, k.shard);
        }
        BackStep(BackConfig(b), Backs(acts), st.front.stores, k);
    }
  }

  /** The store a shard hands over is its part of the store the fallback starts from. */
  lemma HandsOverInstalled(b: Batch, acts: seq<Action>, s: nat)
    requires Valid(b) && Run(b, acts).Some? && s < b.layout.shardCount && s in Run(b, acts).value.front.agreed
    ensures Run(b, acts).value.front.stores[s] == Restrict(b.layout, BackConfig(b).base, s)
  {
    ConfigsOk(b);
    RunSplits(b, acts);
    P.RunInv(FrontConfig(b), Fronts(acts));
    R.InstalledShard(FrontConfig(b), Run(b, acts).value.front, s);
  }

  // ---------------------------------------------------------------- the theorem

  ghost predicate Complete(b: Batch, st: State)
    requires |b.home| == |b.ops|
  {
    R.Complete(FrontConfig(b), st.front) && L.Complete(BackConfig(b), st.back)
  }

  /** What the optimistic phase installs is the serial run of the committed transactions. */
  lemma {:induction false} InstalledIsSerial(b: Batch, n: nat)
    requires Valid(b) && n <= |b.ops|
    ensures P.SpecStore(FrontConfig(b), n) == Serial(b.base, Select(b.ops, P.FailedSet(FrontConfig(b)), false, n))
  {
    InstalledNone(b);
    hide *;
    if n == 0 {
    } else {
      InstalledIsSerial(b, n - 1);
      SelectStep(b.base, b.ops, P.FailedSet(FrontConfig(b)), false, n - 1);
      InstalledStep(b, n - 1);
    }
  }

  lemma InstalledNone(b: Batch)
    ensures |FrontConfig(b).txs| == |b.ops|
    ensures P.SpecStore(FrontConfig(b), 0) == b.base
    ensures Serial(b.base, Select(b.ops, P.FailedSet(FrontConfig(b)), false, 0)) == b.base
  {
  }

  lemma InstalledStep(b: Batch, i: nat)
    requires Valid(b) && i < |b.ops| == |FrontConfig(b).txs|
    ensures P.SpecStore(FrontConfig(b), i + 1) ==
            var before := P.SpecStore(FrontConfig(b), i);
            if i in P.FailedSet(FrontConfig(b)) then before else Step(before, b.ops[i])
  {
    var front := FrontConfig(b);
    ConfigsOk(b);
    assert front.txs[i] == Calvin.TxnOf(b.ops[i]);
    if i !in P.FailedSet(front) {
      P.CommittedIsSerial(front, i);
      assert K.RunTxn(P.SpecStore(front, i), Calvin.TxnOf(b.ops[i])) == Step(P.SpecStore(front, i), b.ops[i]);
    }
    hide Execute, P.FailedSet, ReadSet, P.Valid, P.Out;
  }

  /** The keys an operation writes when it runs on the store of the batch start. */
  predicate FirstWrites(b: Batch, i: nat, k: Key)
    requires i < |b.ops|
  {
    Writes(Execute(b.ops[i], ReadMany(b.base, ReadSet(b.ops[i]))).writes, k)
  }

  lemma OutIs(b: Batch, i: nat)
    requires i < |b.ops|
    ensures |FrontConfig(b).txs| == |b.ops| && FrontConfig(b).txs[i] == Calvin.TxnOf(b.ops[i])
    ensures P.Out(FrontConfig(b), i) == Execute(b.ops[i], ReadMany(b.base, ReadSet(b.ops[i])))
  {
    hide Execute, ReadSet;
    assert FrontConfig(b).txs[i] == Calvin.TxnOf(b.ops[i]);
  }

  /** Exactly which transactions fail: those that read or write what an earlier one writes on
  the store of the batch start. */
  lemma FailedMeans(b: Batch, i: nat)
    requires Valid(b) && i < |b.ops|
    ensures i in P.FailedSet(FrontConfig(b)) <==> exists j: nat, k | j < i :: FirstWrites(b, j, k) && k in ReadSet(b.ops[i])
  {
    var front := FrontConfig(b);
    OutIs(b, i);
    hide Execute, ReadSet, P.Out, FrontConfig;
    forall j: nat, k | j < i ensures P.WritesKey(front, j, k) <==> FirstWrites(b, j, k) {
      OutIs(b, j);
    }
    if k :| k in front.txs[i].readSet && P.FailsAt(front, k, i) {
      var j: nat :| j < i && P.WritesKey(front, j, k);
      assert FirstWrites(b, j, k);
    }
    if j: nat, k :| j < i && FirstWrites(b, j, k) && k in ReadSet(b.ops[i]) {
      P.FailedByRule(front, i, k, j);
    }
  }

  /** A committed transaction has the result of the serial run of the committed ones. */
  lemma CommittedResult(b: Batch, i: nat)
    requires Valid(b) && i < |b.ops| && i !in P.FailedSet(FrontConfig(b))
    ensures Outcome(b.base, b.ops[i]) ==
            Outcome(Serial(b.base, Select(b.ops, P.FailedSet(FrontConfig(b)), false, i)), b.ops[i])
  {
    ConfigsOk(b);
    OutIs(b, i);
    InstalledIsSerial(b, i);
    P.CommittedIsSerial(FrontConfig(b), i);
    hide Execute, P.FailedSet, ReadSet, Select, Serial, P.Valid;
  }

  /** What clients are told: on a shard that has installed, exactly the transactions it
  coordinates have a staged result, and for those outside the failed set it is the result of
  the serial run of the committed ones. */
  lemma ReportedResult(b: Batch, acts: seq<Action>, s: nat, i: nat)
    requires Valid(b) && Run(b, acts).Some? && s in Run(b, acts).value.front.agreed && s < b.layout.shardCount && i < |b.ops|
    ensures var st := Run(b, acts).value.front;
      var staged, failed := st.tables[s].staged, st.agreed[s];
      && failed == P.FailedSet(FrontConfig(b))
      && (i in staged <==> b.home[i] == s || exists k :: b.layout.shardFor(k) == s && FirstWrites(b, i, k))
      && (i in staged ==> forall k :: Writes(staged[i].writes, k) <==> b.layout.shardFor(k) == s && FirstWrites(b, i, k))
      && (i in staged && b.home[i] != s ==> staged[i].result.None?)
      && (b.home[i] == s && i !in failed ==>
            staged[i].result == Some(Outcome(Serial(b.base, Select(b.ops, failed, false, i)), b.ops[i])))
  {
    BothInv(b, acts);
    var front, st := FrontConfig(b), Run(b, acts).value.front;
    OutIs(b, i);
    assert front.layout == b.layout && front.home == b.home;
    hide P.Inv, Run, P.FailedSet, Select, Serial, ReadSet, FrontConfig, Execute;
    R.InstalledShard(front, st, s);
    R.InstalledStaged(front, st, s, i);
    StagedIs(b, s, i);
    if i !in P.FailedSet(front) {
      CommittedResult(b, i);
    }
    hide P.Out, P.StagedFor;
  }

  /** So an installing shard reports, once each and in batch order, exactly the committed
  transactions it coordinates, with their results in the promised order. */
  lemma ReportedAnswers(b: Batch, acts: seq<Action>, s: nat)
    requires Valid(b) && Run(b, acts).Some? && s in Run(b, acts).value.front.agreed && s < b.layout.shardCount
    ensures var st := Run(b, acts).value.front;
      var failed := st.agreed[s];
      var answers := Answers(st.tables[s].staged, failed, |b.ops|);
      && (forall i: nat, r :: (i, r) in answers <==>
            && i < |b.ops| && i !in failed && b.home[i] == s
            && r == Outcome(Serial(b.base, Select(b.ops, failed, false, i)), b.ops[i]))
      && (forall x, y | 0 <= x < y < |answers| :: answers[x].0 < answers[y].0)
  {
    var st := Run(b, acts).value.front;
    AnswersMean(st.tables[s].staged, st.agreed[s], |b.ops|);
    hide Answers, Run, Serial, Select, Outcome, FrontConfig, FirstWrites;
    forall i: nat | i < |b.ops| && i !in st.agreed[s]
      ensures i in st.tables[s].staged && st.tables[s].staged[i].result.Some? <==> b.home[i] == s
      ensures b.home[i] == s ==>
        && i in st.tables[s].staged
        && st.tables[s].staged[i].result == Some(Outcome(Serial(b.base, Select(b.ops, st.agreed[s], false, i)), b.ops[i]))
    {
      ReportedResult(b, acts, s, i);
    }
  }

  lemma StagedIs(b: Batch, s: nat, i: nat)
    requires Valid(b) && i < |b.ops|
    ensures var outcome := P.StagedFor(FrontConfig(b), i, s, P.Out(FrontConfig(b), i));
      && outcome.result == (if b.home[i] == s then Some(Outcome(b.base, b.ops[i])) else None)
      && forall k :: Writes(outcome.writes, k) <==> b.layout.shardFor(k) == s && FirstWrites(b, i, k)
    ensures forall k :: P.WritesKey(FrontConfig(b), i, k) <==> FirstWrites(b, i, k)
  {
    OutIs(b, i);
    var front := FrontConfig(b);
    hide Execute, ReadSet;
    forall k ensures Writes(P.StagedFor(front, i, s, P.Out(front, i)).writes, k) <==>
                     (b.layout.shardFor(k) == s && FirstWrites(b, i, k))
    {
      P.StagedWrites(front, i, s, k);
    }
  }

  lemma {:induction false} HomesAt(b: Batch, n: nat)
    requires n <= |b.home|
    ensures |FailedHomes(b, n)| == |Ascending(P.FailedSet(FrontConfig(b)), true, n)|
    ensures forall j | 0 <= j < |FailedHomes(b, n)| ::
              Ascending(P.FailedSet(FrontConfig(b)), true, n)[j] < n
              && FailedHomes(b, n)[j] == b.home[Ascending(P.FailedSet(FrontConfig(b)), true, n)[j]]
  {
    hide P.FailedSet, FrontConfig;
    if n == 0 {
    } else {
      HomesAt(b, n - 1);
    }
  }

  /** Who executes a failed transaction in the fallback: the owners of its written keys and the
  shard that coordinates it. */
  lemma FallbackExecutors(b: Batch, j: nat)
    requires Valid(b) && j < |FailedOps(b)| == |FallbackActive(b)|
    ensures var index := Ascending(P.FailedSet(FrontConfig(b)), true, |b.ops|);
      && |index| == |FailedOps(b)| && index[j] < |b.ops| && FailedOps(b)[j] == b.ops[index[j]]
      && forall s :: s in FallbackActive(b)[j] <==>
           s == b.home[index[j]] || exists k :: k in WriteSet(b.ops[index[j]]) && b.layout.shardFor(k) == s
  {
    HomesAt(b, |b.ops|);
    SelectAt(b.ops, P.FailedSet(FrontConfig(b)), true, |b.ops|);
    hide P.FailedSet, FrontConfig, Ascending, Select, FailedHomes, WriteSet;
  }

  /** Every fallback executor reports the result that the promised serial order gives, and
  nobody else reports anything. */
  lemma FallbackResult(b: Batch, st: State, s: nat, j: nat)
    requires Valid(b) && K.Inv(BackConfig(b), st.back) && L.Complete(BackConfig(b), st.back)
    requires j < |FailedOps(b)| == |FallbackActive(b)| && s < b.layout.shardCount
    ensures var before := Select(b.ops, P.FailedSet(FrontConfig(b)), false, |b.ops|) + FailedOps(b)[..j];
      && Wid(s, j) in st.back.phases
      && st.back.phases[Wid(s, j)] ==
           K.Phase.Released(if s in FallbackActive(b)[j] then Some(Outcome(Serial(b.base, before), FailedOps(b)[j])) else None)
  {
    var front, failed := FrontConfig(b), FailedOps(b);
    ConfigsOk(b);
    InstalledIsSerial(b, |b.ops|);
    SerialAppend(b.base, Select(b.ops, P.FailedSet(front), false, |b.ops|), failed[..j]);
    hide K.Inv, L.Complete, Serial, Select, Outcome, P.FailedSet, FallbackActive;
    Calvin.ResultsAreSerial(b.layout, failed, FallbackActive(b), P.SpecStore(front, |front.txs|), st.back, s, j);
  }

  lemma FallbackStore(b: Batch)
    requires Valid(b)
    ensures K.Prefix(BackConfig(b), |BackConfig(b).txs|) ==
            Serial(b.base, Reordered(b.ops, P.FailedSet(FrontConfig(b))))
  {
    var front, ops := FrontConfig(b), FailedOps(b);
    InstalledIsSerial(b, |b.ops|);
    Calvin.PrefixIsSerial(b.layout, ops, FallbackActive(b), P.SpecStore(front, |front.txs|), |ops|);
    assert ops[..|ops|] == ops;
    SerialAppend(b.base, Select(b.ops, P.FailedSet(front), false, |b.ops|), ops);
  }

  /** Serializability: when the batch is over on every shard, all shards agreed on one failed
  set and the merged store is that of the transactions outside it in batch order and then
  those inside it in batch order. */
  lemma BatchIsSerial(b: Batch, acts: seq<Action>)
    requires Valid(b) && Run(b, acts).Some? && Complete(b, Run(b, acts).value)
    ensures var st := Run(b, acts).value;
      var failed := P.FailedSet(FrontConfig(b));
      && (forall s: nat | s < b.layout.shardCount :: s in st.front.agreed && st.front.agreed[s] == failed)
      && Merge(st.back.stores) == Serial(b.base, Reordered(b.ops, failed))
  {
    ConfigsOk(b);
    RunSplits(b, acts);
    var st := Run(b, acts).value;
    var front, back := FrontConfig(b), BackConfig(b);
    P.RunInv(front, Fronts(acts));
    R.CompleteIsSpecified(front, st.front);
    K.RunInv(back, Backs(acts));
    L.CompleteIsSerial(back, st.back);
    FallbackStore(b);
  }

  /** A batch that is not complete can go on. */
  lemma Progress(b: Batch, st: State) returns (a: Action)
    requires |b.home| == |b.ops| && P.Shape(FrontConfig(b), st.front)
    requires P.Inv(FrontConfig(b), st.front) && K.Inv(BackConfig(b), st.back) && !Complete(b, st)
    ensures Enabled(b, st, a)
  {
    hide P.Inv, K.Inv;
    if !R.Complete(FrontConfig(b), st.front) {
      var f := R.Progress(FrontConfig(b), st.front);
      return Front(f);
    }
    K.InvShape(BackConfig(b), st.back);
    P.InvShape(FrontConfig(b), st.front);
    var k := L.Progress(BackConfig(b), st.back);
    return Back(k);
  }

  /** A shard enters its fallback as soon as its own installation is over, whatever the other
  shards do. */
  lemma EntersAlone(b: Batch, st: State, s: nat)
    requires |b.home| == |b.ops| && P.Shape(FrontConfig(b), st.front) && K.Inv(BackConfig(b), st.back)
    requires s < b.layout.shardCount && s in st.front.agreed && s !in st.back.started
    ensures Enabled(b, st, Action.Back(K.Start(s)))
  {
    assert BackConfig(b).layout == b.layout;
    hide K.Inv, BackConfig, FrontConfig;
    K.InvShape(BackConfig(b), st.back);
  }

  lemma BothInv(b: Batch, acts: seq<Action>)
    requires Valid(b) && Run(b, acts).Some?
    ensures P.Inv(FrontConfig(b), Run(b, acts).value.front) && K.Inv(BackConfig(b), Run(b, acts).value.back)
  {
    ConfigsOk(b);
    RunSplits(b, acts);
    P.RunInv(FrontConfig(b), Fronts(acts));
    K.RunInv(BackConfig(b), Backs(acts));
  }

  lemma MaximalIsComplete(b: Batch, acts: seq<Action>)
    requires Valid(b) && Run(b, acts).Some?
    requires forall a :: !Enabled(b, Run(b, acts).value, a)
    ensures Complete(b, Run(b, acts).value)
  {
    BothInv(b, acts);
    assert |b.home| == |b.ops|;
    hide *;
    if !Complete(b, Run(b, acts).value) {
      var a := Progress(b, Run(b, acts).value);
      assert false;
    }
  }

  /** Every run of a batch ends. */
  lemma RunsEnd(b: Batch, acts: seq<Action>)
    requires Valid(b) && Run(b, acts).Some?
    ensures |acts| <= R.Measure(FrontConfig(b), P.Init(FrontConfig(b))) + L.Measure(BackConfig(b), K.Init(BackConfig(b)))
  {
    ConfigsOk(b);
    RunSplits(b, acts);
    HalvesAddUp(acts);
    R.RunsEnd(FrontConfig(b), Fronts(acts));
    L.RunsEnd(BackConfig(b), Backs(acts));
  }
}
