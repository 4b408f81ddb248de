/** A whole batch of the semantic scheduler: speculation and installation on every shard,
then the locking fallback for the lost transactions. A shard enters its fallback as soon as
its own installation is done, while others may still be speculating. */
module SccBatch {
  import opened Model
  import opened Executor
  import opened Router
  import opened CommitSequences
  import opened LockTables
  import opened Namespace
  import opened SemanticTables
  import P = SccProtocol
  import S = SccSystem
  import R = SccRuns
  import Sight = SccSight
  import Spec = SccSerial
  import K = Locking
  import L = LockingRuns
  import Calvin
  import opened Fallback

  datatype Batch = Batch(layout: Layout, ops: seq<FsOp>, base: Store, absorbing: bool)

  ghost predicate Valid(b: Batch) {
    ValidLayout(b.layout) && WellFormed(b.base) && Room(b.base, |b.ops|) && NoSelfNesting(b.ops)
  }

  function FrontConfig(b: Batch): P.Config {
    Spec.ConfigOf(b.layout, b.ops, b.base, b.absorbing)
  }

  function LostOps(b: Batch): seq<FsOp> {
    Select(b.ops, P.LostSet(FrontConfig(b)), true, |b.ops|)
  }

  /** The fallback: the lost transactions in batch order, on the store of the successes. */
  function BackConfig(b: Batch): (c: K.Config)
    ensures |c.active| == |c.txs|
  {
    var front := FrontConfig(b);
    Calvin.ConfigFor(b.layout, LostOps(b), Calvin.ActiveFor(b.layout, LostOps(b)), P.SpecStore(front, |front.txs|))
  }

  /** The batch positions of the lost transactions. */
  function LostIndex(b: Batch): seq<nat> {
    Ascending(P.LostSet(FrontConfig(b)), true, |b.ops|)
  }

  /** The lost transactions whose slots a shard has failed itself. */
  predicate Own(b: Batch, slots: seq<SlotState>, j: nat) {
    j < |LostIndex(b)| && LostIndex(b)[j] in FailedIndices(slots)
  }

  /** A shard builds its fallback batch from its own failed slots: it queues and runs these
  transactions and no others. */
  function StartOwn(b: Batch, slots: seq<SlotState>, back: K.State, s: nat): K.State {
    var c := BackConfig(b);
    var queues := back.queues + EnqueueAll(seq(|c.txs|, j requires 0 <= j < |c.txs| =>
      if Own(b, slots, j) then K.Local(c, Wid(s, j)) else {}));
    back.(started := back.started + {s},
          queues := queues,
          granted := map w | w in back.granted ::
            if w.shard == s && w.tx < |c.txs| then if Own(b, slots, w.tx) then K.Heads(c, queues, w) else {}
            else back.granted[w],
          phases := map w | w in back.phases ::
            if w.shard == s && w.tx < |c.txs| && !Own(b, slots, w.tx) then K.Phase.Released(None) else back.phases[w])
  }

  datatype State = State(front: S.State, back: K.State)

  type Action = Fallback.Action<S.Action>

  predicate Enabled(b: Batch, st: State, a: Action)
    requires S.Shape(FrontConfig(b), st.front)
  {
    match a
    case Front(f) => S.Enabled(FrontConfig(b), st.front, f)
    case Back(k) =>
      && (k.Start? ==> k.shard in st.front.installed && k.shard < |st.back.stores|)
      && K.Enabled(BackConfig(b), st.back, k)
  }

  function Next(b: Batch, st: State, a: Action): (after: State)
    requires S.Shape(FrontConfig(b), st.front) && Enabled(b, st, a)
    ensures S.Shape(FrontConfig(b), after.front)
  {
    match a
    case Front(f) => st.(front := S.Next(FrontConfig(b), st.front, f))
    case Back(k) =>
      var back := HandOver(st.front.stores, st.back, k);
      st.(back := if k.Start? then StartOwn(b, st.front.slots[k.shard], back, k.shard) else K.Next(BackConfig(b), back, k))
  }

  function Run(b: Batch, acts: seq<Action>): (r: Option<State>)
    ensures r.Some? ==> S.Shape(FrontConfig(b), r.value.front)
  {
    if acts == [] then Some(State(S.Init(FrontConfig(b)), K.Init(BackConfig(b))))
    else
      var before := Run(b, acts[..|acts| - 1]);
      if before.Some? && Enabled(b, before.value, acts[|acts| - 1])
      then Some(Next(b, before.value, acts[|acts| - 1])) else None
  }

  // ---------------------------------------------------------------- the two halves

  lemma ConfigsOk(b: Batch)
    requires Valid(b)
    ensures P.Valid(FrontConfig(b)) && P.Sound(FrontConfig(b)) && K.Valid(BackConfig(b))
    ensures Spec.Batch(b.layout, b.ops, b.base)
  {
    Spec.ConfigValid(b.layout, b.ops, b.base, b.absorbing);
    Spec.ConfigSound(b.layout, b.ops, b.base, b.absorbing);
    var front := FrontConfig(b);
    Calvin.ActiveValid(b.layout, LostOps(b));
    Calvin.ConfigValid(b.layout, LostOps(b), Calvin.ActiveFor(b.layout, LostOps(b)), P.SpecStore(front, |front.txs|));
  }

  lemma ActiveWithin(l: Layout, op: FsOp)
    ensures Calvin.Active(l, op) <= Owners(l, ReadSet(op))
  {
  }

  /** A shard fails a lost transaction itself exactly if it takes part in it. */
  lemma OwnMeans(b: Batch, slots: seq<SlotState>, s: nat, j: nat)
    requires FailedIndices(slots) == set i | i in P.LostSet(FrontConfig(b)) && s in P.Sources(FrontConfig(b), i)
    requires j < |BackConfig(b).txs|
    ensures Own(b, slots, j) <==> s in K.Sources(BackConfig(b), j)
    ensures !Own(b, slots, j) ==> !K.Participant(BackConfig(b), Wid(s, j)) && K.Local(BackConfig(b), Wid(s, j)) == {}
  {
    var lost, front := P.LostSet(FrontConfig(b)), FrontConfig(b);
    SelectAt(b.ops, lost, true, |b.ops|);
    AscendingMeans(lost, true, |b.ops|);
    var i := LostIndex(b)[j];
    assert i in LostIndex(b) && LostOps(b)[j] == b.ops[i];
    ActiveWithin(b.layout, b.ops[i]);
    hide Select, Ascending, P.LostSet, FailedIndices, ReadSet, Calvin.Active;
    assert P.Sources(front, i) == Owners(b.layout, ReadSet(b.ops[i])) == K.Sources(BackConfig(b), j);
  }

  lemma SameStart(b: Batch, slots: seq<SlotState>, back: K.State, s: nat)
    requires forall j: nat | j < |BackConfig(b).txs| && !Own(b, slots, j) :: K.Local(BackConfig(b), Wid(s, j)) == {}
    requires forall j: nat | j < |BackConfig(b).txs| && !Own(b, slots, j) && Wid(s, j) in back.phases ::
               back.phases[Wid(s, j)] == K.Phase.Released(None)
    ensures StartOwn(b, slots, back, s) == K.DoStart(BackConfig(b), back, s)
  {
    var c := BackConfig(b);
    hide BackConfig, Own, K.Local, EnqueueAll;
    var own, all := StartOwn(b, slots, back, s), K.DoStart(c, back, s);
    assert seq(|c.txs|, j requires 0 <= j < |c.txs| => if Own(b, slots, j) then K.Local(c, Wid(s, j)) else {}) ==
           seq(|c.txs|, j requires 0 <= j < |c.txs| => K.Local(c, Wid(s, j)));
    forall w | w in back.granted ensures own.granted[w] == all.granted[w] {
      assert Wid(w.shard, w.tx) == w;
    }
    forall w | w in back.phases ensures own.phases[w] == back.phases[w] {
      assert Wid(w.shard, w.tx) == w;
    }
  }

  /** So a fallback built from the shard's own slots is the fallback of the lost transactions. */
  lemma OwnIsLost(b: Batch, slots: seq<SlotState>, back: K.State, s: nat)
    requires Valid(b) && K.Inv(BackConfig(b), back) && s < b.layout.shardCount
    requires FailedIndices(slots) == set i | i in P.LostSet(FrontConfig(b)) && s in P.Sources(FrontConfig(b), i)
    ensures StartOwn(b, slots, back, s) == K.DoStart(BackConfig(b), back, s)
  {
    var c := BackConfig(b);
    assert c.layout == b.layout;
    hide K.Inv, BackConfig, Own, FailedIndices, P.LostSet, FrontConfig;
    K.InvShape(c, back);
    forall j: nat | j < |c.txs|
      ensures !Own(b, slots, j) ==> !K.Participant(c, Wid(s, j)) && K.Local(c, Wid(s, j)) == {}
    {
      OwnMeans(b, slots, s, j);
    }
    forall j: nat | j < |c.txs| && !Own(b, slots, j) 
      ensures Wid(s, j) in back.phases && back.phases[Wid(s, j)] == K.Phase.Released(None)
    {
      assert Wid(s, j) in K.Wids(c);
      K.WidOk(c, back, Wid(s, j));
    }
    SameStart(b, slots, back, s);
  }

  /** Every run of the whole batch is a run of the speculation and a run of the fallback. */
  lemma {:induction false} RunSplits(b: Batch, acts: seq<Action>)
    requires Valid(b) && Run(b, acts).Some?
    ensures S.Run(FrontConfig(b), Fronts(acts)) == Some(Run(b, acts).value.front)
    ensures K.Run(BackConfig(b), Backs(acts)) == Some(Run(b, acts).value.back)
  {
    if acts == [] {
    } else {
      var before, a := acts[..|acts| - 1], acts[|acts| - 1];
      RunSplits(b, before);
      SplitStep(b, before, a);
      assert acts == before + [a];
    }
  }

  lemma SplitStep(b: Batch, acts: seq<Action>, a: Action)
    requires Valid(b) && Run(b, acts).Some? && Enabled(b, Run(b, acts).value, a)
    requires S.Run(FrontConfig(b), Fronts(acts)) == Some(Run(b, acts).value.front)
    requires K.Run(BackConfig(b), Backs(acts)) == Some(Run(b, acts).value.back)
    ensures S.Run(FrontConfig(b), Fronts(acts + [a])) == Some(Next(b, Run(b, acts).value, a).front)
    ensures K.Run(BackConfig(b), Backs(acts + [a])) == Some(Next(b, Run(b, acts).value, a).back)
  {
    var st := Run(b, acts).value;
    ConfigsOk(b);
    HalvesStep(acts, a);
    S.RunInv(FrontConfig(b), Fronts(acts));
    match a {
      case Front(f) =>
        assert (Fronts(acts) + [f])[..|Fronts(acts) + [f]| - 1] == Fronts(acts);
      case Back(k) =>
        if k.Start? {
          R.InstalledShard(FrontConfig(b), st.front, k.shard);
          K.RunInv(BackConfig(b), Backs(acts));
          OwnIsLost(b, st.front.slots[k.shard], st.back, k.shard);
        }
        BackStep(BackConfig(b), Backs(acts), st.front.stores, k);
    }
  }

  // ---------------------------------------------------------------- the theorem

  /** Every shard returned Ok: it installed, and its fallback is over. */
  ghost predicate Complete(b: Batch, st: State) {
    R.Complete(FrontConfig(b), st.front) && L.Complete(BackConfig(b), st.back)
  }

  /** Serializability: in every interleaving in which all shards return Ok, the merged store
  is that of running the transactions outside the union of the shards' failed sets in batch
  order and then those inside it in batch order. */
  lemma BatchIsSerial(b: Batch, acts: seq<Action>)
    requires Valid(b) && Run(b, acts).Some? && Complete(b, Run(b, acts).value)
    ensures var st := Run(b, acts).value;
      var failed := P.LostSet(FrontConfig(b));
      && (forall i :: i in failed <==> exists s: nat :: s < b.layout.shardCount && i in FailedIndices(st.front.slots[s]))
      && Merge(st.back.stores) == Serial(b.base, Reordered(b.ops, failed))
  {
    ConfigsOk(b);
    RunSplits(b, acts);
    var st := Run(b, acts).value;
    var front, back := FrontConfig(b), BackConfig(b);
    S.RunInv(front, Fronts(acts));
    R.CompleteIsSpecified(front, st.front);
    K.RunInv(back, Backs(acts));
    L.CompleteIsSerial(back, st.back);
    FallbackStore(b);
  }

  /** In every finished batch exactly these transactions have failed on some shard: those that
  do not succeed when run after the earlier successes, and those that must look past a lost
  one on a common shard. */
  lemma FallsBack(b: Batch, acts: seq<Action>, i: nat)
    requires Valid(b) && Run(b, acts).Some? && R.Complete(FrontConfig(b), Run(b, acts).value.front) && i < |b.ops|
    ensures var st := Run(b, acts).value.front;
      var failed := P.LostSet(FrontConfig(b));
      && (forall j :: j in failed <==> exists s: nat :: s < b.layout.shardCount && j in FailedIndices(st.slots[s]))
      && (i in failed <==>
            || Outcome(Serial(b.base, Select(b.ops, failed, false, i)), b.ops[i]) != Ok
            || exists k: nat, m: nat | k <= m < i :: k in failed && !Independent(b.ops[m], b.ops[i])
                 && Owners(b.layout, ReadSet(b.ops[k])) * Owners(b.layout, ReadSet(b.ops[i])) != {})
  {
    ConfigsOk(b);
    RunSplits(b, acts);
    S.RunInv(FrontConfig(b), Fronts(acts));
    hide Outcome, Serial, Select, P.LostSet, Owners, ReadSet, Independent, Run, FailedIndices, R.Complete, S.Inv;
    R.CompleteIsSpecified(FrontConfig(b), Run(b, acts).value.front);
    Spec.LostMeans(b.layout, b.ops, b.base, b.absorbing, i);
    InheritsOnPaths(b, P.LostSet(FrontConfig(b)), i);
  }

  lemma InheritsOnPaths(b: Batch, failed: set<nat>, i: nat)
    requires i < |b.ops|
    ensures Spec.Inherits(b.layout, b.ops, failed, i) <==>
      exists k: nat, m: nat | k <= m < i :: k in failed && !Independent(b.ops[m], b.ops[i])
        && Owners(b.layout, ReadSet(b.ops[k])) * Owners(b.layout, ReadSet(b.ops[i])) != {}
  {
    forall m | 0 <= m < i ensures Conflict(b.ops[m], b.ops[i]) <==> !Independent(b.ops[m], b.ops[i]) {
      ConflictMeans(b.ops[m], b.ops[i]);
    }
    hide Conflict, Independent, Owners, ReadSet;
  }

  /** Every fallback executor reports the result that the promised serial order gives, and
  nobody else reports anything. */
  lemma FallbackResult(b: Batch, st: State, s: nat, j: nat)
    requires Valid(b) && K.Inv(BackConfig(b), st.back) && L.Complete(BackConfig(b), st.back)
    requires j < |LostOps(b)| && s < b.layout.shardCount
    ensures var before := Select(b.ops, P.LostSet(FrontConfig(b)), false, |b.ops|) + LostOps(b)[..j];
      && Wid(s, j) in st.back.phases
      && st.back.phases[Wid(s, j)] ==
           K.Phase.Released(if s in Calvin.Active(b.layout, LostOps(b)[j]) then Some(Outcome(Serial(b.base, before), LostOps(b)[j])) else None)
  {
    var front, lost := FrontConfig(b), LostOps(b);
    Calvin.ActiveValid(b.layout, lost);
    Spec.SpecIsSerial(b.layout, b.ops, b.base, b.absorbing, |b.ops|);
    SerialAppend(b.base, Select(b.ops, P.LostSet(front), false, |b.ops|), lost[..j]);
    hide K.Inv, L.Complete, Serial, Select, Outcome, P.LostSet;
    Calvin.ResultsAreSerial(b.layout, lost, Calvin.ActiveFor(b.layout, lost), P.SpecStore(front, |front.txs|), st.back, s, j);
  }

  lemma FallbackStore(b: Batch)
    requires Valid(b)
    ensures K.Prefix(BackConfig(b), |BackConfig(b).txs|) ==
            Serial(b.base, Reordered(b.ops, P.LostSet(FrontConfig(b))))
  {
    ConfigsOk(b);
    var front, lost := FrontConfig(b), LostOps(b);
    var active := Calvin.ActiveFor(b.layout, lost);
    Spec.SpecIsSerial(b.layout, b.ops, b.base, b.absorbing, |b.ops|);
    Calvin.PrefixIsSerial(b.layout, lost, active, P.SpecStore(front, |front.txs|), |lost|);
    assert lost[..|lost|] == lost;
    SerialAppend(b.base, Select(b.ops, P.LostSet(front), false, |b.ops|), lost);
  }

  /** While no message has met a closed mailbox, a batch that is not complete can go on. */
  lemma Progress(b: Batch, st: State) returns (a: Action)
    requires S.Shape(FrontConfig(b), st.front) && R.Healthy(FrontConfig(b), st.front)
    requires S.Inv(FrontConfig(b), st.front) && K.Inv(BackConfig(b), st.back) && !Complete(b, st)
    ensures Enabled(b, st, a)
  {
    hide S.Inv, K.Inv;
    if !R.Complete(FrontConfig(b), st.front) {
      var f := R.Progress(FrontConfig(b), st.front);
      return Front(f);
    }
    K.InvShape(BackConfig(b), st.back);
    var k := L.Progress(BackConfig(b), st.back);
    return Back(k);
  }

  /** A batch that can go no further is complete exactly if no message met a closed mailbox,
  which absorbing mailboxes rule out. */
  lemma MaximalIsComplete(b: Batch, acts: seq<Action>)
    requires Valid(b) && Run(b, acts).Some?
    requires forall a :: !Enabled(b, Run(b, acts).value, a)
    ensures Complete(b, Run(b, acts).value) <==> R.Healthy(FrontConfig(b), Run(b, acts).value.front)
    ensures b.absorbing ==> Complete(b, Run(b, acts).value)
  {
    BothInv(b, acts);
    var st := Run(b, acts).value;
    HealthAndCompletion(b, st);
    assert FrontConfig(b).absorbing == b.absorbing;
    hide *;
    if R.Healthy(FrontConfig(b), st.front) && !Complete(b, st) {
      var a := Progress(b, st);
      assert false;
    }
  }

  lemma HealthAndCompletion(b: Batch, st: State)
    requires S.Shape(FrontConfig(b), st.front) && S.Inv(FrontConfig(b), st.front)
    ensures R.Complete(FrontConfig(b), st.front) ==> R.Healthy(FrontConfig(b), st.front)
    ensures Complete(b, st) ==> R.Complete(FrontConfig(b), st.front)
    ensures FrontConfig(b).absorbing ==> R.Healthy(FrontConfig(b), st.front)
  {
    var c := FrontConfig(b);
    if c.absorbing {
      R.AbsorbingIsHealthy(c, st.front);
    }
    if R.Complete(c, st.front) {
      R.CompleteIsHealthy(c, st.front);
    }
  }

  /** A shard enters its fallback as soon as its own installation is over, whatever the other
  shards do. */
  lemma EntersAlone(b: Batch, st: State, s: nat)
    requires S.Shape(FrontConfig(b), st.front) && K.Inv(BackConfig(b), st.back)
    requires s < b.layout.shardCount && s in st.front.installed && s !in st.back.started
    ensures Enabled(b, st, Action.Back(K.Start(s)))
  {
    assert BackConfig(b).layout == b.layout;
    hide K.Inv, BackConfig, FrontConfig;
    K.InvShape(BackConfig(b), st.back);
  }

  lemma BothInv(b: Batch, acts: seq<Action>)
    requires Valid(b) && Run(b, acts).Some?
    ensures S.Inv(FrontConfig(b), Run(b, acts).value.front) && K.Inv(BackConfig(b), Run(b, acts).value.back)
  {
    ConfigsOk(b);
    RunSplits(b, acts);
    S.RunInv(FrontConfig(b), Fronts(acts));
    K.RunInv(BackConfig(b), Backs(acts));
  }

  /** Every run of a batch ends. */
  lemma RunsEnd(b: Batch, acts: seq<Action>)
    requires Valid(b) && Run(b, acts).Some?
    ensures |acts| <= R.Measure(FrontConfig(b), S.Init(FrontConfig(b))) + L.Measure(BackConfig(b), K.Init(BackConfig(b)))
  {
    ConfigsOk(b);
    RunSplits(b, acts);
    HalvesAddUp(acts);
    R.RunsEnd(FrontConfig(b), Fronts(acts));
    L.RunsEnd(BackConfig(b), Backs(acts));
  }

  // ---------------------------------------------------------------- exactly when it completes

  function Fronted(acts: seq<S.Action>): seq<Action> {
    seq(|acts|, i requires 0 <= i < |acts| => Action.Front(acts[i]))
  }

  lemma RunMore(b: Batch, acts: seq<Action>, a: Action)
    requires Run(b, acts).Some? && Enabled(b, Run(b, acts).value, a)
    ensures Run(b, acts + [a]) == Some(Next(b, Run(b, acts).value, a))
  {
    assert (acts + [a])[..|acts + [a]| - 1] == acts;
  }

  lemma FrontedMore(acts: seq<S.Action>, a: S.Action)
    ensures Fronted(acts + [a]) == Fronted(acts) + [Action.Front(a)]
  {
  }

  /** A run of the speculation alone is a run of the batch. */
  lemma {:induction false} FrontRuns(b: Batch, acts: seq<S.Action>)
    requires S.Run(FrontConfig(b), acts).Some?
    ensures Run(b, Fronted(acts)) == Some(State(S.Run(FrontConfig(b), acts).value, K.Init(BackConfig(b))))
  {
    hide S.Enabled, S.Next, S.Init, K.Init, FrontConfig, BackConfig;
    if acts == [] {
    } else {
      var before, a := acts[..|acts| - 1], acts[|acts| - 1];
      FrontRuns(b, before);
      FrontedMore(before, a);
      assert acts == before + [a];
      hide Run, Fronted;
      RunMore(b, Fronted(before), Action.Front(a));
    }
  }

  ghost predicate Maximal(b: Batch, acts: seq<Action>) {
    Run(b, acts).Some? && forall a :: !Enabled(b, Run(b, acts).value, a)
  }

  ghost predicate Healthy(b: Batch, st: State)
    requires S.Shape(FrontConfig(b), st.front)
  {
    R.Healthy(FrontConfig(b), st.front)
  }

  lemma ErrorStays(b: Batch, st: State, a: Action)
    requires S.Shape(FrontConfig(b), st.front) && S.Inv(FrontConfig(b), st.front) && Enabled(b, st, a)
    ensures !Healthy(b, st) ==> !Healthy(b, Next(b, st, a))
  {
    hide S.Inv, S.Next, K.Next, FrontConfig, BackConfig;
    if a.Front? {
      Sight.ErrorStays(FrontConfig(b), st.front, a.a);
    }
  }

  /** Every run of a batch goes on to one that can go no further, and an error stays. */
  lemma Exhaust(b: Batch, acts: seq<Action>) returns (more: seq<Action>)
    requires Valid(b) && Run(b, acts).Some?
    ensures Maximal(b, more)
    ensures !Healthy(b, Run(b, acts).value) ==> !Healthy(b, Run(b, more).value)
    decreases R.Measure(FrontConfig(b), S.Init(FrontConfig(b))) + L.Measure(BackConfig(b), K.Init(BackConfig(b))) - |acts|
  {
    var st := Run(b, acts).value;
    RunsEnd(b, acts);
    BothInv(b, acts);
    hide *;
    if a :| Enabled(b, st, a) {
      RunMore(b, acts, a);
      RunsEnd(b, acts + [a]);
      ErrorStays(b, st, a);
      more := Exhaust(b, acts + [a]);
    } else {
      MaximalHere(b, acts);
      more := acts;
    }
  }

  lemma MaximalHere(b: Batch, acts: seq<Action>)
    requires Run(b, acts).Some? && forall a :: !Enabled(b, Run(b, acts).value, a)
    ensures Maximal(b, acts)
  {
  }

  /** Every run of a batch that can go no further has installed it, fallback included, on every
  shard exactly if mailboxes absorb late messages or no transaction that spans shards sees a
  lost one: a condition on the batch, the layout and the starting store alone. */
  lemma CompletesIff(b: Batch)
    requires Valid(b)
    ensures b.absorbing || Sight.NoSight(FrontConfig(b)) <==>
            forall acts :: Maximal(b, acts) ==> Complete(b, Run(b, acts).value)
  {
    ConfigsOk(b);
    if b.absorbing || Sight.NoSight(FrontConfig(b)) {
      forall acts | Maximal(b, acts) ensures Complete(b, Run(b, acts).value) {
        SafeCompletes(b, acts);
      }
    } else {
      var acts := UnsafeBatch(b);
    }
  }

  lemma SafeCompletes(b: Batch, acts: seq<Action>)
    requires Valid(b) && Maximal(b, acts) && (b.absorbing || Sight.NoSight(FrontConfig(b)))
    ensures Complete(b, Run(b, acts).value)
  {
    ConfigsOk(b);
    assert FrontConfig(b).absorbing == b.absorbing;
    hide S.Run, FrontConfig, BackConfig, Sight.NoSight, Complete, R.Healthy;
    RunSplits(b, acts);
    Sight.SafelyHealthy(FrontConfig(b), Fronts(acts));
    MaximalIsComplete(b, acts);
  }

  lemma UnsafeBatch(b: Batch) returns (acts: seq<Action>)
    requires Valid(b) && !b.absorbing && !Sight.NoSight(FrontConfig(b))
    ensures Maximal(b, acts) && !Complete(b, Run(b, acts).value)
  {
    ConfigsOk(b);
    assert FrontConfig(b).absorbing == b.absorbing;
    hide S.Run, FrontConfig, BackConfig, Sight.NoSight, Complete, R.Healthy;
    var front := Sight.UnsafeRun(FrontConfig(b));
    FrontRuns(b, front);
    acts := Exhaust(b, Fronted(front));
    MaximalIsComplete(b, acts);
  }

  /** The store a shard hands over is its part of the store the fallback starts from. */
  lemma HandsOverInstalled(b: Batch, acts: seq<Action>, s: nat)
    requires Valid(b) && Run(b, acts).Some? && s < b.layout.shardCount && s in Run(b, acts).value.front.installed
    ensures Run(b, acts).value.front.stores[s] == Restrict(b.layout, BackConfig(b).base, s)
  {
    ConfigsOk(b);
    RunSplits(b, acts);
    S.RunInv(FrontConfig(b), Fronts(acts));
    R.InstalledShard(FrontConfig(b), Run(b, acts).value.front, s);
  }

  /** The fallback batch that one shard builds from its own failed slots holds, of the lost
  transactions, exactly those it takes part in. */
  lemma LocalFallback(b: Batch, acts: seq<Action>, s: nat)
    requires Valid(b) && Run(b, acts).Some? && s < b.layout.shardCount && s in Run(b, acts).value.front.installed
    ensures FailedIndices(Run(b, acts).value.front.slots[s]) ==
            set i | i in P.LostSet(FrontConfig(b)) && s in P.Sources(FrontConfig(b), i)
  {
    ConfigsOk(b);
    RunSplits(b, acts);
    S.RunInv(FrontConfig(b), Fronts(acts));
    R.InstalledShard(FrontConfig(b), Run(b, acts).value.front, s);
  }
}
