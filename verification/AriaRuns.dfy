/** What every run of the optimistic scheduler achieves: barriers that hold, one failed set,
no deadlock, and the specified store on every shard. */
module AriaRuns {
  import opened Model
  import opened Router
  import opened AriaStates
  import opened AriaProtocol
  import opened Sums

  // ---------------------------------------------------------------- barrier safety

  /** Once a shard has every done report, its tables are those of the whole batch and no step
  of any run changes a reader, a writer or a staged outcome anywhere. */
  lemma TablesFrozen(c: Config, st: State, s: nat, a: Action, t: nat)
    requires Inv(c, st) && Shape(c, st) && s < c.layout.shardCount && t < c.layout.shardCount
    requires Everyone(c, st.tables[s].done) && Enabled(c, st, a)
    ensures FailedIndices(st.tables[t]) == LocalFailed(c, t)
    ensures Next(c, st, a).tables[t].readers == st.tables[t].readers
    ensures Next(c, st, a).tables[t].writers == st.tables[t].writers
    ensures Next(c, st, a).tables[t].staged == st.tables[t].staged
  {
    hide Inv, Everyone, Finished, AllFinished, FailedIndices, LocalFailed, Next, Enabled;
    BarrierPassed(c, st, s);
    LocalFailedIs(c, st, t);
    NothingLeft(c, st);
    FrozenStep(c, st, a, t);
  }

  /** Once everything is staged only reports and installations are left. */
  lemma FrozenStep(c: Config, st: State, a: Action, t: nat)
    requires Shape(c, st) && Enabled(c, st, a) && t < c.layout.shardCount
    requires forall i | 0 <= i < |c.txs| :: st.phases[i].Staging? && st.phases[i].left == {}
    ensures Next(c, st, a).tables[t].readers == st.tables[t].readers
    ensures Next(c, st, a).tables[t].writers == st.tables[t].writers
    ensures Next(c, st, a).tables[t].staged == st.tables[t].staged
  {
    hide FailedIndices, Everyone, Targets, StagedFor, NoteWrites, ReadMany, Restrict;
  }

  lemma NothingLeft(c: Config, st: State)
    requires Shape(c, st) && AllFinished(c, st)
    ensures forall i | 0 <= i < |c.txs| :: st.phases[i].Staging? && st.phases[i].left == {}
  {
    forall i | 0 <= i < |c.txs| ensures st.phases[i].Staging? && st.phases[i].left == {} {
      assert Finished(st, i);
    }
  }

  /** No store is written while a transaction of the batch still reads or stages. */
  lemma NoEarlyWrite(c: Config, st: State, a: Action, i: nat)
    requires Inv(c, st) && Shape(c, st) && Enabled(c, st, a) && i < |c.txs| && !Finished(st, i)
    ensures Next(c, st, a).stores == st.stores
  {
    hide Inv;
    if a.Install? {
      InstallNeedsAll(c, st, a.s);
    }
  }

  lemma InstallNeedsAll(c: Config, st: State, s: nat)
    requires Inv(c, st) && Shape(c, st) && Enabled(c, st, Install(s))
    ensures AllFinished(c, st)
  {
    hide Inv;
    InvShape(c, st);
    ReportAt(c, st, s, s);
    ShardAt(c, st, s);
  }

  /** All shards that install agree on the failed set, which is the rule over the whole batch. */
  lemma OneFailedSet(c: Config, st: State, s: nat, t: nat)
    requires Inv(c, st) && Shape(c, st) && s < c.layout.shardCount && t < c.layout.shardCount
    requires s in st.agreed && t in st.agreed
    ensures st.agreed[s] == st.agreed[t] == FailedSet(c)
  {
    hide Inv;
    ShardAt(c, st, s);
    ShardAt(c, st, t);
  }

  // ---------------------------------------------------------------- completion

  ghost predicate Complete(c: Config, st: State) {
    forall s: nat | s < c.layout.shardCount :: s in st.agreed
  }

  lemma InstalledShard(c: Config, st: State, s: nat)
    requires Inv(c, st) && Shape(c, st) && s < c.layout.shardCount && s in st.agreed
    ensures st.stores[s] == Restrict(c.layout, SpecStore(c, |c.txs|), s) && st.agreed[s] == FailedSet(c)
  {
    hide Inv;
    ShardAt(c, st, s);
  }

  /** What an installed shard has staged: the outcomes of the transactions it coordinates or
  whose writes it owns, with the result only where it coordinates. */
  lemma InstalledStaged(c: Config, st: State, s: nat, i: nat)
    requires Inv(c, st) && Shape(c, st) && s < c.layout.shardCount && s in st.agreed && i < |c.txs|
    ensures var staged := st.tables[s].staged;
      && (i in staged <==> c.home[i] == s || exists k :: c.layout.shardFor(k) == s && WritesKey(c, i, k))
      && (i in staged ==> staged[i] == StagedFor(c, i, s, Out(c, i)))
  {
    hide Inv, Out;
    ShardAt(c, st, s);
    StageAt(c, st, s, i);
    TxAt(c, st, i);
    assert Finished(st, i);
    var writes := Out(c, i).writes;
    if n :| 0 <= n < |writes| && c.layout.shardFor(writes[n].key) == s {
      assert WritesKey(c, i, writes[n].key);
    }
    if k :| c.layout.shardFor(k) == s && WritesKey(c, i, k) {
      var n :| 0 <= n < |writes| && writes[n].key == k;
      assert c.layout.shardFor(writes[n].key) in Targets(c, i, Out(c, i));
    }
    hide StagedFor, WritesKey;
  }

  lemma CompleteIsSpecified(c: Config, st: State)
    requires Inv(c, st) && Shape(c, st) && Complete(c, st)
    ensures Merge(st.stores) == SpecStore(c, |c.txs|)
    ensures forall s: nat | s < c.layout.shardCount :: st.agreed[s] == FailedSet(c)
  {
    hide Inv;
    InvShape(c, st);
    forall s: nat | s < c.layout.shardCount
      ensures st.stores[s] == Restrict(c.layout, SpecStore(c, |c.txs|), s) && st.agreed[s] == FailedSet(c)
    {
      InstalledShard(c, st, s);
    }
    hide SpecStore, FailedSet;
    MergeRestores(c.layout, st.stores, SpecStore(c, |c.txs|));
  }

  // ---------------------------------------------------------------- no deadlock

  /** Before the barrier no transaction waits for another: each unfinished one has a step of
  its own to take. */
  lemma ReaderMoves(c: Config, st: State, i: nat) returns (a: Action)
    requires Inv(c, st) && Shape(c, st) && i < |c.txs| && !Finished(st, i)
    ensures Enabled(c, st, a) && StepOf(a, i)
  {
    hide Inv;
    InvShape(c, st);
    TxAt(c, st, i);
    if st.phases[i].Staging? {
      var to :| to in st.phases[i].left;
      assert to < c.layout.shardCount;
      a := Stage(i, to);
    } else if k :| k in c.txs[i].readSet && k !in st.views[i] {
      a := if (i, k) in st.inflight then Record(i, k) else Capture(i, k);
    } else {
      a := Action.Execute(i);
    }
  }

  /** A shard announces itself done as soon as the transactions it coordinates are staged. */
  lemma AnnouncesAlone(c: Config, st: State, s: nat, to: nat)
    requires Shape(c, st) && s < c.layout.shardCount && to < c.layout.shardCount && to !in st.announced[s]
    requires forall i | 0 <= i < |c.txs| && c.home[i] == s :: Finished(st, i)
    ensures Enabled(c, st, AnnounceDone(s, to))
  {
  }

  /** Deadlock freedom at the level of the guards. */
  lemma Progress(c: Config, st: State) returns (a: Action)
    requires Inv(c, st) && Shape(c, st) && !Complete(c, st)
    ensures Enabled(c, st, a)
  {
    hide Inv;
    InvShape(c, st);
    if i :| 0 <= i < |c.txs| && !Finished(st, i) {
      a := ReaderMoves(c, st, i);
      return;
    }
    if s: nat, to: nat :| s < c.layout.shardCount && to < c.layout.shardCount && to !in st.announced[s] {
      return AnnounceDone(s, to);
    }
    if s: nat :| s < c.layout.shardCount && st.local[s].None? {
      AllAnnounced(c, st, s);
      return ComputeFailed(s);
    }
    if s: nat, to: nat :| s < c.layout.shardCount && to < c.layout.shardCount && to !in st.reported[s] {
      return AnnounceFailed(s, to);
    }
    var s: nat :| s < c.layout.shardCount && s !in st.agreed;
    AllPublished(c, st, s);
    a := Install(s);
  }

  lemma AllAnnounced(c: Config, st: State, s: nat)
    requires Inv(c, st) && Shape(c, st) && s < c.layout.shardCount
    requires forall t: nat, to: nat | t < c.layout.shardCount && to < c.layout.shardCount :: to in st.announced[t]
    ensures Everyone(c, st.announced[s]) && Everyone(c, st.tables[s].done)
  {
    hide Inv;
    forall t: nat | t < c.layout.shardCount ensures t in st.tables[s].done {
      ReportAt(c, st, t, s);
    }
  }

  lemma AllPublished(c: Config, st: State, s: nat)
    requires Inv(c, st) && Shape(c, st) && s < c.layout.shardCount
    requires forall t: nat, to: nat | t < c.layout.shardCount && to < c.layout.shardCount :: to in st.reported[t]
    ensures Everyone(c, st.reported[s]) && Everyone(c, st.tables[s].failures.Keys)
  {
    hide Inv;
    forall t: nat | t < c.layout.shardCount ensures t in st.tables[s].failures.Keys {
      ReportAt(c, st, t, s);
    }
  }

  // ---------------------------------------------------------------- termination

  function Unread(c: Config, st: State, i: nat): set<Key>
    requires Shape(c, st) && i < |c.txs|
  {
    set k | k in c.txs[i].readSet && k !in st.views[i]
  }

  /** Keys still to be captured. */
  function Uncaptured(c: Config, st: State, i: nat): set<Key>
    requires Shape(c, st) && i < |c.txs|
  {
    set k | k in c.txs[i].readSet && k !in st.views[i] && (i, k) !in st.inflight
  }

  function TxCost(c: Config, st: State, i: nat): nat {
    if !Shape(c, st) || i >= |c.txs| then 0
    else match st.phases[i]
      case Reading =>
        |Unread(c, st, i)| + |Uncaptured(c, st, i)| + 1 + |Targets(c, i, c.txs[i].run(ReadMany(c.base, c.txs[i].readSet)))|
      case Staging(left, _) => |left|
      case Errored => 0
  }

  function Untold(c: Config, told: set<nat>): set<nat> {
    set s: nat | s < c.layout.shardCount && s !in told
  }

  function ShardCost(c: Config, st: State, s: nat): nat {
    if !Shape(c, st) || s >= c.layout.shardCount then 0
    else |Untold(c, st.announced[s])| + |Untold(c, st.reported[s])|
         + (if st.local[s].None? then 1 else 0) + (if s in st.agreed then 0 else 1)
  }

  function Measure(c: Config, st: State): nat {
    Sum(|c.txs|, i => TxCost(c, st, i)) + Sum(c.layout.shardCount, s => ShardCost(c, st, s))
  }

  lemma TxDrop(c: Config, st: State, after: State, i: nat)
    requires i < |c.txs|
    requires TxCost(c, after, i) < TxCost(c, st, i)
    requires forall j: nat | j != i :: TxCost(c, after, j) == TxCost(c, st, j)
    requires forall s: nat :: ShardCost(c, after, s) == ShardCost(c, st, s)
    ensures Measure(c, after) < Measure(c, st)
  {
    SumChange(|c.txs|, j => TxCost(c, st, j), j => TxCost(c, after, j), i);
    SumSame(c.layout.shardCount, s => ShardCost(c, st, s), s => ShardCost(c, after, s));
  }

  lemma ShardDrop(c: Config, st: State, after: State, s: nat)
    requires s < c.layout.shardCount
    requires ShardCost(c, after, s) < ShardCost(c, st, s)
    requires forall t: nat | t != s :: ShardCost(c, after, t) == ShardCost(c, st, t)
    requires forall j: nat :: TxCost(c, after, j) == TxCost(c, st, j)
    ensures Measure(c, after) < Measure(c, st)
  {
    SumChange(c.layout.shardCount, t => ShardCost(c, st, t), t => ShardCost(c, after, t), s);
    SumSame(|c.txs|, j => TxCost(c, st, j), j => TxCost(c, after, j));
  }

  predicate StepOf(a: Action, i: nat) {
    a == Action.Execute(i) || (a.Capture? && a.i == i) || (a.Record? && a.i == i) || (a.Stage? && a.i == i)
  }

  /** Each step of a transaction leaves it less to do and touches no other cost. */
  lemma TxDrops(c: Config, st: State, a: Action, i: nat)
    requires Inv(c, st) && Shape(c, st) && Enabled(c, st, a)
    requires StepOf(a, i)
    ensures TxCost(c, Next(c, st, a), i) < TxCost(c, st, i)
  {
    hide Inv, FailedIndices, Everyone;
    InvShape(c, st);
    TxAt(c, st, i);
    var after := Next(c, st, a);
    match a
    case Capture(_, k) =>
      SmallerSet(Uncaptured(c, after, i), Uncaptured(c, st, i));
      assert k in Uncaptured(c, st, i) && Unread(c, after, i) == Unread(c, st, i);
    case Record(_, k) =>
      InflightAt(c, st, (i, k));
      SmallerSet(Unread(c, after, i), Unread(c, st, i));
      assert k in Unread(c, st, i) && Uncaptured(c, after, i) == Uncaptured(c, st, i);
    case Execute(_) =>
    case Stage(_, to) =>
      StageAt(c, st, to, i);
      SmallerSet(st.phases[i].left - {to}, st.phases[i].left);
    case _ =>
  }

  lemma StepFrame(c: Config, st: State, a: Action, i: nat, j: nat)
    requires Shape(c, st) && Enabled(c, st, a) && StepOf(a, i) && i != j && j < |c.txs|
    ensures Next(c, st, a).views[j] == st.views[j] && Next(c, st, a).phases[j] == st.phases[j]
    ensures forall k :: (j, k) in Next(c, st, a).inflight <==> (j, k) in st.inflight
  {
    hide FailedIndices, Everyone, Targets, ReadMany;
  }

  lemma OtherTxCost(c: Config, st: State, a: Action, i: nat, j: nat)
    requires Shape(c, st) && Enabled(c, st, a) && StepOf(a, i) && i != j
    ensures TxCost(c, Next(c, st, a), j) == TxCost(c, st, j)
  {
    hide Next, Enabled, Targets, ReadMany;
    if j < |c.txs| {
      StepFrame(c, st, a, i, j);
      assert Unread(c, Next(c, st, a), j) == Unread(c, st, j);
      assert Uncaptured(c, Next(c, st, a), j) == Uncaptured(c, st, j);
    }
  }

  lemma SameShardCost(c: Config, st: State, a: Action, i: nat, s: nat)
    requires Shape(c, st) && Enabled(c, st, a) && StepOf(a, i)
    ensures ShardCost(c, Next(c, st, a), s) == ShardCost(c, st, s)
  {
  }

  lemma TxStepDrops(c: Config, st: State, a: Action, i: nat)
    requires Inv(c, st) && Shape(c, st) && Enabled(c, st, a) && StepOf(a, i)
    ensures Measure(c, Next(c, st, a)) < Measure(c, st)
  {
    TxDrops(c, st, a, i);
    var after := Next(c, st, a);
    assert i < |c.txs|;
    hide *;
    forall j: nat | j != i ensures TxCost(c, after, j) == TxCost(c, st, j) {
      OtherTxCost(c, st, a, i, j);
    }
    forall s: nat ensures ShardCost(c, after, s) == ShardCost(c, st, s) {
      SameShardCost(c, st, a, i, s);
    }
    TxDrop(c, st, after, i);
  }

  predicate ShardStep(a: Action, s: nat) {
    (a.AnnounceDone? && a.s == s) || (a.ComputeFailed? && a.s == s) || (a.AnnounceFailed? && a.s == s) || a == Install(s)
  }

  lemma ShardStepTxs(c: Config, st: State, a: Action, s: nat, j: nat)
    requires Shape(c, st) && Enabled(c, st, a) && ShardStep(a, s)
    ensures TxCost(c, Next(c, st, a), j) == TxCost(c, st, j)
  {
    hide FailedIndices, Everyone, Targets, ReadMany;
    var after := Next(c, st, a);
    if j < |c.txs| {
      assert Unread(c, after, j) == Unread(c, st, j);
      assert Uncaptured(c, after, j) == Uncaptured(c, st, j);
    }
  }

  lemma ShardStepOthers(c: Config, st: State, a: Action, s: nat, t: nat)
    requires Shape(c, st) && Enabled(c, st, a) && ShardStep(a, s) && s != t
    ensures ShardCost(c, Next(c, st, a), t) == ShardCost(c, st, t)
  {
    hide FailedIndices, Everyone, Untold;
  }

  /** What a reporting or installing shard has left to do gets less. */
  lemma ShardStepCost(c: Config, st: State, a: Action, s: nat)
    requires Inv(c, st) && Shape(c, st) && Enabled(c, st, a) && ShardStep(a, s)
    ensures s < c.layout.shardCount && ShardCost(c, Next(c, st, a), s) < ShardCost(c, st, s)
  {
    hide Inv, FailedIndices, Everyone;
    InvShape(c, st);
    var after := Next(c, st, a);
    if a.AnnounceDone? || a.AnnounceFailed? {
      ReportAt(c, st, s, a.to);
    }
    SmallerSet(Untold(c, after.announced[s]), Untold(c, st.announced[s]));
    SmallerSet(Untold(c, after.reported[s]), Untold(c, st.reported[s]));
    assert a.AnnounceDone? ==> a.to in Untold(c, st.announced[s]);
    assert a.AnnounceFailed? ==> a.to in Untold(c, st.reported[s]);
    hide Untold;
  }

  lemma ShardStepDrops(c: Config, st: State, a: Action, s: nat)
    requires Inv(c, st) && Shape(c, st) && Enabled(c, st, a) && ShardStep(a, s)
    ensures Measure(c, Next(c, st, a)) < Measure(c, st)
  {
    hide *;
    var after := Next(c, st, a);
    ShardStepCost(c, st, a, s);
    forall t: nat | t != s ensures ShardCost(c, after, t) == ShardCost(c, st, t) {
      ShardStepOthers(c, st, a, s, t);
    }
    forall j: nat ensures TxCost(c, after, j) == TxCost(c, st, j) {
      ShardStepTxs(c, st, a, s, j);
    }
    ShardDrop(c, st, after, s);
  }

  /** Every step of every run strictly decreases the remaining work. */
  lemma NextDrops(c: Config, st: State, a: Action)
    requires Inv(c, st) && Shape(c, st) && Enabled(c, st, a)
    ensures Measure(c, Next(c, st, a)) < Measure(c, st)
  {
    hide Inv, Shape, Enabled, Next, Measure;
    match a
    case Capture(i, _) => TxStepDrops(c, st, a, i);
    case Record(i, _) => TxStepDrops(c, st, a, i);
    case Execute(i) => TxStepDrops(c, st, a, i);
    case Stage(i, _) => TxStepDrops(c, st, a, i);
    case AnnounceDone(s, _) => ShardStepDrops(c, st, a, s);
    case ComputeFailed(s) => ShardStepDrops(c, st, a, s);
    case AnnounceFailed(s, _) => ShardStepDrops(c, st, a, s);
    case Install(s) => ShardStepDrops(c, st, a, s);
  }

  /** No run takes more steps than the work of the initial state. */
  lemma {:induction false} RunsEnd(c: Config, acts: seq<Action>)
    requires Valid(c) && Run(c, acts).Some?
    ensures |acts| + Measure(c, Run(c, acts).value) <= Measure(c, Init(c))
  {
    if acts == [] {
    } else {
      var front := acts[..|acts| - 1];
      RunsEnd(c, front);
      RunInv(c, front);
      hide Inv;
      NextDrops(c, Run(c, front).value, acts[|acts| - 1]);
    }
  }
}
