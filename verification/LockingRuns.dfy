/** What every run of the locking engine achieves: it never gets stuck, it ends, and it
ends with the serial store and the serial results. */
module LockingRuns {
  import opened Model
  import opened Router
  import opened LockTables
  import opened Locking
  import opened Sums

  ghost predicate Complete(c: Config, st: State) {
    && (forall s: nat | s < c.layout.shardCount :: s in st.started)
    && (forall w | w in Wids(c) :: w in st.phases && st.phases[w].Released?)
  }

  /** A finished batch leaves every queue empty and the shard stores merge into the store
  of the serial execution; every active worker reported the serial result and nobody else
  reported anything; no message is left. */
  lemma CompleteIsSerial(c: Config, st: State)
    requires Inv(c, st) && Complete(c, st)
    ensures Merge(st.stores) == Prefix(c, |c.txs|)
    ensures forall k :: Queue(st.queues, k) == []
    ensures forall w | w in Wids(c) && Participant(c, w) && w.shard in c.active[w.tx] ::
              st.phases[w].out == Some(SerialOutput(c, w.tx).result)
    ensures forall w | w in Wids(c) && !(Participant(c, w) && w.shard in c.active[w.tx]) :: st.phases[w].out == None
    ensures st.msgs == {}
  {
    hide Inv;
    InvShape(c, st);
    forall k ensures Queue(st.queues, k) == []
      && Val(st.stores[c.layout.shardFor(k)], k) == Val(Prefix(c, |c.txs|), k)
    {
      KeyQueue(c, st, k);
      KeyValue(c, st, k);
      forall i: nat ensures i !in Queue(st.queues, k) {
        assert Locks(c, i, k) ==> Wid(c.layout.shardFor(k), i) in Wids(c);
      }
      HasMember(Queue(st.queues, k));
    }
    MergeRestores(c.layout, st.stores, Prefix(c, |c.txs|));
    forall w | w in Wids(c) && Participant(c, w) && w.shard in c.active[w.tx]
      ensures st.phases[w].out == Some(SerialOutput(c, w.tx).result)
    {
      WidOk(c, st, w);
    }
    forall w | w in Wids(c) && !(Participant(c, w) && w.shard in c.active[w.tx]) ensures st.phases[w].out == None {
      WidOk(c, st, w);
    }
    forall m | m in st.msgs ensures false {
      NoMessageLeft(c, st, m);
    }
  }

  lemma NoMessageLeft(c: Config, st: State, m: Msg)
    requires Inv(c, st) && Complete(c, st)
    ensures m !in st.msgs
  {
    if m in st.msgs {
      BagOk(c, st, m);
      assert false;
    }
  }

  lemma HasMember(q: seq<nat>)
    ensures q != [] ==> exists i: nat :: i in q
  {
    if q != [] {
      assert q[0] in q;
    }
  }

  // ---------------------------------------------------------------- no deadlock

  ghost predicate AllReleasedBelow(c: Config, st: State, n: nat) {
    forall w | w in Wids(c) && w.tx < n :: w in st.phases && st.phases[w].Released?
  }

  /** The lowest transaction not released everywhere heads every queue it still waits in. */
  lemma LowestHeads(c: Config, st: State, w: Wid)
    requires Inv(c, st) && w in Wids(c) && w.shard in st.started
    requires AllReleasedBelow(c, st, w.tx) && !st.phases[w].Released?
    ensures Participant(c, w) && Heads(c, st.queues, w) == Local(c, w)
  {
    hide Inv;
    WidOk(c, st, w);
    forall k | k in Local(c, w) ensures k in Heads(c, st.queues, w) {
      KeyQueue(c, st, k);
      var q := Queue(st.queues, k);
      assert Locks(c, w.tx, k) && w.tx in q;
      assert q[0] in q && Wid(w.shard, q[0]) in Wids(c);
    }
  }

  /** Locks are all a worker waits for: one that heads every local queue can read. */
  lemma HeadsCanRead(c: Config, st: State, w: Wid)
    requires Inv(c, st) && w in Wids(c) && w.shard in st.started && Participant(c, w) && st.phases[w].Waiting?
    requires forall k | k in Local(c, w) :: Queue(st.queues, k) != [] && Queue(st.queues, k)[0] == w.tx
    ensures Enabled(c, st, LocalRead(w))
  {
    hide Inv;
    InvShape(c, st);
    WidOk(c, st, w);
    assert Heads(c, st.queues, w) == Local(c, w);
  }

  lemma LowestWaiting(c: Config, st: State, w: Wid)
    requires Inv(c, st) && w in Wids(c) && w.shard in st.started
    requires AllReleasedBelow(c, st, w.tx) && st.phases[w].Waiting?
    ensures Enabled(c, st, LocalRead(w))
  {
    hide Inv;
    LowestHeads(c, st, w);
    WidOk(c, st, w);
  }

  /** Some step of the lowest unfinished transaction is always enabled. */
  lemma LowestMoves(c: Config, st: State, w: Wid) returns (a: Action)
    requires Inv(c, st) && w in Wids(c)
    requires forall s: nat | s < c.layout.shardCount :: s in st.started
    requires AllReleasedBelow(c, st, w.tx) && !st.phases[w].Released?
    ensures Enabled(c, st, a)
  {
    hide Inv;
    InvShape(c, st);
    WidOk(c, st, w);
    match st.phases[w]
    case Waiting =>
      LowestWaiting(c, st, w);
      a := LocalRead(w);
    case Done(_) =>
      a := Release(w);
    case Collecting(received, _) =>
      if from :| from in Expected(c, w) && from !in received {
        var v := Wid(from, w.tx);
        assert v in Wids(c);
        if st.phases[v].Waiting? {
          LowestWaiting(c, st, v);
          a := LocalRead(v);
        } else {
          TripleOk(c, st, w.tx, from, w.shard);
          assert w == Wid(w.shard, w.tx);
          a := Deliver(Msg(w.tx, from, w.shard, PrefixReads(c, w.tx, {from})));
        }
      } else {
        assert received == Expected(c, w);
        a := Execute(w);
      }
  }

  /** Deadlock freedom: until the batch is complete some action is enabled. */
  lemma Progress(c: Config, st: State) returns (a: Action)
    requires Inv(c, st) && !Complete(c, st)
    ensures Enabled(c, st, a)
  {
    hide Inv;
    InvShape(c, st);
    if s: nat :| s < c.layout.shardCount && s !in st.started {
      return Start(s);
    }
    var i := 0;
    while i < |c.txs| && forall w | w in Wids(c) && w.tx == i :: st.phases[w].Released?
      invariant i <= |c.txs| && AllReleasedBelow(c, st, i)
    {
      i := i + 1;
    }
    var w :| w in Wids(c) && w.tx == i && !st.phases[w].Released?;
    a := LowestMoves(c, st, w);
  }

  // ---------------------------------------------------------------- termination

  /** The steps a worker still has to take. */
  function Remaining(c: Config, st: State, s: nat, i: nat): nat {
    var w := Wid(s, i);
    if i >= |c.txs| || w !in st.phases then 0
    else match st.phases[w]
      case Waiting => 3 + |Expected(c, w)|
      case Collecting(received, _) => 2 + |Expected(c, w) - received|
      case Done(_) => 1
      case Released(_) => 0
      case Errored => 0
  }

  function Unstarted(c: Config, st: State): set<nat> {
    set s: nat | s < c.layout.shardCount && s !in st.started
  }

  function Measure(c: Config, st: State): nat {
    |Unstarted(c, st)| + Grid(c.layout.shardCount, |c.txs|, (s, i) => Remaining(c, st, s, i))
  }

  lemma WorkerDrop(c: Config, st: State, after: State, w: Wid)
    requires w in Wids(c) && w in st.phases && after.started == st.started
    requires forall v | v != w :: (v in st.phases <==> v in after.phases)
                                 && (v in st.phases ==> st.phases[v] == after.phases[v])
    requires Remaining(c, after, w.shard, w.tx) < Remaining(c, st, w.shard, w.tx)
    ensures Measure(c, after) < Measure(c, st)
  {
    GridChange(c.layout.shardCount, |c.txs|, (s, i) => Remaining(c, st, s, i),
      (s, i) => Remaining(c, after, s, i), w.shard, w.tx);
  }

  lemma StartDrops(c: Config, st: State, s: nat)
    requires Inv(c, st) && Enabled(c, st, Start(s))
    ensures Measure(c, Next(c, st, Start(s))) < Measure(c, st)
  {
    hide Inv;
    InvShape(c, st);
    var after := Next(c, st, Start(s));
    assert Unstarted(c, after) == Unstarted(c, st) - {s};
    assert after.phases == st.phases;
    hide Next;
    var f := (s: nat, i: nat) => Remaining(c, st, s, i);
    var g := (s: nat, i: nat) => Remaining(c, after, s, i);
    GridSame(c.layout.shardCount, |c.txs|, f, g);
  }

  lemma DeliverDrops(c: Config, st: State, m: Msg)
    requires Inv(c, st) && Enabled(c, st, Deliver(m))
    ensures Measure(c, Next(c, st, Deliver(m))) < Measure(c, st)
  {
    hide Inv;
    var w := Wid(m.to, m.tx);
    BagOk(c, st, m);
    DeliverPhase(c, st, m);
    var p := st.phases[w];
    SmallerSet(Expected(c, w) - (p.received + {m.from}), Expected(c, w) - p.received);
    WorkerDrop(c, st, Next(c, st, Deliver(m)), w);
  }

  lemma LocalReadDrops(c: Config, st: State, w: Wid)
    requires Inv(c, st) && Enabled(c, st, LocalRead(w))
    ensures Measure(c, Next(c, st, LocalRead(w))) < Measure(c, st)
  {
    hide Inv;
    InvShape(c, st);
    assert Expected(c, w) - {} == Expected(c, w);
    WorkerDrop(c, st, Next(c, st, LocalRead(w)), w);
  }

  lemma ExecuteDrops(c: Config, st: State, w: Wid)
    requires Inv(c, st) && Enabled(c, st, Execute(w))
    ensures Measure(c, Next(c, st, Execute(w))) < Measure(c, st)
  {
    hide Inv;
    InvShape(c, st);
    ExecuteStore(c, st, w);
    WorkerDrop(c, st, Next(c, st, Execute(w)), w);
  }

  lemma ReleaseDrops(c: Config, st: State, w: Wid)
    requires Inv(c, st) && Enabled(c, st, Release(w))
    ensures Measure(c, Next(c, st, Release(w))) < Measure(c, st)
  {
    hide Inv;
    ReleaseStep(c, st, w);
    assert Next(c, st, Release(w)) == DoRelease(c, st, w);
    hide DoRelease, Next;
    WorkerDrop(c, st, DoRelease(c, st, w), w);
  }

  /** Every step of every run strictly decreases the remaining work. */
  lemma NextDrops(c: Config, st: State, a: Action)
    requires Inv(c, st) && Enabled(c, st, a)
    ensures Measure(c, Next(c, st, a)) < Measure(c, st)
  {
    InvShape(c, st);
    hide *;
    match a
    case Start(s) => StartDrops(c, st, s);
    case Deliver(m) => DeliverDrops(c, st, m);
    case LocalRead(w) => LocalReadDrops(c, st, w);
    case Execute(w) => ExecuteDrops(c, st, w);
    case Release(w) => ReleaseDrops(c, st, w);
  }

  /** No run takes more steps than the work of the initial state. */
  lemma {:induction false} RunsEnd(c: Config, acts: seq<Action>)
    requires Valid(c) && Run(c, acts).Some?
    ensures |acts| + Measure(c, Run(c, acts).value) <= Measure(c, Init(c))
  {
    if acts == [] {
    } else {
      var front := acts[..|acts| - 1];
      RunsEnd(c, front);
      RunInv(c, front);
      NextDrops(c, Run(c, front).value, acts[|acts| - 1]);
    }
  }

  /** Serializability: a run that can go no further has finished the whole batch, its merged
  store is the serial fold of the transactions in batch order, and every active worker
  reported the serial result. */
  lemma MaximalRunIsSerial(c: Config, acts: seq<Action>)
    requires Valid(c) && Run(c, acts).Some?
    requires forall a :: !Enabled(c, Run(c, acts).value, a)
    ensures var st := Run(c, acts).value;
      && Complete(c, st)
      && Merge(st.stores) == Prefix(c, |c.txs|)
      && forall w | w in Wids(c) && Participant(c, w) && w.shard in c.active[w.tx] ::
           st.phases[w].out == Some(SerialOutput(c, w.tx).result)
  {
    hide Inv;
    RunInv(c, acts);
    var st := Run(c, acts).value;
    if !Complete(c, st) {
      var a := Progress(c, st);
      assert false;
    }
    CompleteIsSerial(c, st);
  }
}
