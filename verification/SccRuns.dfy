/** What every run of the semantic scheduler achieves: the shards agree on every verdict, no
run gets stuck before a worker meets an error, and a finished run has installed the specified
store everywhere. */
module SccRuns {
  import opened Model
  import opened Router
  import opened CommitSequences
  import opened SccProtocol
  import opened SccSystem
  import opened Sums

  // ---------------------------------------------------------------- agreement

  /** Verdict agreement: in every state of every interleaving the shards that have settled a
  transaction hold the same verdict, failure or success; a success was reached only if no
  participant saw a failed slot in its prefix; the others hold a no-op. */
  lemma VerdictAgreement(c: Config, st: State, i: nat, s: nat, t: nat)
    requires Inv(c, st) && Shape(c, st) && Wid(s, i) in Wids(c) && Wid(t, i) in Wids(c)
    requires st.phases[Wid(s, i)].Closed? && st.phases[Wid(t, i)].Closed?
    ensures s in Sources(c, i) && t in Sources(c, i) ==> (st.slots[s][i].Failed? <==> st.slots[t][i].Failed?)
    ensures s in Sources(c, i) ==> (st.slots[s][i].Failed? <==> SpecVerdict(c, i).Lost?)
    ensures s in Sources(c, i) && !st.slots[s][i].Failed? ==> forall p | p in Sources(c, i) :: !Sees(c, p, i)
    ensures s !in Sources(c, i) ==> st.slots[s][i] == NoOp
  {
    hide Inv;
    InvShape(c, st);
    WidOk(c, st, Wid(s, i));
    WidOk(c, st, Wid(t, i));
    SoundAt(c, i);
    VerdictBySight(c, i);
  }

  /** What a settled success leaves in a shard's slot: the part of its delta that the shard
  owns, or a no-op if there is none. */
  lemma SettledSlot(c: Config, st: State, i: nat, s: nat)
    requires Inv(c, st) && Shape(c, st) && Wid(s, i) in Wids(c) && st.phases[Wid(s, i)].Closed?
    requires s in Sources(c, i) && SpecVerdict(c, i).Won?
    ensures var slot, delta := st.slots[s][i], SpecVerdict(c, i).delta;
      && (slot.NoOp? <==> forall k | k in delta :: c.layout.shardFor(k) != s)
      && (slot.Delta? <==> exists k :: k in delta && c.layout.shardFor(k) == s)
      && (slot.Delta? ==> slot.delta == map k | k in delta && c.layout.shardFor(k) == s :: delta[k])
  {
    hide Inv;
    InvShape(c, st);
    WidOk(c, st, Wid(s, i));
    SoundAt(c, i);
    var delta := SpecVerdict(c, i).delta;
    hide SpecVerdict, Sources;
    assert LocalDelta(c, s, i, delta) == map k | k in delta && c.layout.shardFor(k) == s :: delta[k];
    if k :| k in delta && c.layout.shardFor(k) == s {
      assert k in LocalDelta(c, s, i, delta);
    }
  }

  ghost predicate Complete(c: Config, st: State) {
    forall s: nat | s < c.layout.shardCount :: s in st.installed
  }

  lemma InstalledClosed(c: Config, st: State, w: Wid)
    requires Inv(c, st) && Shape(c, st) && w in Wids(c) && w.shard in st.installed
    ensures st.slots[w.shard][w.tx] == SpecSlot(c, w.shard, w.tx)
    ensures st.stores[w.shard] == Restrict(c.layout, SpecStore(c, |c.txs|), w.shard)
  {
    hide Inv;
    InvShape(c, st);
    WidOk(c, st, w);
    ShardOk(c, st, w.shard);
  }

  /** An installed shard failed exactly the lost transactions it takes part in and holds
  exactly its part of the specified store. */
  lemma InstalledShard(c: Config, st: State, s: nat)
    requires Inv(c, st) && Shape(c, st) && s < c.layout.shardCount && s in st.installed
    ensures st.stores[s] == Restrict(c.layout, SpecStore(c, |c.txs|), s)
    ensures FailedIndices(st.slots[s]) == set i | i in LostSet(c) && s in Sources(c, i)
  {
    hide Inv;
    InvShape(c, st);
    ShardOk(c, st, s);
    forall i | 0 <= i < |c.txs| ensures st.slots[s][i].Failed? <==> SpecVerdict(c, i).Lost? && s in Sources(c, i) {
      InstalledClosed(c, st, Wid(s, i));
      SoundAt(c, i);
    }
  }

  /** A finished batch: the merged stores are the specified store and the union of the
  shards' failed sets is the lost set. */
  lemma CompleteIsSpecified(c: Config, st: State)
    requires Inv(c, st) && Shape(c, st) && Complete(c, st)
    ensures Merge(st.stores) == SpecStore(c, |c.txs|)
    ensures forall i :: i in LostSet(c) <==>
              exists s: nat :: s < c.layout.shardCount && i in FailedIndices(st.slots[s])
  {
    hide Inv;
    InvShape(c, st);
    forall s: nat | s < c.layout.shardCount
      ensures st.stores[s] == Restrict(c.layout, SpecStore(c, |c.txs|), s)
      ensures FailedIndices(st.slots[s]) == set i | i in LostSet(c) && s in Sources(c, i)
    {
      InstalledShard(c, st, s);
    }
    forall i | i in LostSet(c) ensures exists s: nat :: s < c.layout.shardCount && i in FailedIndices(st.slots[s]) {
      assert ValidTxn(c.txs[i], i);
      var k :| k in c.txs[i].readSet;
      assert c.layout.shardFor(k) in Sources(c, i);
      assert i in FailedIndices(st.slots[c.layout.shardFor(k)]);
    }
    hide SpecStore, SpecVerdict, FailedIndices;
    MergeRestores(c.layout, st.stores, SpecStore(c, |c.txs|));
  }

  // ---------------------------------------------------------------- no deadlock

  ghost predicate FinishedBelow(c: Config, st: State, n: nat) {
    forall w | w in Wids(c) && w.tx < n :: w in st.finished
  }

  /** No worker has met an error. */
  ghost predicate Healthy(c: Config, st: State)
    requires Shape(c, st)
  {
    forall w | w in Wids(c) :: !st.phases[w].Errored?
  }

  lemma AbsorbingIsHealthy(c: Config, st: State)
    requires Inv(c, st) && Shape(c, st) && c.absorbing
    ensures Healthy(c, st)
  {
    hide Inv;
    forall w | w in Wids(c) ensures !st.phases[w].Errored? {
      WidOk(c, st, w);
    }
  }

  /** Sending to a participant whose worker is done and whose mailbox no longer accepts. */
  predicate LateSend(c: Config, st: State, a: Action)
    requires Shape(c, st) && Enabled(c, st, a)
  {
    && a.Send? && !c.absorbing
    && (st.phases[Wid(a.to, a.w.tx)].Closed? || st.phases[Wid(a.to, a.w.tx)].Errored?)
  }

  /** Late sends are the only errors: every other step leaves every healthy worker healthy. */
  lemma OnlyLateSendsErr(c: Config, st: State, a: Action, v: Wid)
    requires Inv(c, st) && Shape(c, st) && Enabled(c, st, a) && v in Wids(c)
    requires !st.phases[v].Errored? && !LateSend(c, st, a)
    ensures !Next(c, st, a).phases[v].Errored?
  {
    hide Inv;
    InvShape(c, st);
    match a
    case Skip(w) => WidOk(c, st, w);
    case Materialize(w) => ScanHealthy(c, st, w);
    case Settle(w) => WidOk(c, st, w);
    case Deliver(m) => DeliverHealthy(c, st, m);
    case Decide(w) => DecideHealthy(c, st, w);
    case _ =>
  }

  lemma ScanHealthy(c: Config, st: State, w: Wid)
    requires Inv(c, st) && Shape(c, st) && Enabled(c, st, Materialize(w))
    ensures DoMaterialize(c, st, w).phases == st.phases[w := DoMaterialize(c, st, w).phases[w]]
    ensures DoMaterialize(c, st, w).phases[w].Sending?
  {
    hide Inv;
    WidOk(c, st, w);
    ScanMeans(c, st, w);
    hide WorkerScan, Sees, SpecReads;
  }

  lemma DeliverHealthy(c: Config, st: State, m: Msg)
    requires Inv(c, st) && Shape(c, st) && Enabled(c, st, Deliver(m))
    ensures var w := Wid(m.to, m.tx);
      DoDeliver(c, st, m).phases == st.phases[w := DoDeliver(c, st, m).phases[w]] && !DoDeliver(c, st, m).phases[w].Errored?
  {
    hide Inv;
    var w := Wid(m.to, m.tx);
    WidOk(c, st, w);
    BagOk(c, st, m);
    JoinReads(c, w.tx, st.phases[w].received + {w.shard}, m.from);
    hide SpecReads, Sees;
  }

  lemma DecideHealthy(c: Config, st: State, w: Wid)
    requires Inv(c, st) && Shape(c, st) && Enabled(c, st, Decide(w))
    ensures DoDecide(c, st, w).phases == st.phases[w := Closed]
  {
    hide Inv;
    InvShape(c, st);
    WidOk(c, st, w);
    DecideMeans(c, st, w);
    SoundAt(c, w.tx);
  }

  /** An error is final, and its shard never installs. */
  lemma ErrorIsFinal(c: Config, st: State, a: Action, w: Wid)
    requires Inv(c, st) && Shape(c, st) && Enabled(c, st, a) && w in Wids(c) && st.phases[w].Errored?
    ensures Next(c, st, a).phases[w].Errored? && a != Install(w.shard) && w.shard !in st.installed
  {
    hide Inv;
    WidOk(c, st, w);
  }

  /** A participant waits for its conflicting predecessors on its own shard and for the slots
  of the prefix it reads, and for nothing else. */
  lemma ReadsWhenSettled(c: Config, st: State, w: Wid)
    requires Inv(c, st) && Shape(c, st) && w in Wids(c) && Participant(c, w)
    requires w.shard in st.started && st.phases[w].Idle?
    requires forall u | u in c.txs[w.tx].preds :: Wid(w.shard, u) in st.finished
    requires forall i | 0 <= i < Cut(c, w.tx) :: !st.slots[w.shard][i].Pending?
    ensures Enabled(c, st, Materialize(w))
  {
    hide Inv;
    var keys := LocalKeys(c.layout, c.txs[w.tx].readSet, w.shard);
    ScanEnds(StateOf(ReadMany(st.stores[w.shard], keys)), keys, WriteKeys(c, w.shard), st.slots[w.shard], Cut(c, w.tx));
  }

  /** Waits only look down: below the lowest unfinished transaction everything is settled, so
  its predecessors have finished and its scan never waits. */
  lemma LowestReads(c: Config, st: State, w: Wid)
    requires Inv(c, st) && Shape(c, st) && w in Wids(c) && Participant(c, w)
    requires w.shard in st.started && FinishedBelow(c, st, w.tx) && st.phases[w].Idle?
    ensures Enabled(c, st, Materialize(w))
  {
    hide Inv, Enabled;
    InvShape(c, st);
    assert ValidTxn(c.txs[w.tx], w.tx);
    forall i | 0 <= i < w.tx ensures Wid(w.shard, i) in st.finished && !st.slots[w.shard][i].Pending? {
      WidOk(c, st, Wid(w.shard, i));
    }
    ReadsWhenSettled(c, st, w);
  }

  lemma {:induction false} ScanEnds(start: Store, keys: set<Key>, writeKeys: seq<set<Key>>, slots: seq<SlotState>, n: nat)
    requires n <= |slots| && forall i | 0 <= i < n :: !slots[i].Pending?
    ensures !ScanSlots(start, keys, writeKeys, slots, n).Waits?
  {
    if n == 0 {
    } else {
      ScanEnds(start, keys, writeKeys, slots, n - 1);
    }
  }

  /** The step belongs to some worker of transaction `i`. */
  predicate MovesTx(a: Action, i: nat) {
    match a
    case Start(_) => false
    case Install(_) => false
    case Deliver(m) => m.tx == i
    case Skip(w) => w.tx == i
    case Materialize(w) => w.tx == i
    case Send(w, _) => w.tx == i
    case Settle(w) => w.tx == i
    case Decide(w) => w.tx == i
    case Finish(w) => w.tx == i
  }

  lemma LowestMoves(c: Config, st: State, w: Wid) returns (a: Action)
    requires Inv(c, st) && Shape(c, st) && Healthy(c, st) && w in Wids(c)
    requires forall s: nat | s < c.layout.shardCount :: s in st.started
    requires FinishedBelow(c, st, w.tx) && w !in st.finished
    ensures Enabled(c, st, a) && MovesTx(a, w.tx)
  {
    hide Inv;
    InvShape(c, st);
    WidOk(c, st, w);
    if st.phases[w].Closed? {
      a := Finish(w);
    } else if !Participant(c, w) {
      a := Skip(w);
    } else if st.phases[w].Collecting? {
      a := CollectorMoves(c, st, w);
    } else {
      a := TalkerMoves(c, st, w);
    }
  }

  /** A participant that has not yet told everybody can go on. */
  lemma TalkerMoves(c: Config, st: State, w: Wid) returns (a: Action)
    requires Inv(c, st) && Shape(c, st) && Healthy(c, st) && w in Wids(c) && Participant(c, w)
    requires forall s: nat | s < c.layout.shardCount :: s in st.started
    requires FinishedBelow(c, st, w.tx) && !st.phases[w].Closed? && !st.phases[w].Collecting?
    ensures Enabled(c, st, a) && MovesTx(a, w.tx)
  {
    hide Inv;
    InvShape(c, st);
    WidOk(c, st, w);
    if st.phases[w].Idle? {
      LowestReads(c, st, w);
      a := Materialize(w);
    } else if to :| to in st.phases[w].left {
      assert Wid(to, w.tx) in Wids(c);
      a := Send(w, to);
    } else {
      a := Settle(w);
    }
  }

  lemma CollectorMoves(c: Config, st: State, w: Wid) returns (a: Action)
    requires Inv(c, st) && Shape(c, st) && Healthy(c, st) && w in Wids(c) && Participant(c, w)
    requires forall s: nat | s < c.layout.shardCount :: s in st.started
    requires FinishedBelow(c, st, w.tx) && st.phases[w].Collecting?
    ensures Enabled(c, st, a) && MovesTx(a, w.tx)
  {
    hide Inv, Sees, SpecReads, SpecSlot, WorkerScan;
    InvShape(c, st);
    WidOk(c, st, w);
    if from :| from in Others(c, w) && from !in st.phases[w].received {
      var v := Wid(from, w.tx);
      assert v in Wids(c) && w == Wid(w.shard, w.tx);
      WidOk(c, st, v);
      if HasSent(st, v, w.shard) {
        TripleOk(c, st, w.tx, from, w.shard);
        a := Deliver(Msg(w.tx, from, w.shard, if Sees(c, from, w.tx) then None else Some(SpecReads(c, w.tx, {from}))));
      } else {
        a := TalkerMoves(c, st, v);
      }
    } else {
      assert st.phases[w].received == Others(c, w);
      a := Decide(w);
    }
  }

  /** A shard installs as soon as its own workers are finished, whatever the other shards do. */
  lemma InstallsAlone(c: Config, st: State, s: nat)
    requires Inv(c, st) && Shape(c, st) && s < c.layout.shardCount && s in st.started && s !in st.installed
    requires forall i | 0 <= i < |c.txs| :: Wid(s, i) in st.finished
    ensures Enabled(c, st, Install(s))
  {
    hide Inv;
    InvShape(c, st);
  }

  /** Waits are well-founded: while no worker has met an error, until every shard has installed
  the batch some step is enabled. */
  lemma Progress(c: Config, st: State) returns (a: Action)
    requires Inv(c, st) && Shape(c, st) && Healthy(c, st) && !Complete(c, st)
    ensures Enabled(c, st, a)
  {
    hide Inv;
    InvShape(c, st);
    if s: nat :| s < c.layout.shardCount && s !in st.started {
      return Start(s);
    }
    var i := 0;
    while i < |c.txs| && forall w | w in Wids(c) && w.tx == i :: w in st.finished
      invariant i <= |c.txs| && FinishedBelow(c, st, i)
    {
      i := i + 1;
    }
    if w :| w in Wids(c) && w.tx == i && w !in st.finished {
      a := LowestMoves(c, st, w);
    } else {
      var s: nat :| s < c.layout.shardCount && s !in st.installed;
      forall i | 0 <= i < |c.txs| ensures Wid(s, i) in st.finished {
        assert Wid(s, i) in Wids(c);
      }
      a := Install(s);
    }
  }

  // ---------------------------------------------------------------- termination

  /** What a worker has left to do in a phase it has not finished. */
  function Cost(c: Config, w: Wid, p: Phase): nat
    requires w.tx < |c.txs|
  {
    match p
    case Idle => 2 * |Others(c, w)| + 5
    case Sending(left, _) => |Others(c, w)| + |left| + 4
    case Collecting(received, _) => |Others(c, w) - received| + 3
    case Closed => 1
    case Errored => 0
  }

  function Remaining(c: Config, st: State, s: nat, i: nat): nat {
    var w := Wid(s, i);
    if i >= |c.txs| || w !in st.phases || (w in st.finished && st.phases[w].Closed?) then 0
    else Cost(c, w, st.phases[w])
  }

  function Outstanding(c: Config, done: set<nat>): set<nat> {
    set s: nat | s < c.layout.shardCount && s !in done
  }

  function Measure(c: Config, st: State): nat {
    |Outstanding(c, st.started)| + |Outstanding(c, st.installed + st.aborted)|
    + Grid(c.layout.shardCount, |c.txs|, (s, i) => Remaining(c, st, s, i))
  }

  lemma WorkerDrop(c: Config, st: State, after: State, w: Wid)
    requires w in Wids(c) && after.started == st.started
    requires after.installed == st.installed && after.aborted == st.aborted
    requires forall v | v != w :: (v in st.phases <==> v in after.phases) && (v in st.finished <==> v in after.finished)
                                 && (v in st.phases ==> st.phases[v] == after.phases[v])
    requires Remaining(c, after, w.shard, w.tx) < Remaining(c, st, w.shard, w.tx)
    ensures Measure(c, after) < Measure(c, st)
  {
    GridChange(c.layout.shardCount, |c.txs|, (s, i) => Remaining(c, st, s, i),
      (s, i) => Remaining(c, after, s, i), w.shard, w.tx);
  }

  lemma ShardDrop(c: Config, st: State, after: State)
    requires after.phases == st.phases && after.finished == st.finished
    requires |Outstanding(c, after.started)| + |Outstanding(c, after.installed + after.aborted)| <
             |Outstanding(c, st.started)| + |Outstanding(c, st.installed + st.aborted)|
    ensures Measure(c, after) < Measure(c, st)
  {
    GridSame(c.layout.shardCount, |c.txs|, (s, i) => Remaining(c, st, s, i), (s, i) => Remaining(c, after, s, i));
  }

  /** Closing or failing a busy worker leaves at most its finish. */
  lemma ConcludeDrops(c: Config, st: State, before: State, w: Wid, slot: SlotState)
    requires Shape(c, st) && before == st.(msgs := before.msgs) && w in Wids(c)
    requires !st.phases[w].Closed? && !st.phases[w].Errored?
    ensures Measure(c, Conclude(c, before, w, slot)) < Measure(c, st)
  {
    var after := Conclude(c, before, w, slot);
    WorkerDrop(c, st, after, w);
  }

  lemma MoveDrops(c: Config, st: State, before: State, w: Wid, p: Phase)
    requires Shape(c, st) && before == st.(msgs := before.msgs) && w in Wids(c)
    requires !p.Closed? && !st.phases[w].Closed? && Cost(c, w, p) < Cost(c, w, st.phases[w])
    ensures Measure(c, Move(before, w, p)) < Measure(c, st)
  {
    WorkerDrop(c, st, Move(before, w, p), w);
  }

  lemma WorkerDrops(c: Config, st: State, w: Wid, a: Action)
    requires Shape(c, st) && Enabled(c, st, a)
    requires a == Materialize(w) || a == Settle(w) || a == Decide(w) || a == Skip(w)
    ensures Measure(c, Next(c, st, a)) < Measure(c, st)
  {
    hide Measure, Conclude, WorkerScan, Settled;
    assert Others(c, w) - {} == Others(c, w);
    match a
    case Materialize(_) =>
      MoveDrops(c, st, st, w, DoMaterialize(c, st, w).phases[w]);
    case Skip(_) =>
      ConcludeDrops(c, st, st, w, NoOp);
    case Settle(_) =>
      if st.phases[w].payload.None? {
        ConcludeDrops(c, st, st, w, Failed);
      } else {
        MoveDrops(c, st, st, w, Collecting({}, st.phases[w].payload.value));
      }
    case Decide(_) =>
      MoveDrops(c, st, st, w, Errored);
      ConcludeDrops(c, st, st, w, Settled(c, w.shard, w.tx, c.txs[w.tx].run(st.phases[w].full)));
  }

  lemma FinishDrops(c: Config, st: State, w: Wid)
    requires Shape(c, st) && Enabled(c, st, Finish(w))
    ensures Measure(c, Next(c, st, Finish(w))) < Measure(c, st)
  {
    WorkerDrop(c, st, Next(c, st, Finish(w)), w);
  }

  lemma SendDrops(c: Config, st: State, w: Wid, to: nat)
    requires Shape(c, st) && Enabled(c, st, Send(w, to))
    ensures Measure(c, Next(c, st, Send(w, to))) < Measure(c, st)
  {
    hide Measure;
    var p := st.phases[w];
    var sent := st.(msgs := st.msgs + {Msg(w.tx, w.shard, to, p.payload)});
    SmallerSet(p.left - {to}, p.left);
    MoveDrops(c, st, st, w, Errored);
    MoveDrops(c, st, sent, w, Sending(p.left - {to}, p.payload));
  }

  lemma DeliverDrops(c: Config, st: State, m: Msg)
    requires Shape(c, st) && Enabled(c, st, Deliver(m))
    ensures Measure(c, Next(c, st, Deliver(m))) < Measure(c, st)
  {
    hide Measure, Conclude;
    var w := Wid(m.to, m.tx);
    var p, taken := st.phases[w], st.(msgs := st.msgs - {m});
    if m.from !in Others(c, w) || m.from in p.received {
      MoveDrops(c, st, taken, w, Errored);
    } else if m.payload.None? {
      ConcludeDrops(c, st, taken, w, Failed);
    } else {
      SmallerSet(Others(c, w) - (p.received + {m.from}), Others(c, w) - p.received);
      assert m.from in Others(c, w) - p.received;
      MoveDrops(c, st, taken, w, Errored);
      MoveDrops(c, st, taken, w, Collecting(p.received + {m.from}, p.full + m.payload.value));
    }
  }

  lemma ShardDrops(c: Config, st: State, s: nat, a: Action)
    requires Shape(c, st) && Enabled(c, st, a) && (a == Start(s) || a == Install(s))
    ensures Measure(c, Next(c, st, a)) < Measure(c, st)
  {
    var after := Next(c, st, a);
    SmallerSet(Outstanding(c, after.started), Outstanding(c, st.started));
    SmallerSet(Outstanding(c, after.installed + after.aborted), Outstanding(c, st.installed + st.aborted));
    if a.Start? {
      assert s in Outstanding(c, st.started);
    } else {
      assert s in Outstanding(c, st.installed + st.aborted);
    }
    ShardDrop(c, st, after);
  }

  /** Every step of every run strictly decreases the remaining work. */
  lemma NextDrops(c: Config, st: State, a: Action)
    requires Shape(c, st) && Enabled(c, st, a)
    ensures Measure(c, Next(c, st, a)) < Measure(c, st)
  {
    hide *;
    match a
    case Start(s) => ShardDrops(c, st, s, a);
    case Install(s) => ShardDrops(c, st, s, a);
    case Send(w, to) => SendDrops(c, st, w, to);
    case Deliver(m) => DeliverDrops(c, st, m);
    case Skip(w) => WorkerDrops(c, st, w, a);
    case Materialize(w) => WorkerDrops(c, st, w, a);
    case Settle(w) => WorkerDrops(c, st, w, a);
    case Decide(w) => WorkerDrops(c, st, w, a);
    case Finish(w) => FinishDrops(c, st, w);
  }

  lemma RunMore(c: Config, acts: seq<Action>, a: Action)
    requires Run(c, acts).Some? && Enabled(c, Run(c, acts).value, a)
    ensures Run(c, acts + [a]) == Some(Next(c, Run(c, acts).value, a))
  {
    assert (acts + [a])[..|acts + [a]| - 1] == acts;
  }

  /** No run takes more steps than the work of the initial state. */
  lemma {:induction false} RunsEnd(c: Config, acts: seq<Action>)
    requires Run(c, acts).Some?
    ensures |acts| + Measure(c, Run(c, acts).value) <= Measure(c, Init(c))
  {
    if acts == [] {
    } else {
      var front := acts[..|acts| - 1];
      RunsEnd(c, front);
      NextDrops(c, Run(c, front).value, acts[|acts| - 1]);
    }
  }

  /** A run that can go no further is complete exactly if no message met a closed mailbox. */
  lemma MaximalRunCompletes(c: Config, acts: seq<Action>)
    requires Valid(c) && Sound(c) && Run(c, acts).Some?
    requires forall a :: !Enabled(c, Run(c, acts).value, a)
    ensures Complete(c, Run(c, acts).value) <==> Healthy(c, Run(c, acts).value)
  {
    hide Inv;
    RunInv(c, acts);
    InvShape(c, Run(c, acts).value);
    var st := Run(c, acts).value;
    if Healthy(c, st) {
      if !Complete(c, st) {
        var a := Progress(c, st);
        assert false;
      }
    }
    if Complete(c, st) {
      CompleteIsHealthy(c, st);
    }
  }

  lemma CompleteIsHealthy(c: Config, st: State)
    requires Inv(c, st) && Shape(c, st) && Complete(c, st)
    ensures Healthy(c, st)
  {
    hide Inv;
    forall w | w in Wids(c) ensures !st.phases[w].Errored? {
      WidOk(c, st, w);
    }
  }
}
