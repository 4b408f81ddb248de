/** A run of the semantic scheduler that ends in an error although no shard did anything
wrong. The batch removes the root, which is refused, and then creates a file below it; the
root lives on one shard and the file on another. The root's shard sees the refusal, reports
the second transaction lost and closes its mailbox, while the other shard has not yet sent
the reads it must send. */
module LateSender {
  import opened Model
  import opened Executor
  import opened Namespace
  import opened SemanticTables
  import opened Plans
  import opened Router
  import opened CommitSequences
  import opened SccProtocol
  import opened SccSystem
  import Spec = SccSerial
  import R = SccRuns
  import Sight = SccSight

  const A: Key := Child(Root, "a")
  const OPS: seq<FsOp> := [Unlink(Root), Create(A)]

  function TheBatch(): Config {
    Spec.ConfigOf(Layout(2, k => if k == Root then 0 else 1), OPS, map[], false)
  }

  /** All that the run depends on. */
  predicate Case(c: Config) {
    && c.layout.shardCount == 2 && c.layout.shardFor(Root) == 0 && c.layout.shardFor(A) == 1
    && !c.absorbing && c.base == map[] && |c.txs| == 2
    && c.txs[0].readSet == {Root} && c.txs[0].preds == {} && c.txs[0].bound == 0
    && c.txs[1].readSet == {Root, A} && c.txs[1].preds == {0} && c.txs[1].bound == 1
    && c.txs[0].run(map[Root := Missing]) == Lost
  }

  lemma TheCase()
    ensures Case(TheBatch()) && Valid(TheBatch()) && Sound(TheBatch())
  {
    var c := TheBatch();
    assert Conflict(OPS[0], OPS[1]);
    assert Preds(OPS, 0) == {} && Preds(OPS, 1) == {0};
    assert Bound(OPS, 0) == 0 && Bound(OPS, 1) == 1;
    assert c.txs[0] == Spec.TxnOf(OPS, 0) && c.txs[1] == Spec.TxnOf(OPS, 1);
    assert Spec.Attempt(Unlink(Root), map[Root := Missing]) == Lost;
    assert WellFormed(map[]) && Room(map[], 2) && NoSelfNesting(OPS);
    hide Spec.TxnOf, Spec.Attempt, Bound, Conflict, ReadSet;
    Spec.ConfigValid(c.layout, OPS, map[], false);
    Spec.ConfigSound(c.layout, OPS, map[], false);
  }

  // ---------------------------------------------------------------- the run

  /** What matters of a state; the phases are those of the root's shard and the other shard
  for the first transaction and then for the second. */
  datatype Snap = Snap(started: set<nat>, finished: set<Wid>, phases: seq<Phase>, slots: seq<seq<SlotState>>)

  predicate At(c: Config, st: State, s: Snap) {
    && Shape(c, st) && |s.phases| == 4
    && st.started == s.started && st.finished == s.finished && st.slots == s.slots
    && st.phases == Phases(s.phases)
    && st.stores == [map[], map[]]
  }

  const STEPS: seq<Action> := [
    Start(0), Start(1), Materialize(Wid(0, 0)), Settle(Wid(0, 0)), Decide(Wid(0, 0)), Finish(Wid(0, 0)),
    Materialize(Wid(0, 1)), Send(Wid(0, 1), 1), Settle(Wid(0, 1)),
    Skip(Wid(1, 0)), Finish(Wid(1, 0)), Materialize(Wid(1, 1)), Send(Wid(1, 1), 0)]

  const NONE: seq<SlotState> := [Pending, Pending]

  function Stage(k: nat): Snap {
    var root, other := map[Root := Missing], map[A := Missing];
    match k
    case 0 => Snap({}, {}, [Idle, Idle, Idle, Idle], [NONE, NONE])
    case 1 => Snap({0}, {}, [Idle, Idle, Idle, Idle], [NONE, NONE])
    case 2 => Snap({0, 1}, {}, [Idle, Idle, Idle, Idle], [NONE, NONE])
    case 3 => Snap({0, 1}, {}, [Sending({}, Some(root)), Idle, Idle, Idle], [NONE, NONE])
    case 4 => Snap({0, 1}, {}, [Collecting({}, root), Idle, Idle, Idle], [NONE, NONE])
    case 5 => Snap({0, 1}, {}, [Closed, Idle, Idle, Idle], [[Failed, Pending], NONE])
    case 6 => Snap({0, 1}, {Wid(0, 0)}, [Closed, Idle, Idle, Idle], [[Failed, Pending], NONE])
    case 7 => Snap({0, 1}, {Wid(0, 0)}, [Closed, Idle, Sending({1}, None), Idle], [[Failed, Pending], NONE])
    case 8 => Snap({0, 1}, {Wid(0, 0)}, [Closed, Idle, Sending({}, None), Idle], [[Failed, Pending], NONE])
    case 9 => Snap({0, 1}, {Wid(0, 0)}, [Closed, Idle, Closed, Idle], [[Failed, Failed], NONE])
    case 10 => Snap({0, 1}, {Wid(0, 0)}, [Closed, Closed, Closed, Idle], [[Failed, Failed], [NoOp, Pending]])
    case 11 => Snap({0, 1}, {Wid(0, 0), Wid(1, 0)}, [Closed, Closed, Closed, Idle], [[Failed, Failed], [NoOp, Pending]])
    case 12 => Snap({0, 1}, {Wid(0, 0), Wid(1, 0)}, [Closed, Closed, Closed, Sending({0}, Some(other))], [[Failed, Failed], [NoOp, Pending]])
    case _ => Snap({0, 1}, {Wid(0, 0), Wid(1, 0)}, [Closed, Closed, Closed, Errored], [[Failed, Failed], [NoOp, Pending]])
  }

  lemma Shards(c: Config)
    requires Case(c)
    ensures Sources(c, 0) == {0} && Sources(c, 1) == {0, 1} && Cut(c, 0) == 0 && Cut(c, 1) == 1
    ensures LocalKeys(c.layout, c.txs[0].readSet, 0) == {Root}
    ensures LocalKeys(c.layout, c.txs[1].readSet, 0) == {Root} && LocalKeys(c.layout, c.txs[1].readSet, 1) == {A}
    ensures Wids(c) == {Wid(0, 0), Wid(1, 0), Wid(0, 1), Wid(1, 1)}
  {
    assert Root in c.txs[0].readSet && Root in c.txs[1].readSet && A in c.txs[1].readSet;
    assert c.layout.shardFor(Root) in Sources(c, 0);
    assert c.layout.shardFor(Root) in Sources(c, 1) && c.layout.shardFor(A) in Sources(c, 1);
    forall w ensures w in Wids(c) <==> w in {Wid(0, 0), Wid(1, 0), Wid(0, 1), Wid(1, 1)} {
    }
  }

  lemma Scans(c: Config, st: State, k: nat)
    requires Case(c) && At(c, st, Stage(k)) && (k == 2 || k == 6 || k == 11)
    ensures k == 2 ==> Wid(0, 0) in Wids(c) && WorkerScan(c, st, Wid(0, 0)) == Materialized.Reads(map[Root := Missing])
    ensures k == 6 ==> Wid(0, 1) in Wids(c) && WorkerScan(c, st, Wid(0, 1)) == Failing(Error.SpeculationFailed)
    ensures k == 11 ==> Wid(1, 1) in Wids(c) && WorkerScan(c, st, Wid(1, 1)) == Materialized.Reads(map[A := Missing])
  {
    Shards(c);
    forall keys: set<Key> ensures StateOf(ReadMany(map[], keys)) == map[] {
    }
    assert ReadMany(map[], {Root}) == map[Root := Missing] && ReadMany(map[], {A}) == map[A := Missing];
    hide LocalKeys, Cut, Wids, ReadMany, StateOf, WriteKeys;
    if k == 2 {
      assert ScanSlots(map[], {Root}, WriteKeys(c, 0), st.slots[0], 0) == CommitSequences.At(map[]);
    } else if k == 6 {
      assert ScanSlots(map[], {Root}, WriteKeys(c, 0), st.slots[0], 0) == CommitSequences.At(map[]);
      assert ScanSlots(map[], {Root}, WriteKeys(c, 0), st.slots[0], 1) == SawFailure;
    } else {
      assert ScanSlots(map[], {A}, WriteKeys(c, 1), st.slots[1], 0) == CommitSequences.At(map[]);
      assert ScanSlots(map[], {A}, WriteKeys(c, 1), st.slots[1], 1) == CommitSequences.At(map[]);
    }
  }

  /** The phases after one worker has moved. */
  function Phases(p: seq<Phase>): map<Wid, Phase>
    requires |p| == 4
  {
    map[Wid(0, 0) := p[0], Wid(1, 0) := p[1], Wid(0, 1) := p[2], Wid(1, 1) := p[3]]
  }

  lemma PhasesMoved(p: seq<Phase>, q: Phase)
    requires |p| == 4
    ensures Phases(p)[Wid(0, 0) := q] == Phases([q, p[1], p[2], p[3]])
    ensures Phases(p)[Wid(1, 0) := q] == Phases([p[0], q, p[2], p[3]])
    ensures Phases(p)[Wid(0, 1) := q] == Phases([p[0], p[1], q, p[3]])
    ensures Phases(p)[Wid(1, 1) := q] == Phases([p[0], p[1], p[2], q])
  {
  }

  lemma SlotsMoved()
    ensures [NONE, NONE][0 := NONE[0 := Failed]] == [[Failed, Pending], NONE]
    ensures [[Failed, Pending], NONE][0 := [Failed, Pending][1 := Failed]] == [[Failed, Failed], NONE]
    ensures [[Failed, Failed], NONE][1 := NONE[0 := NoOp]] == [[Failed, Failed], [NoOp, Pending]]
  {
    assert NONE[0 := Failed] == [Failed, Pending] && [Failed, Pending][1 := Failed] == [Failed, Failed];
    assert NONE[0 := NoOp] == [NoOp, Pending];
  }

  lemma StepOk(c: Config, st: State, k: nat)
    requires Case(c) && k < |STEPS| && At(c, st, Stage(k))
    ensures Enabled(c, st, STEPS[k]) && At(c, Next(c, st, STEPS[k]), Stage(k + 1))
  {
    if k == 2 || k == 6 || k == 11 {
      ScanStep(c, st, k);
    } else if k == 3 || k == 4 || k == 8 || k == 9 {
      SlotStep(c, st, k);
    } else if k == 7 || k == 12 {
      SendStep(c, st, k);
    } else {
      Shards(c);
      hide Wids;
    }
  }

  lemma ScanStep(c: Config, st: State, k: nat)
    requires Case(c) && (k == 2 || k == 6 || k == 11) && At(c, st, Stage(k))
    ensures Enabled(c, st, STEPS[k]) && At(c, Next(c, st, STEPS[k]), Stage(k + 1))
  {
    Shards(c);
    Scans(c, st, k);
    hide WorkerScan, Wids, Sources, Cut;
    assert Others(c, Wid(0, 0)) == {} && Others(c, Wid(0, 1)) == {1} && Others(c, Wid(1, 1)) == {0};
    var q := Next(c, st, STEPS[k]).phases[STEPS[k].w];
    PhasesMoved(Stage(k).phases, q);
  }

  lemma SlotStep(c: Config, st: State, k: nat)
    requires Case(c) && (k == 3 || k == 4 || k == 8 || k == 9) && At(c, st, Stage(k))
    ensures Enabled(c, st, STEPS[k]) && At(c, Next(c, st, STEPS[k]), Stage(k + 1))
  {
    Shards(c);
    hide Wids, Sources, Cut;
    assert Others(c, Wid(0, 0)) == {};
    SlotsMoved();
    var q := Next(c, st, STEPS[k]).phases[STEPS[k].w];
    PhasesMoved(Stage(k).phases, q);
  }

  lemma SendStep(c: Config, st: State, k: nat)
    requires Case(c) && (k == 7 || k == 12) && At(c, st, Stage(k))
    ensures Enabled(c, st, STEPS[k]) && At(c, Next(c, st, STEPS[k]), Stage(k + 1))
  {
    Shards(c);
    hide Wids, Sources, Cut;
    assert {1} - {1} == {};
    var q := Next(c, st, STEPS[k]).phases[STEPS[k].w];
    PhasesMoved(Stage(k).phases, q);
  }

  lemma RunStarts(c: Config)
    requires Case(c)
    ensures Run(c, STEPS[..0]).Some? && At(c, Run(c, STEPS[..0]).value, Stage(0))
  {
    Shards(c);
    var st := Init(c);
    assert st.stores[0] == map[] && st.stores[1] == map[];
    assert st.slots[0] == NONE && st.slots[1] == NONE;
    hide Wids;
    assert Init(c).phases == Phases([Idle, Idle, Idle, Idle]);
  }

  lemma RunExtends(c: Config, k: nat)
    requires k < |STEPS| && Run(c, STEPS[..k]).Some? && Enabled(c, Run(c, STEPS[..k]).value, STEPS[k])
    ensures Run(c, STEPS[..k + 1]) == Some(Next(c, Run(c, STEPS[..k]).value, STEPS[k]))
  {
    assert STEPS[..k + 1][..k] == STEPS[..k];
    hide Next, Enabled, Shape, Init;
  }

  lemma {:induction false} RunReaches(c: Config, k: nat)
    requires Case(c) && k <= |STEPS|
    ensures Run(c, STEPS[..k]).Some? && At(c, Run(c, STEPS[..k]).value, Stage(k))
  {
    hide *;
    if k == 0 {
      RunStarts(c);
    } else {
      RunReaches(c, k - 1);
      StepOk(c, Run(c, STEPS[..k - 1]).value, k - 1);
      RunExtends(c, k - 1);
    }
  }

  lemma Ended(c: Config, st: State)
    requires Case(c) && At(c, st, Stage(13))
    ensures Shape(c, st) && !R.Healthy(c, st)
  {
    Shards(c);
    assert Wid(1, 1) in Wids(c) && st.phases[Wid(1, 1)].Errored?;
  }

  /** A reachable state of a two-operation batch on an empty store in which a worker has met
  a closed mailbox. Its second transaction spans the shards and sees the first, which is lost. */
  lemma LateSenderErrs()
    ensures var c := TheBatch();
      && Valid(c) && Sound(c) && Run(c, STEPS).Some?
      && !R.Healthy(c, Run(c, STEPS).value) && !Sight.NoSight(c)
  {
    TheCase();
    RunReaches(TheBatch(), |STEPS|);
    assert STEPS[..|STEPS|] == STEPS && |STEPS| == 13;
    hide *;
    Ended(TheBatch(), Run(TheBatch(), STEPS).value);
    if Sight.NoSight(TheBatch()) {
      Sight.SafelyHealthy(TheBatch(), STEPS);
    }
  }
}
