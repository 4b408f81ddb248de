/** The optimistic scheduler across any number of shards, as a transition system.

Every transaction reads the stores as they were when the batch began, wherever the keys
live, executes once on its home shard and stages its writes with their owners, who record
the readers and writers of their keys. Two rounds of reports separate the phases: only when
every shard has announced that its transactions are staged does a shard work out the
failures on its keys, and only when every shard has published those does it install. */
module AriaProtocol {
  import opened Model
  import opened Router
  import opened AriaStates
  import K = Locking

  /** `home` is the shard that coordinates each transaction. */
  datatype Config = Config(layout: Layout, txs: seq<K.Txn>, home: seq<nat>, base: Store)

  ghost predicate Valid(c: Config) {
    && ValidLayout(c.layout) && |c.home| == |c.txs|
    && (forall i | 0 <= i < |c.txs| :: K.ValidTxn(c.txs[i]))
    && (forall i | 0 <= i < |c.txs| :: c.home[i] < c.layout.shardCount)
  }

  // ---------------------------------------------------------------- specification

  /** The execution of a transaction on the store of the batch start. */
  function Out(c: Config, i: nat): TxOutput
    requires i < |c.txs|
  {
    c.txs[i].run(ReadMany(c.base, c.txs[i].readSet))
  }

  predicate WritesKey(c: Config, i: nat, k: Key) {
    i < |c.txs| && Writes(Out(c, i).writes, k)
  }

  /** Reading or writing what an earlier transaction of the batch writes. */
  predicate FailsAt(c: Config, k: Key, i: nat) {
    i < |c.txs| && k in c.txs[i].readSet && exists j | 0 <= j < i :: WritesKey(c, j, k)
  }

  /** The failed set of the whole batch, by the rule applied to all keys of all shards. */
  function FailedSet(c: Config): set<nat> {
    set i, k | 0 <= i < |c.txs| && k in c.txs[i].readSet && FailsAt(c, k, i) :: i
  }

  function LocalFailed(c: Config, s: nat): set<nat> {
    set i, k | 0 <= i < |c.txs| && k in c.txs[i].readSet && c.layout.shardFor(k) == s && FailsAt(c, k, i) :: i
  }

  /** The store after the transactions outside the failed set among the first `n`. */
  function SpecStore(c: Config, n: nat): Store
    requires n <= |c.txs|
  {
    if n == 0 then c.base
    else if n - 1 in FailedSet(c) then SpecStore(c, n - 1)
    else ApplyWrites(SpecStore(c, n - 1), Out(c, n - 1).writes)
  }

  lemma OutWithin(c: Config, i: nat)
    requires Valid(c) && i < |c.txs|
    ensures WritesWithin(Out(c, i).writes, c.txs[i].writeSet) && c.txs[i].writeSet <= c.txs[i].readSet
  {
    assert K.ValidTxn(c.txs[i]);
  }

  lemma WritesKeyWithin(c: Config, i: nat, k: Key)
    requires Valid(c) && WritesKey(c, i, k)
    ensures k in c.txs[i].writeSet && k in c.txs[i].readSet
  {
    OutWithin(c, i);
    var n :| 0 <= n < |Out(c, i).writes| && Out(c, i).writes[n].key == k;
  }

  lemma WritesMore(writes: seq<WriteOp>, k: Key)
    requires writes != []
    ensures Writes(writes[..|writes| - 1], k) ==> Writes(writes, k)
    ensures writes[|writes| - 1].key == k ==> Writes(writes, k)
  {
    var front := writes[..|writes| - 1];
    if n :| 0 <= n < |front| && front[n].key == k {
      assert writes[n].key == k;
    }
  }

  lemma {:induction false} UnwrittenVal(writes: seq<WriteOp>, k: Key, before: ReadValue)
    requires !Writes(writes, k)
    ensures LastVal(writes, k, before) == before
  {
    if writes == [] {
    } else {
      WritesMore(writes, k);
      UnwrittenVal(writes[..|writes| - 1], k, before);
    }
  }

  lemma FailedByRule(c: Config, i: nat, k: Key, j: nat)
    requires i < |c.txs| && k in c.txs[i].readSet && j < i
    ensures WritesKey(c, j, k) ==> i in FailedSet(c)
  {
    assert WritesKey(c, j, k) ==> FailsAt(c, k, i);
  }

  /** A key that no committed transaction of the prefix writes keeps its starting value. */
  lemma {:induction false} SpecFrame(c: Config, n: nat, k: Key)
    requires n <= |c.txs| && forall j | 0 <= j < n && WritesKey(c, j, k) :: j in FailedSet(c)
    ensures Val(SpecStore(c, n), k) == Val(c.base, k)
  {
    if n == 0 {
    } else {
      SpecFrame(c, n - 1, k);
      if n - 1 !in FailedSet(c) {
        assert !WritesKey(c, n - 1, k);
        hide FailedSet, Out;
        ApplyWritesVal(SpecStore(c, n - 1), Out(c, n - 1).writes, k);
        UnwrittenVal(Out(c, n - 1).writes, k, Val(SpecStore(c, n - 1), k));
      }
    }
  }

  /** A committed transaction would have read and written the same after the ones before it. */
  lemma CommittedIsSerial(c: Config, i: nat)
    requires Valid(c) && i < |c.txs| && i !in FailedSet(c)
    ensures c.txs[i].run(ReadMany(SpecStore(c, i), c.txs[i].readSet)) == Out(c, i)
    ensures SpecStore(c, i + 1) == K.RunTxn(SpecStore(c, i), c.txs[i])
  {
    forall k | k in c.txs[i].readSet ensures Val(SpecStore(c, i), k) == Val(c.base, k) {
      forall j | 0 <= j < i ensures !WritesKey(c, j, k) {
        FailedByRule(c, i, k, j);
      }
      SpecFrame(c, i, k);
    }
    ReadManySame(SpecStore(c, i), c.base, c.txs[i].readSet);
  }

  lemma FirstCommits(c: Config)
    ensures 0 !in FailedSet(c)
  {
  }

  /** No key is written by two committed transactions. */
  lemma OneCommittedWriter(c: Config, i: nat, j: nat, k: Key)
    requires Valid(c) && WritesKey(c, i, k) && WritesKey(c, j, k) && i !in FailedSet(c) && j !in FailedSet(c)
    ensures i == j
  {
    WritesKeyWithin(c, i, k);
    WritesKeyWithin(c, j, k);
    if i < j {
      FailedByRule(c, j, k, i);
    } else if j < i {
      FailedByRule(c, i, k, j);
    }
  }

  // ---------------------------------------------------------------- the system

  datatype Phase = Reading | Staging(left: set<nat>, out: TxOutput) | Errored

  datatype State = State(
    inflight: map<(nat, Key), ReadValue>,
    views: seq<Reads>,
    phases: seq<Phase>,
    tables: seq<Tables>,
    announced: seq<set<nat>>,
    local: seq<Option<set<nat>>>,
    reported: seq<set<nat>>,
    stores: seq<Store>,
    agreed: map<nat, set<nat>>,
    aborted: set<nat>)

  datatype Action =
    | Capture(i: nat, k: Key)
    | Record(i: nat, k: Key)
    | Execute(i: nat)
    | Stage(i: nat, to: nat)
    | AnnounceDone(s: nat, to: nat)
    | ComputeFailed(s: nat)
    | AnnounceFailed(s: nat, to: nat)
    | Install(s: nat)

  predicate Shape(c: Config, st: State) {
    && |st.views| == |st.phases| == |c.txs| == |c.home|
    && |st.tables| == |st.announced| == |st.local| == |st.reported| == |st.stores| == c.layout.shardCount
  }

  function Init(c: Config): State {
    var n := c.layout.shardCount;
    State(map[], seq(|c.txs|, _ => map[]), seq(|c.txs|, _ => Reading),
      seq(n, _ => Tables(map[], map[], map[], {}, map[])), seq(n, _ => {}), seq(n, _ => None), seq(n, _ => {}),
      seq(n, s requires s >= 0 => Restrict(c.layout, c.base, s)), map[], {})
  }

  function Targets(c: Config, i: nat, out: TxOutput): set<nat>
    requires i < |c.home|
  {
    (set n | 0 <= n < |out.writes| :: c.layout.shardFor(out.writes[n].key)) + {c.home[i]}
  }

  function StagedFor(c: Config, i: nat, s: nat, out: TxOutput): Staged
    requires i < |c.home|
  {
    Staged(if s == c.home[i] then Some(out.result) else None,
           FilterWrites(out.writes, k => c.layout.shardFor(k) == s))
  }

  predicate Finished(st: State, i: nat) {
    i < |st.phases| && st.phases[i].Staging? && st.phases[i].left == {}
  }

  predicate Everyone(c: Config, told: set<nat>) {
    AllReported(told, c.layout.shardCount)
  }

  predicate Enabled(c: Config, st: State, a: Action)
    requires Shape(c, st)
  {
    match a
    case Capture(i, k) =>
      && i < |c.txs| && st.phases[i].Reading? && k in c.txs[i].readSet && k !in st.views[i]
      && (i, k) !in st.inflight && c.layout.shardFor(k) < c.layout.shardCount
    case Record(i, k) =>
      && (i, k) in st.inflight && i < |c.txs| && st.phases[i].Reading? && c.layout.shardFor(k) < c.layout.shardCount
    case Execute(i) => i < |c.txs| && st.phases[i].Reading? && st.views[i].Keys == c.txs[i].readSet
    case Stage(i, to) => i < |c.txs| && st.phases[i].Staging? && to in st.phases[i].left && to < c.layout.shardCount
    case AnnounceDone(s, to) =>
      && s < c.layout.shardCount && to < c.layout.shardCount && to !in st.announced[s]
      && (forall i | 0 <= i < |c.txs| && c.home[i] == s :: Finished(st, i))
    case ComputeFailed(s) =>
      && s < c.layout.shardCount && Everyone(c, st.announced[s]) && Everyone(c, st.tables[s].done) && st.local[s].None?
    case AnnounceFailed(s, to) =>
      s < c.layout.shardCount && to < c.layout.shardCount && st.local[s].Some? && to !in st.reported[s]
    case Install(s) =>
      && s < c.layout.shardCount && Everyone(c, st.reported[s]) && Everyone(c, st.tables[s].failures.Keys)
      && s !in st.agreed
  }

  function DoRecord(c: Config, st: State, i: nat, k: Key): State
    requires Shape(c, st) && Enabled(c, st, Record(i, k))
  {
    var s := c.layout.shardFor(k);
    st.(inflight := st.inflight - {(i, k)},
        tables := st.tables[s := st.tables[s].(readers := Note(st.tables[s].readers, k, i))],
        views := st.views[i := st.views[i][k := st.inflight[(i, k)]]])
  }

  function DoStage(c: Config, st: State, i: nat, to: nat): State
    requires Shape(c, st) && Enabled(c, st, Stage(i, to))
  {
    var p, t := st.phases[i], st.tables[to];
    var outcome := StagedFor(c, i, to, p.out);
    if i in t.staged then st.(phases := st.phases[i := Errored])
    else st.(phases := st.phases[i := Staging(p.left - {to}, p.out)],
             tables := st.tables[to := t.(staged := t.staged[i := outcome],
                                          writers := NoteWrites(t.writers, outcome.writes, i))])
  }

  function DoAnnounceDone(c: Config, st: State, s: nat, to: nat): State
    requires Shape(c, st) && Enabled(c, st, AnnounceDone(s, to))
  {
    var t := st.tables[to];
    if s in t.done then st.(aborted := st.aborted + {s})
    else st.(announced := st.announced[s := st.announced[s] + {to}],
             tables := st.tables[to := t.(done := t.done + {s})])
  }

  function DoAnnounceFailed(c: Config, st: State, s: nat, to: nat): State
    requires Shape(c, st) && Enabled(c, st, AnnounceFailed(s, to))
  {
    var t := st.tables[to];
    if s in t.failures then st.(aborted := st.aborted + {s})
    else st.(reported := st.reported[s := st.reported[s] + {to}],
             tables := st.tables[to := t.(failures := t.failures[s := st.local[s].value])])
  }

  function Union(failures: map<nat, set<nat>>): set<nat> {
    set s, i | s in failures && i in failures[s] :: i
  }

  function DoInstall(c: Config, st: State, s: nat): State
    requires Shape(c, st) && Enabled(c, st, Install(s))
  {
    var failed := Union(st.tables[s].failures);
    st.(stores := st.stores[s := InstallStaged(st.stores[s], st.tables[s].staged, failed, |c.txs|)],
        agreed := st.agreed[s := failed])
  }

  function Next(c: Config, st: State, a: Action): (after: State)
    requires Shape(c, st) && Enabled(c, st, a)
    ensures Shape(c, after)
  {
    match a
    case Capture(i, k) =>
      st.(inflight := st.inflight[(i, k) := Val(st.stores[c.layout.shardFor(k)], k)])
    case Record(i, k) => DoRecord(c, st, i, k)
    case Execute(i) =>
      var out := c.txs[i].run(st.views[i]);
      st.(phases := st.phases[i := Staging(Targets(c, i, out), out)])
    case Stage(i, to) => DoStage(c, st, i, to)
    case AnnounceDone(s, to) => DoAnnounceDone(c, st, s, to)
    case ComputeFailed(s) => st.(local := st.local[s := Some(FailedIndices(st.tables[s]))])
    case AnnounceFailed(s, to) => DoAnnounceFailed(c, st, s, to)
    case Install(s) => DoInstall(c, st, s)
  }

  function Run(c: Config, acts: seq<Action>): (r: Option<State>)
    requires |c.home| == |c.txs|
    ensures r.Some? ==> Shape(c, r.value)
  {
    if acts == [] then Some(Init(c))
    else
      var before := Run(c, acts[..|acts| - 1]);
      if before.Some? && Enabled(c, before.value, acts[|acts| - 1])
      then Some(Next(c, before.value, acts[|acts| - 1])) else None
  }

  // ---------------------------------------------------------------- invariant

  predicate StagedAt(c: Config, st: State, i: nat, s: nat)
    requires Shape(c, st)
  {
    i < |c.txs| && st.phases[i].Staging? && s in Targets(c, i, Out(c, i)) && s !in st.phases[i].left
  }

  ghost predicate TxOk(c: Config, st: State, i: nat)
    requires Shape(c, st) && i < |c.txs|
  {
    && st.views[i].Keys <= c.txs[i].readSet
    && st.views[i] == ReadMany(c.base, st.views[i].Keys)
    && match st.phases[i]
       case Reading => true
       case Staging(left, out) =>
         st.views[i].Keys == c.txs[i].readSet && out == Out(c, i) && left <= Targets(c, i, out)
       case Errored => false
  }

  ghost predicate InflightOk(c: Config, st: State, p: (nat, Key))
    requires Shape(c, st) && p in st.inflight
  {
    && p.0 < |c.txs| && st.phases[p.0].Reading? && p.1 in c.txs[p.0].readSet && p.1 !in st.views[p.0]
    && st.inflight[p] == Val(c.base, p.1)
  }

  /** An owner's tables hold exactly the reads answered and the outcomes staged so far. */
  ghost predicate KeyOk(c: Config, st: State, s: nat, k: Key)
    requires Shape(c, st) && s < c.layout.shardCount
  {
    && (forall i: nat :: i in At(st.tables[s].readers, k) <==>
          c.layout.shardFor(k) == s && i < |c.txs| && k in st.views[i])
    && (forall i: nat :: i in At(st.tables[s].writers, k) <==>
          c.layout.shardFor(k) == s && StagedAt(c, st, i, s) && WritesKey(c, i, k))
  }

  ghost predicate StageOk(c: Config, st: State, s: nat, i: nat)
    requires Shape(c, st) && s < c.layout.shardCount
  {
    && (i in st.tables[s].staged <==> StagedAt(c, st, i, s))
    && (i in st.tables[s].staged && i < |c.txs| ==> st.tables[s].staged[i] == StagedFor(c, i, s, Out(c, i)))
  }

  ghost predicate HomeFinished(c: Config, st: State, s: nat)
    requires Shape(c, st)
  {
    forall i | 0 <= i < |c.txs| && c.home[i] == s :: Finished(st, i)
  }

  /** Reports received are exactly reports sent, and they are true. */
  ghost predicate ReportOk(c: Config, st: State, from: nat, to: nat)
    requires Shape(c, st) && from < c.layout.shardCount && to < c.layout.shardCount
  {
    && (from in st.tables[to].done <==> to in st.announced[from])
    && (to in st.announced[from] ==> HomeFinished(c, st, from))
    && (from in st.tables[to].failures <==> to in st.reported[from])
    && (from in st.tables[to].failures ==> st.tables[to].failures[from] == LocalFailed(c, from) && st.local[from].Some?)
  }

  ghost predicate AllFinished(c: Config, st: State) {
    forall i | 0 <= i < |c.txs| :: Finished(st, i)
  }

  ghost predicate ShardOk(c: Config, st: State, s: nat)
    requires Shape(c, st) && s < c.layout.shardCount
  {
    && (st.local[s].Some? ==> st.local[s].value == LocalFailed(c, s) && AllFinished(c, st))
    && (forall t | t in st.tables[s].failures :: t < c.layout.shardCount)
    && (s in st.agreed ==> AllFinished(c, st) && st.agreed[s] == FailedSet(c))
    && st.stores[s] == Restrict(c.layout, if s in st.agreed then SpecStore(c, |c.txs|) else c.base, s)
  }

  ghost predicate Inv(c: Config, st: State) {
    && Valid(c) && Shape(c, st) && st.aborted == {}
    && (forall i | 0 <= i < |c.txs| :: TxOk(c, st, i))
    && (forall p | p in st.inflight :: InflightOk(c, st, p))
    && (forall s: nat, k | s < c.layout.shardCount :: KeyOk(c, st, s, k))
    && (forall s: nat, i: nat | s < c.layout.shardCount :: StageOk(c, st, s, i))
    && (forall from: nat, to: nat | from < c.layout.shardCount && to < c.layout.shardCount :: ReportOk(c, st, from, to))
    && (forall s: nat | s < c.layout.shardCount :: ShardOk(c, st, s))
  }

  lemma InvShape(c: Config, st: State)
    requires Inv(c, st)
    ensures Valid(c) && Shape(c, st) && st.aborted == {}
  {
  }

  lemma TxAt(c: Config, st: State, i: nat)
    requires Inv(c, st) && i < |c.txs|
    ensures Shape(c, st) && TxOk(c, st, i)
  {
  }

  lemma InflightAt(c: Config, st: State, p: (nat, Key))
    requires Inv(c, st) && p in st.inflight
    ensures Shape(c, st) && InflightOk(c, st, p)
  {
  }

  lemma KeyAt(c: Config, st: State, s: nat, k: Key)
    requires Inv(c, st) && s < c.layout.shardCount
    ensures Shape(c, st) && KeyOk(c, st, s, k)
  {
  }

  lemma StageAt(c: Config, st: State, s: nat, i: nat)
    requires Inv(c, st) && s < c.layout.shardCount
    ensures Shape(c, st) && StageOk(c, st, s, i)
  {
  }

  lemma ReportAt(c: Config, st: State, from: nat, to: nat)
    requires Inv(c, st) && from < c.layout.shardCount && to < c.layout.shardCount
    ensures Shape(c, st) && ReportOk(c, st, from, to)
  {
  }

  lemma ShardAt(c: Config, st: State, s: nat)
    requires Inv(c, st) && s < c.layout.shardCount
    ensures Shape(c, st) && ShardOk(c, st, s)
  {
  }

  lemma InvIntro(c: Config, st: State)
    requires Valid(c) && Shape(c, st) && st.aborted == {}
    requires forall i | 0 <= i < |c.txs| :: TxOk(c, st, i)
    requires forall p | p in st.inflight :: InflightOk(c, st, p)
    requires forall s: nat, k | s < c.layout.shardCount :: KeyOk(c, st, s, k)
    requires forall s: nat, i: nat | s < c.layout.shardCount :: StageOk(c, st, s, i)
    requires forall from: nat, to: nat | from < c.layout.shardCount && to < c.layout.shardCount :: ReportOk(c, st, from, to)
    requires forall s: nat | s < c.layout.shardCount :: ShardOk(c, st, s)
    ensures Inv(c, st)
  {
  }

  lemma InitInv(c: Config)
    requires Valid(c)
    ensures Inv(c, Init(c))
  {
    var st := Init(c);
    forall i | 0 <= i < |c.txs| ensures TxOk(c, st, i) {
    }
    forall s: nat | s < c.layout.shardCount ensures ShardOk(c, st, s) {
    }
    forall s: nat, k | s < c.layout.shardCount ensures KeyOk(c, st, s, k) {
    }
    InvIntro(c, st);
  }

  // ---------------------------------------------------------------- what changes

  /** A step that leaves the reports and stores alone, and unfinishes nothing. */
  ghost predicate QuietStep(c: Config, st: State, after: State) {
    && Shape(c, st) && Shape(c, after) && after.aborted == st.aborted
    && after.announced == st.announced && after.local == st.local && after.reported == st.reported
    && after.stores == st.stores && after.agreed == st.agreed
    && (forall i: nat | Finished(st, i) :: Finished(after, i))
    && (forall s | 0 <= s < c.layout.shardCount ::
          after.tables[s].done == st.tables[s].done && after.tables[s].failures == st.tables[s].failures)
  }

  lemma QuietShard(c: Config, st: State, after: State)
    requires Inv(c, st) && QuietStep(c, st, after)
    ensures forall s: nat | s < c.layout.shardCount :: ShardOk(c, after, s)
    ensures forall from: nat, to: nat | from < c.layout.shardCount && to < c.layout.shardCount :: ReportOk(c, after, from, to)
  {
    hide Inv;
    InvShape(c, st);
    hide LocalFailed, FailedSet, SpecStore, Restrict, Finished;
    forall s: nat | s < c.layout.shardCount ensures ShardOk(c, after, s) {
      ShardAt(c, st, s);
    }
    forall from: nat, to: nat | from < c.layout.shardCount && to < c.layout.shardCount ensures ReportOk(c, after, from, to) {
      ReportAt(c, st, from, to);
    }
  }

  /** A step that leaves the transactions and the reader and writer tables alone. */
  ghost predicate ReportStep(c: Config, st: State, after: State) {
    && Shape(c, st) && Shape(c, after)
    && after.inflight == st.inflight && after.views == st.views && after.phases == st.phases
    && (forall s | 0 <= s < c.layout.shardCount ::
          && after.tables[s].readers == st.tables[s].readers && after.tables[s].writers == st.tables[s].writers
          && after.tables[s].staged == st.tables[s].staged)
  }

  lemma ReportTxs(c: Config, st: State, after: State)
    requires Inv(c, st) && ReportStep(c, st, after)
    ensures forall i | 0 <= i < |c.txs| :: TxOk(c, after, i)
    ensures forall p | p in after.inflight :: InflightOk(c, after, p)
    ensures forall s: nat, k | s < c.layout.shardCount :: KeyOk(c, after, s, k)
    ensures forall s: nat, i: nat | s < c.layout.shardCount :: StageOk(c, after, s, i)
    ensures forall i: nat :: Finished(st, i) <==> Finished(after, i)
  {
    hide Inv;
    InvShape(c, st);
    forall i | 0 <= i < |c.txs| ensures TxOk(c, after, i) {
      TxAt(c, st, i);
    }
    hide Out, WritesKey, Targets, StagedFor, ReadMany, At;
    forall p | p in after.inflight ensures InflightOk(c, after, p) {
      InflightAt(c, st, p);
    }
    forall s: nat, k | s < c.layout.shardCount ensures KeyOk(c, after, s, k) {
      KeyAt(c, st, s, k);
    }
    forall s: nat, i: nat | s < c.layout.shardCount ensures StageOk(c, after, s, i) {
      StageAt(c, st, s, i);
    }
  }

  // ---------------------------------------------------------------- reading

  /** Barrier safety, first half: while any read is outstanding every store is the one the
  batch began with, so each captured value is the snapshot value. */
  lemma SnapshotReads(c: Config, st: State, i: nat, s: nat)
    requires Inv(c, st) && i < |c.txs| && s < c.layout.shardCount && !Finished(st, i)
    ensures Shape(c, st) && s !in st.agreed && st.stores[s] == Restrict(c.layout, c.base, s)
  {
    hide Inv;
    InvShape(c, st);
    ShardAt(c, st, s);
  }

  lemma CaptureInv(c: Config, st: State, i: nat, k: Key)
    requires Inv(c, st) && Shape(c, st) && Enabled(c, st, Capture(i, k))
    ensures Inv(c, Next(c, st, Capture(i, k)))
  {
    hide Inv;
    InvShape(c, st);
    var after := Next(c, st, Capture(i, k));
    SnapshotReads(c, st, i, c.layout.shardFor(k));
    RestrictVal(c.layout, c.base, c.layout.shardFor(k), k);
    QuietShard(c, st, after);
    forall p | p in after.inflight ensures InflightOk(c, after, p) {
      if p in st.inflight {
        InflightAt(c, st, p);
      }
    }
    forall j | 0 <= j < |c.txs| ensures TxOk(c, after, j) {
      TxAt(c, st, j);
    }
    hide Out, WritesKey, Targets, StagedFor, ReadMany, At;
    forall s: nat, key | s < c.layout.shardCount ensures KeyOk(c, after, s, key) {
      KeyAt(c, st, s, key);
    }
    forall s: nat, j: nat | s < c.layout.shardCount ensures StageOk(c, after, s, j) {
      StageAt(c, st, s, j);
    }
    InvIntro(c, after);
  }

  lemma RecordInv(c: Config, st: State, i: nat, k: Key)
    requires Inv(c, st) && Shape(c, st) && Enabled(c, st, Record(i, k))
    ensures Inv(c, Next(c, st, Record(i, k)))
  {
    hide Inv;
    InvShape(c, st);
    var after := Next(c, st, Record(i, k));
    InflightAt(c, st, (i, k));
    QuietShard(c, st, after);
    forall j | 0 <= j < |c.txs| ensures TxOk(c, after, j) {
      TxAt(c, st, j);
      RecordTx(c, st, i, k, j);
    }
    hide Out, WritesKey, Targets, StagedFor, ReadMany;
    forall p | p in after.inflight ensures InflightOk(c, after, p) {
      InflightAt(c, st, p);
    }
    forall s: nat, key | s < c.layout.shardCount ensures KeyOk(c, after, s, key) {
      RecordKey(c, st, i, k, s, key);
    }
    forall s: nat, j: nat | s < c.layout.shardCount ensures StageOk(c, after, s, j) {
      StageAt(c, st, s, j);
    }
    InvIntro(c, after);
  }

  lemma RecordKey(c: Config, st: State, i: nat, k: Key, s: nat, key: Key)
    requires Inv(c, st) && Shape(c, st) && Enabled(c, st, Record(i, k)) && s < c.layout.shardCount
    ensures KeyOk(c, DoRecord(c, st, i, k), s, key)
  {
    hide Inv;
    KeyAt(c, st, s, key);
    hide Out, WritesKey, Targets, StagedFor, ReadMany;
  }

  lemma RecordTx(c: Config, st: State, i: nat, k: Key, j: nat)
    requires Inv(c, st) && Shape(c, st) && Enabled(c, st, Record(i, k)) && j < |c.txs|
    ensures TxOk(c, DoRecord(c, st, i, k), j)
  {
    hide Inv;
    InvShape(c, st);
    TxAt(c, st, j);
    InflightAt(c, st, (i, k));
    hide Out, Targets;
  }

  // ---------------------------------------------------------------- executing and staging

  lemma ExecuteInv(c: Config, st: State, i: nat)
    requires Inv(c, st) && Shape(c, st) && Enabled(c, st, Action.Execute(i))
    ensures Inv(c, Next(c, st, Action.Execute(i)))
  {
    hide Inv;
    InvShape(c, st);
    var after := Next(c, st, Action.Execute(i));
    TxAt(c, st, i);
    assert after.phases[i] == Staging(Targets(c, i, Out(c, i)), Out(c, i));
    QuietShard(c, st, after);
    forall j | 0 <= j < |c.txs| ensures TxOk(c, after, j) {
      TxAt(c, st, j);
    }
    hide Out, WritesKey, Targets, StagedFor, ReadMany, At;
    forall p | p in after.inflight ensures InflightOk(c, after, p) {
      InflightAt(c, st, p);
    }
    forall s: nat, key | s < c.layout.shardCount ensures KeyOk(c, after, s, key) {
      KeyAt(c, st, s, key);
    }
    forall s: nat, j: nat | s < c.layout.shardCount ensures StageOk(c, after, s, j) {
      StageAt(c, st, s, j);
    }
    InvIntro(c, after);
  }

  lemma StagedWrites(c: Config, i: nat, s: nat, k: Key)
    requires i < |c.txs| == |c.home|
    ensures Writes(StagedFor(c, i, s, Out(c, i)).writes, k) <==> c.layout.shardFor(k) == s && WritesKey(c, i, k)
  {
    FilterKeepsWrites(Out(c, i).writes, key => c.layout.shardFor(key) == s, k);
  }

  lemma {:induction false} FilterKeepsWrites(writes: seq<WriteOp>, owned: Key -> bool, k: Key)
    ensures Writes(FilterWrites(writes, owned), k) <==> owned(k) && Writes(writes, k)
  {
    if writes == [] {
    } else {
      var front, last := writes[..|writes| - 1], writes[|writes| - 1];
      var kept := FilterWrites(front, owned);
      FilterKeepsWrites(front, owned, k);
      WritesSnoc(front, last, k);
      WritesSnoc(kept, last, k);
      assert front + [last] == writes;
    }
  }

  lemma WritesSnoc(front: seq<WriteOp>, last: WriteOp, k: Key)
    ensures Writes(front + [last], k) <==> Writes(front, k) || last.key == k
  {
    var all := front + [last];
    WritesMore(all, k);
    assert all[..|all| - 1] == front;
    if n :| 0 <= n < |all| && all[n].key == k {
      assert n < |front| ==> front[n].key == k;
    }
  }

  /** Staging notes the owned writes of one more transaction in one shard's tables. */
  lemma StageStep(c: Config, st: State, i: nat, to: nat)
    requires Inv(c, st) && Shape(c, st) && Enabled(c, st, Stage(i, to))
    ensures var outcome, after := StagedFor(c, i, to, Out(c, i)), DoStage(c, st, i, to);
      && after == st.(phases := after.phases, tables := after.tables)
      && after.phases == st.phases[i := Staging(st.phases[i].left - {to}, Out(c, i))]
      && after.tables == st.tables[to := st.tables[to].(staged := st.tables[to].staged[i := outcome],
                                      writers := NoteWrites(st.tables[to].writers, outcome.writes, i))]
    ensures to in Targets(c, i, Out(c, i)) && st.phases[i].out == Out(c, i)
  {
    hide Inv;
    InvShape(c, st);
    TxAt(c, st, i);
    StageAt(c, st, to, i);
  }

  lemma StageFrame(c: Config, st: State, i: nat, to: nat, s: nat, k: Key)
    requires Inv(c, st) && Shape(c, st) && Enabled(c, st, Stage(i, to)) && s < c.layout.shardCount
    ensures var after := DoStage(c, st, i, to);
      && Shape(c, after) && i < |c.txs| && after.views == st.views
      && At(after.tables[s].readers, k) == At(st.tables[s].readers, k)
      && At(after.tables[s].writers, k) ==
           (if s == to && Writes(StagedFor(c, i, to, Out(c, i)).writes, k) then At(st.tables[s].writers, k) + {i}
            else At(st.tables[s].writers, k))
      && forall j: nat :: StagedAt(c, after, j, s) <==> StagedAt(c, st, j, s) || (j == i && s == to)
  {
    hide Inv, Out, WritesKey, Targets, StagedFor, Writes, NoteWrites, DoStage;
    InvShape(c, st);
    StageStep(c, st, i, to);
    NoteWritesAt(st.tables[to].writers, StagedFor(c, i, to, Out(c, i)).writes, i, k);
  }

  lemma StageKey(c: Config, st: State, i: nat, to: nat, s: nat, k: Key)
    requires Inv(c, st) && Shape(c, st) && Enabled(c, st, Stage(i, to)) && s < c.layout.shardCount
    ensures KeyOk(c, DoStage(c, st, i, to), s, k)
  {
    hide Inv, DoStage, StagedAt, Out, WritesKey, Targets, StagedFor, Writes, NoteWrites, Enabled;
    KeyAt(c, st, s, k);
    StageFrame(c, st, i, to, s, k);
    StagedWrites(c, i, to, k);
  }

  lemma StageInv(c: Config, st: State, i: nat, to: nat)
    requires Inv(c, st) && Shape(c, st) && Enabled(c, st, Stage(i, to))
    ensures Inv(c, Next(c, st, Stage(i, to)))
  {
    hide Inv;
    InvShape(c, st);
    var after := Next(c, st, Stage(i, to));
    TxAt(c, st, i);
    StageAt(c, st, to, i);
    assert after.phases[i] == Staging(st.phases[i].left - {to}, Out(c, i));
    QuietShard(c, st, after);
    forall j | 0 <= j < |c.txs| ensures TxOk(c, after, j) {
      TxAt(c, st, j);
    }
    hide Out, WritesKey, Targets, StagedFor, ReadMany, At;
    forall p | p in after.inflight ensures InflightOk(c, after, p) {
      InflightAt(c, st, p);
    }
    forall s: nat, key | s < c.layout.shardCount ensures KeyOk(c, after, s, key) {
      StageKey(c, st, i, to, s, key);
    }
    forall s: nat, j: nat | s < c.layout.shardCount ensures StageOk(c, after, s, j) {
      StageAt(c, st, s, j);
    }
    InvIntro(c, after);
  }

  // ---------------------------------------------------------------- the two rounds of reports

  lemma AnnounceDoneInv(c: Config, st: State, s: nat, to: nat)
    requires Inv(c, st) && Shape(c, st) && Enabled(c, st, AnnounceDone(s, to))
    ensures Inv(c, Next(c, st, AnnounceDone(s, to)))
  {
    hide Inv;
    InvShape(c, st);
    ReportAt(c, st, s, to);
    var after := Next(c, st, AnnounceDone(s, to));
    ReportTxs(c, st, after);
    hide LocalFailed, FailedSet, SpecStore, Restrict, Finished;
    forall t: nat | t < c.layout.shardCount ensures ShardOk(c, after, t) {
      ShardAt(c, st, t);
    }
    forall a: nat, b: nat | a < c.layout.shardCount && b < c.layout.shardCount ensures ReportOk(c, after, a, b) {
      ReportAt(c, st, a, b);
    }
    InvIntro(c, after);
  }

  lemma AnnounceFailedInv(c: Config, st: State, s: nat, to: nat)
    requires Inv(c, st) && Shape(c, st) && Enabled(c, st, AnnounceFailed(s, to))
    ensures Inv(c, Next(c, st, AnnounceFailed(s, to)))
  {
    hide Inv, LocalFailed, FailedSet, SpecStore, Restrict, Finished;
    InvShape(c, st);
    ReportAt(c, st, s, to);
    ShardAt(c, st, s);
    var after := Next(c, st, AnnounceFailed(s, to));
    ReportTxs(c, st, after);
    forall t: nat | t < c.layout.shardCount ensures ShardOk(c, after, t) {
      ShardAt(c, st, t);
    }
    forall a: nat, b: nat | a < c.layout.shardCount && b < c.layout.shardCount ensures ReportOk(c, after, a, b) {
      ReportAt(c, st, a, b);
    }
    InvIntro(c, after);
  }

  /** The first barrier: all done reports at one shard mean every transaction of the batch is
  staged everywhere. */
  lemma BarrierPassed(c: Config, st: State, s: nat)
    requires Inv(c, st) && s < c.layout.shardCount && Shape(c, st) && Everyone(c, st.tables[s].done)
    ensures AllFinished(c, st)
  {
    hide Inv;
    InvShape(c, st);
    forall i | 0 <= i < |c.txs| ensures Finished(st, i) {
      ReportAt(c, st, c.home[i], s);
    }
  }

  /** Finished tables: the readers of a key are the transactions that read it and the writers
  those whose execution wrote it. */
  lemma CompleteTables(c: Config, st: State, s: nat, k: Key, i: nat)
    requires Inv(c, st) && s < c.layout.shardCount && Shape(c, st) && AllFinished(c, st)
    ensures i in At(st.tables[s].readers, k) <==> c.layout.shardFor(k) == s && i < |c.txs| && k in c.txs[i].readSet
    ensures i in At(st.tables[s].writers, k) <==> c.layout.shardFor(k) == s && WritesKey(c, i, k)
  {
    hide Inv;
    InvShape(c, st);
    KeyAt(c, st, s, k);
    if i < |c.txs| {
      TxAt(c, st, i);
      assert Finished(st, i);
      if WritesKey(c, i, k) {
        var n :| 0 <= n < |Out(c, i).writes| && Out(c, i).writes[n].key == k;
        assert c.layout.shardFor(k) in Targets(c, i, Out(c, i));
      }
    }
  }

  lemma FailsIsFailsAt(c: Config, st: State, s: nat, k: Key, i: nat)
    requires Inv(c, st) && s < c.layout.shardCount && Shape(c, st) && AllFinished(c, st)
    ensures Fails(st.tables[s], k, i) <==> c.layout.shardFor(k) == s && FailsAt(c, k, i)
  {
    hide Inv;
    InvShape(c, st);
    forall j: nat
      ensures j in At(st.tables[s].readers, k) <==> c.layout.shardFor(k) == s && j < |c.txs| && k in c.txs[j].readSet
      ensures j in At(st.tables[s].writers, k) <==> c.layout.shardFor(k) == s && WritesKey(c, j, k)
      ensures WritesKey(c, j, k) ==> j < |c.txs| && k in c.txs[j].readSet
    {
      CompleteTables(c, st, s, k, j);
      if WritesKey(c, j, k) {
        WritesKeyWithin(c, j, k);
      }
    }
    hide WritesKey, At, AllFinished;
  }

  /** A shard's own failed set is the batch rule on the keys it owns. */
  lemma LocalFailedIs(c: Config, st: State, s: nat)
    requires Inv(c, st) && s < c.layout.shardCount && Shape(c, st) && AllFinished(c, st)
    ensures FailedIndices(st.tables[s]) == LocalFailed(c, s)
  {
    hide Inv;
    forall i ensures i in FailedIndices(st.tables[s]) <==> i in LocalFailed(c, s) {
      FailedMeans(st.tables[s], i);
      forall k ensures Fails(st.tables[s], k, i) <==> c.layout.shardFor(k) == s && FailsAt(c, k, i) {
        FailsIsFailsAt(c, st, s, k, i);
      }
      hide Fails, FailedIndices;
    }
  }

  lemma ComputeFailedInv(c: Config, st: State, s: nat)
    requires Inv(c, st) && Shape(c, st) && Enabled(c, st, ComputeFailed(s))
    ensures Inv(c, Next(c, st, ComputeFailed(s)))
  {
    hide Inv;
    InvShape(c, st);
    BarrierPassed(c, st, s);
    LocalFailedIs(c, st, s);
    var after := Next(c, st, ComputeFailed(s));
    ReportTxs(c, st, after);
    hide LocalFailed, FailedSet, SpecStore, Restrict, Finished, FailedIndices;
    forall t: nat | t < c.layout.shardCount ensures ShardOk(c, after, t) {
      ShardAt(c, st, t);
    }
    forall a: nat, b: nat | a < c.layout.shardCount && b < c.layout.shardCount ensures ReportOk(c, after, a, b) {
      ReportAt(c, st, a, b);
    }
    InvIntro(c, after);
  }

  // ---------------------------------------------------------------- installing

  lemma FailedSetIsUnion(c: Config, i: nat)
    requires Valid(c)
    ensures i in FailedSet(c) <==> exists s: nat :: s < c.layout.shardCount && i in LocalFailed(c, s)
  {
    if i in FailedSet(c) {
      var k :| k in c.txs[i].readSet && FailsAt(c, k, i);
      assert i in LocalFailed(c, c.layout.shardFor(k));
    }
  }

  /** The second barrier: the union of all reports at one shard is the batch rule, whichever
  shard takes it. */
  lemma UnionIsFailedSet(c: Config, st: State, s: nat)
    requires Inv(c, st) && Shape(c, st) && s < c.layout.shardCount && Everyone(c, st.tables[s].failures.Keys)
    ensures Union(st.tables[s].failures) == FailedSet(c)
  {
    hide Inv;
    InvShape(c, st);
    ShardAt(c, st, s);
    forall t: nat | t < c.layout.shardCount ensures t in st.tables[s].failures && st.tables[s].failures[t] == LocalFailed(c, t) {
      ReportAt(c, st, t, s);
    }
    forall i ensures i in Union(st.tables[s].failures) <==> i in FailedSet(c) {
      FailedSetIsUnion(c, i);
      hide FailedSet, LocalFailed;
    }
  }

  /** Owned writes applied to a shard's part give the shard's part of the result. */
  lemma RestrictWrites(l: Layout, store: Store, writes: seq<WriteOp>, s: nat)
    ensures ApplyWrites(Restrict(l, store, s), FilterWrites(writes, k => l.shardFor(k) == s)) ==
            Restrict(l, ApplyWrites(store, writes), s)
  {
    var owned := k => l.shardFor(k) == s;
    var local := FilterWrites(writes, owned);
    var got, want := ApplyWrites(Restrict(l, store, s), local), Restrict(l, ApplyWrites(store, writes), s);
    forall k ensures Val(got, k) == Val(want, k) {
      ApplyWritesVal(Restrict(l, store, s), local, k);
      ApplyWritesVal(store, writes, k);
      if owned(k) {
        FilterWritesVal(writes, owned, k, Val(store, k));
      } else {
        FilterKeepsWrites(writes, owned, k);
        UnwrittenVal(local, k, Missing);
      }
    }
    StoreExt(got, want);
  }

  lemma InstallNone(c: Config, s: nat, staged: map<nat, Staged>)
    ensures InstallStaged(Restrict(c.layout, c.base, s), staged, FailedSet(c), 0) ==
            Restrict(c.layout, SpecStore(c, 0), s)
  {
    hide FailedSet, Restrict;
  }

  lemma InstallNext(store: Store, staged: map<nat, Staged>, failed: set<nat>, i: nat)
    ensures InstallStaged(store, staged, failed, i + 1) ==
            var before := InstallStaged(store, staged, failed, i);
            if i in staged && i !in failed then ApplyWrites(before, staged[i].writes) else before
  {
  }

  lemma ShapeTables(c: Config, st: State)
    requires Shape(c, st)
    ensures |st.tables| == c.layout.shardCount
  {
  }

  lemma {:induction false} InstalledStore(c: Config, st: State, s: nat, n: nat)
    requires Inv(c, st) && Shape(c, st) && s < c.layout.shardCount && AllFinished(c, st) && n <= |c.txs|
    ensures InstallStaged(Restrict(c.layout, c.base, s), st.tables[s].staged, FailedSet(c), n) ==
            Restrict(c.layout, SpecStore(c, n), s)
  {
    hide *;
    ShapeTables(c, st);
    if n == 0 {
      InstallNone(c, s, st.tables[s].staged);
    } else {
      InstalledStore(c, st, s, n - 1);
      InstallOne(c, st, s, n - 1);
      InstallNext(Restrict(c.layout, c.base, s), st.tables[s].staged, FailedSet(c), n - 1);
    }
  }

  lemma InstallOne(c: Config, st: State, s: nat, i: nat)
    requires Inv(c, st) && Shape(c, st) && s < c.layout.shardCount && AllFinished(c, st) && i < |c.txs|
    ensures var before, staged := Restrict(c.layout, SpecStore(c, i), s), st.tables[s].staged;
      (if i in staged && i !in FailedSet(c) then ApplyWrites(before, staged[i].writes) else before) ==
        Restrict(c.layout, SpecStore(c, i + 1), s)
  {
    hide Inv;
    InvShape(c, st);
    StageAt(c, st, s, i);
    TxAt(c, st, i);
    assert Finished(st, i);
    RestrictWrites(c.layout, SpecStore(c, i), Out(c, i).writes, s);
    if s !in Targets(c, i, Out(c, i)) {
      NothingOwned(c.layout, Out(c, i).writes, s);
    }
  }

  lemma {:induction false} NothingOwned(l: Layout, writes: seq<WriteOp>, s: nat)
    requires forall n | 0 <= n < |writes| :: l.shardFor(writes[n].key) != s
    ensures FilterWrites(writes, k => l.shardFor(k) == s) == []
  {
    if writes == [] {
    } else {
      NothingOwned(l, writes[..|writes| - 1], s);
    }
  }

  lemma InstallInv(c: Config, st: State, s: nat)
    requires Inv(c, st) && Shape(c, st) && Enabled(c, st, Install(s))
    ensures Inv(c, Next(c, st, Install(s)))
  {
    hide Inv;
    InvShape(c, st);
    UnionIsFailedSet(c, st, s);
    ShardAt(c, st, s);
    ReportAt(c, st, s, s);
    InstalledStore(c, st, s, |c.txs|);
    var after := Next(c, st, Install(s));
    ReportTxs(c, st, after);
    hide LocalFailed, FailedSet, SpecStore, Restrict, Finished, InstallStaged, Union;
    forall t: nat | t < c.layout.shardCount ensures ShardOk(c, after, t) {
      ShardAt(c, st, t);
    }
    forall a: nat, b: nat | a < c.layout.shardCount && b < c.layout.shardCount ensures ReportOk(c, after, a, b) {
      ReportAt(c, st, a, b);
    }
    InvIntro(c, after);
  }

  // ---------------------------------------------------------------- every run

  lemma NextInv(c: Config, st: State, a: Action)
    requires Inv(c, st) && Shape(c, st) && Enabled(c, st, a)
    ensures Inv(c, Next(c, st, a))
  {
    hide Inv;
    match a
    case Capture(i, k) => CaptureInv(c, st, i, k);
    case Record(i, k) => RecordInv(c, st, i, k);
    case Execute(i) => ExecuteInv(c, st, i);
    case Stage(i, to) => StageInv(c, st, i, to);
    case AnnounceDone(s, to) => AnnounceDoneInv(c, st, s, to);
    case ComputeFailed(s) => ComputeFailedInv(c, st, s);
    case AnnounceFailed(s, to) => AnnounceFailedInv(c, st, s, to);
    case Install(s) => InstallInv(c, st, s);
  }

  /** Every state of every run satisfies the invariant. */
  lemma {:induction false} RunInv(c: Config, acts: seq<Action>)
    requires Valid(c) && Run(c, acts).Some?
    ensures Inv(c, Run(c, acts).value)
  {
    if acts == [] {
      InitInv(c);
    } else {
      hide Inv;
      RunInv(c, acts[..|acts| - 1]);
      NextInv(c, Run(c, acts[..|acts| - 1]).value, acts[|acts| - 1]);
    }
  }
}
