/** Deterministic locking across any number of shards, as a transition system.

One configuration describes one batch. Every shard enqueues the batch on its own lock
queues, then its workers wait for their grants, read locally, exchange reads with the
other participants, execute redundantly and apply only the writes their shard owns. The
same engine runs a Calvin batch, the SCC fallback and the Aria fallback; only the choice
of active shards differs. A step may be taken by any shard or worker whose guard holds
and messages are an unordered bag, so every interleaving is a run. */
module Locking {
  import opened Model
  import opened Router
  import opened LockTables

  /** A transaction: its footprint and its deterministic execution. */
  datatype Txn = Txn(readSet: set<Key>, writeSet: set<Key>, run: Reads -> TxOutput)

  datatype Config = Config(layout: Layout, txs: seq<Txn>, active: seq<set<nat>>, base: Store)

  ghost predicate ValidTxn(t: Txn) {
    && t.writeSet <= t.readSet
    && forall view: Reads | view.Keys == t.readSet :: WritesWithin(t.run(view).writes, t.writeSet)
  }

  ghost predicate Valid(c: Config) {
    && ValidLayout(c.layout)
    && |c.active| == |c.txs|
    && (forall i | 0 <= i < |c.txs| :: ValidTxn(c.txs[i]))
    && (forall i | 0 <= i < |c.txs| :: Owners(c.layout, c.txs[i].writeSet) <= c.active[i])
    && (forall i, s | 0 <= i < |c.txs| && s in c.active[i] :: s < c.layout.shardCount)
  }

  // ---------------------------------------------------------------- serial meaning

  function RunTxn(store: Store, t: Txn): Store {
    ApplyWrites(store, t.run(ReadMany(store, t.readSet)).writes)
  }

  /** The store after the first `n` transactions of the batch, run one after the other. */
  function Prefix(c: Config, n: nat): Store
    requires n <= |c.txs|
  {
    if n == 0 then c.base else RunTxn(Prefix(c, n - 1), c.txs[n - 1])
  }

  function SerialOutput(c: Config, i: nat): TxOutput
    requires i < |c.txs|
  {
    c.txs[i].run(ReadMany(Prefix(c, i), c.txs[i].readSet))
  }

  /** A key keeps its value across transactions that do not touch it. */
  lemma {:induction false} PrefixFrame(c: Config, a: nat, b: nat, key: Key)
    requires Valid(c) && a <= b <= |c.txs|
    requires forall i | a <= i < b :: !Locks(c, i, key)
    ensures Val(Prefix(c, a), key) == Val(Prefix(c, b), key)
    decreases b
  {
    if a == b {
    } else {
      PrefixFrame(c, a, b - 1, key);
      var t := c.txs[b - 1];
      assert !Locks(c, b - 1, key);
      assert ValidTxn(t);
      ApplyWritesFrame(Prefix(c, b - 1), SerialOutput(c, b - 1).writes, t.writeSet, key);
    }
  }

  // ---------------------------------------------------------------- the system

  datatype Phase =
    | Waiting
    | Collecting(received: set<nat>, full: Reads)
    | Done(out: Option<TxResult>)
    | Released(out: Option<TxResult>)
    | Errored

  datatype Msg = Msg(tx: nat, from: nat, to: nat, view: Reads)

  datatype State = State(
    started: set<nat>,
    stores: seq<Store>,
    queues: Queues,
    granted: map<Wid, set<Key>>,
    phases: map<Wid, Phase>,
    msgs: set<Msg>)

  function Wids(c: Config): set<Wid> {
    set s, i | 0 <= s < c.layout.shardCount && 0 <= i < |c.txs| :: Wid(s, i)
  }

  /** The keys of a transaction that one shard reads and locks. */
  function Local(c: Config, w: Wid): set<Key>
    requires w.tx < |c.txs|
  {
    LocalKeys(c.layout, c.txs[w.tx].readSet, w.shard)
  }

  function Sources(c: Config, i: nat): set<nat>
    requires i < |c.txs|
  {
    Owners(c.layout, c.txs[i].readSet)
  }

  /** The shards that run a worker for a transaction. */
  predicate Participant(c: Config, w: Wid)
    requires |c.active| == |c.txs|
  {
    w.tx < |c.txs| && w.shard < c.layout.shardCount &&
    (w.shard in Sources(c, w.tx) || w.shard in c.active[w.tx])
  }

  /** The remote shards whose reads an active worker collects. */
  function Expected(c: Config, w: Wid): set<nat>
    requires w.tx < |c.txs|
  {
    Sources(c, w.tx) - {w.shard}
  }

  function Heads(c: Config, queues: Queues, w: Wid): set<Key>
    requires w.tx < |c.txs|
  {
    set k | k in Local(c, w) && Queue(queues, k) != [] && Queue(queues, k)[0] == w.tx
  }

  function Init(c: Config): State
    requires |c.active| == |c.txs|
  {
    State(
      {},
      seq(c.layout.shardCount, s requires s >= 0 => Restrict(c.layout, c.base, s)),
      map[],
      map w | w in Wids(c) :: {},
      map w | w in Wids(c) :: if Participant(c, w) then Waiting else Phase.Released(None),
      {})
  }

  datatype Action =
    | Start(shard: nat)
    | LocalRead(w: Wid)
    | Deliver(m: Msg)
    | Execute(w: Wid)
    | Release(w: Wid)

  predicate Enabled(c: Config, st: State, a: Action)
    requires |c.active| == |c.txs|
  {
    match a
    case Start(s) => s < c.layout.shardCount && s !in st.started
    case LocalRead(w) =>
      && Participant(c, w) && w in st.phases && w in st.granted && w.shard < |st.stores|
      && w.shard in st.started
      && st.phases[w].Waiting? && st.granted[w] == Local(c, w)
    case Deliver(m) =>
      && m in st.msgs && m.tx < |c.txs|
      && Wid(m.to, m.tx) in st.phases && st.phases[Wid(m.to, m.tx)].Collecting?
    case Execute(w) =>
      && w.tx < |c.txs| && w in st.phases && w.shard < |st.stores|
      && st.phases[w].Collecting? && st.phases[w].received == Expected(c, w)
    case Release(w) =>
      && w.tx < |c.txs| && w in st.phases && st.phases[w].Done?
  }

  /** A shard enqueues the whole batch in batch order and grants the queue heads. */
  function DoStart(c: Config, st: State, s: nat): State {
    var queues := st.queues + EnqueueAll(seq(|c.txs|, i requires 0 <= i < |c.txs| => Local(c, Wid(s, i))));
    st.(started := st.started + {s},
        queues := queues,
        granted := map w | w in st.granted ::
          if w.shard == s && w.tx < |c.txs| then Heads(c, queues, w) else st.granted[w])
  }

  /** Reads are sent to every other active shard; a passive worker is then done. */
  function DoLocalRead(c: Config, st: State, w: Wid): State
    requires |c.active| == |c.txs|
    requires Enabled(c, st, LocalRead(w))
  {
    var view := ReadMany(st.stores[w.shard], Local(c, w));
    var sent := if w.shard in Sources(c, w.tx)
      then set t | t in c.active[w.tx] && t != w.shard :: Msg(w.tx, w.shard, t, view) else {};
    st.(msgs := st.msgs + sent,
        phases := st.phases[w := if w.shard in c.active[w.tx] then Collecting({}, view) else Done(None)])
  }

  function DoDeliver(c: Config, st: State, m: Msg): State
    requires |c.active| == |c.txs|
    requires Enabled(c, st, Deliver(m))
  {
    var w := Wid(m.to, m.tx);
    var p := st.phases[w];
    var next :=
      if m.from !in Expected(c, w) || m.from in p.received
         || m.view.Keys != Local(c, Wid(m.from, m.tx)) || !(m.view.Keys !! p.full.Keys)
      then Errored
      else Collecting(p.received + {m.from}, p.full + m.view);
    st.(msgs := st.msgs - {m}, phases := st.phases[w := next])
  }

  function LocalWrites(c: Config, out: TxOutput, shard: nat): seq<WriteOp> {
    FilterWrites(out.writes, k => c.layout.shardFor(k) == shard)
  }

  function DoExecute(c: Config, st: State, w: Wid): State
    requires |c.active| == |c.txs|
    requires Enabled(c, st, Execute(w))
  {
    var t := c.txs[w.tx];
    var full := st.phases[w].full;
    var out := t.run(full);
    var local := LocalWrites(c, out, w.shard);
    if full.Keys != t.readSet || !WritesWithin(local, LocalKeys(c.layout, t.writeSet, w.shard)) then
      st.(phases := st.phases[w := Errored])
    else
      st.(stores := st.stores[w.shard := ApplyWrites(st.stores[w.shard], local)],
          phases := st.phases[w := Done(Some(out.result))])
  }

  function DoRelease(c: Config, st: State, w: Wid): State
    requires |c.active| == |c.txs|
    requires Enabled(c, st, Release(w))
  {
    if forall k | k in Local(c, w) :: CanRelease(st.queues, w.tx, k) then
      var queues := ReleaseTx(st.queues, Local(c, w));
      st.(queues := queues,
          granted := map v | v in st.granted ::
            if v.shard == w.shard && v.tx < |c.txs|
            then st.granted[v] + (Heads(c, queues, v) * Local(c, w)) else st.granted[v],
          phases := st.phases[w := Phase.Released(st.phases[w].out)])
    else
      st.(phases := st.phases[w := Errored])
  }

  function Next(c: Config, st: State, a: Action): State
    requires |c.active| == |c.txs|
    requires Enabled(c, st, a)
  {
    match a
    case Start(s) => DoStart(c, st, s)
    case LocalRead(w) => DoLocalRead(c, st, w)
    case Deliver(m) => DoDeliver(c, st, m)
    case Execute(w) => DoExecute(c, st, w)
    case Release(w) => DoRelease(c, st, w)
  }

  /** The state after a sequence of actions, if each one was enabled when taken. */
  function Run(c: Config, acts: seq<Action>): Option<State>
    requires |c.active| == |c.txs|
  {
    if acts == [] then Some(Init(c))
    else
      var before := Run(c, acts[..|acts| - 1]);
      if before.Some? && Enabled(c, before.value, acts[|acts| - 1])
      then Some(Next(c, before.value, acts[|acts| - 1])) else None
  }

  // ---------------------------------------------------------------- invariants

  ghost predicate Shape(c: Config, st: State) {
    && |c.active| == |c.txs| && ValidLayout(c.layout)
    && |st.stores| == c.layout.shardCount
    && OwnedStores(c.layout, st.stores)
    && st.phases.Keys == Wids(c)
    && st.granted.Keys == Wids(c)
    && (forall s | s in st.started :: s < c.layout.shardCount)
  }

  /** A started shard's queues hold, in batch order, the lockers it has not released. */
  ghost predicate QueueOk(c: Config, st: State, k: Key)
    requires Shape(c, st)
  {
    var s := c.layout.shardFor(k);
    var q := Queue(st.queues, k);
    if s in st.started then
      && Increasing(q)
      && (forall i: nat :: i in q <==> Locks(c, i, k) && !st.phases[Wid(s, i)].Released?)
      && (forall i: nat | Locks(c, i, k) && q != [] && i !in q :: i < q[0])
    else k !in st.queues
  }

  predicate Locks(c: Config, i: nat, k: Key) {
    i < |c.txs| && k in c.txs[i].readSet
  }

  /** How far the serial execution has got for a key. */
  function Point(c: Config, st: State, k: Key): nat {
    var s := c.layout.shardFor(k);
    var q := Queue(st.queues, k);
    if q == [] then if s in st.started then |c.txs| else 0
    else if Wid(s, q[0]) in st.phases && st.phases[Wid(s, q[0])].Done? then q[0] + 1 else q[0]
  }

  /** A stored value is the serial value at the point the key has reached. */
  ghost predicate ValueOk(c: Config, st: State, k: Key)
    requires Shape(c, st)
  {
    Point(c, st, k) <= |c.txs| &&
    Val(st.stores[c.layout.shardFor(k)], k) == Val(Prefix(c, Point(c, st, k)), k)
  }

  /** What the serial prefix gives for the keys of a transaction owned by some shards. */
  function PrefixReads(c: Config, i: nat, shards: set<nat>): Reads
    requires i < |c.txs|
  {
    ReadMany(Prefix(c, i), set k | k in c.txs[i].readSet && c.layout.shardFor(k) in shards)
  }

  /** The result an active worker must report. */
  function Expect(c: Config, w: Wid): Option<TxResult>
    requires w.tx < |c.txs| == |c.active|
  {
    if w.shard in c.active[w.tx] then Some(SerialOutput(c, w.tx).result) else None
  }

  /** A worker holds exactly the locks whose queue it heads, and all of them once it has
  read; what it has collected is the serial prefix; it never sees a malformed message. */
  ghost predicate WorkerOk(c: Config, st: State, w: Wid)
    requires Shape(c, st) && w in Wids(c)
  {
    if !Participant(c, w) then st.phases[w] == Phase.Released(None)
    else if w.shard !in st.started then st.phases[w].Waiting? && st.granted[w] == {}
    else
      && (!st.phases[w].Released? ==> st.granted[w] == Heads(c, st.queues, w))
      && match st.phases[w]
         case Waiting => true
         case Collecting(received, full) =>
           && st.granted[w] == Local(c, w)
           && w.shard in c.active[w.tx]
           && received <= Expected(c, w)
           && full == PrefixReads(c, w.tx, received + {w.shard})
         case Done(out) => st.granted[w] == Local(c, w) && out == Expect(c, w)
         case Released(out) => out == Expect(c, w)
         case Errored => false
  }

  predicate HasRead(st: State, w: Wid) {
    w in st.phases && !st.phases[w].Waiting?
  }

  /** Whatever an active worker has collected, its sender has read. */
  ghost predicate GotOk(c: Config, st: State, w: Wid)
    requires Shape(c, st) && w in Wids(c)
  {
    w.shard in c.active[w.tx] ==>
      match st.phases[w]
      case Collecting(received, _) => forall s | s in received :: HasRead(st, Wid(s, w.tx))
      case Done(_) => forall s | s in Expected(c, w) :: HasRead(st, Wid(s, w.tx))
      case Released(_) => forall s | s in Expected(c, w) :: HasRead(st, Wid(s, w.tx))
      case _ => true
  }

  ghost predicate MsgOk(c: Config, st: State, m: Msg)
    requires Shape(c, st)
  {
    && m.tx < |c.txs| && m.from in Sources(c, m.tx) && m.to in c.active[m.tx] && m.to != m.from
    && Wid(m.from, m.tx) in st.phases && Wid(m.to, m.tx) in st.phases
    && HasRead(st, Wid(m.from, m.tx))
    && m.view == PrefixReads(c, m.tx, {m.from})
    && (st.phases[Wid(m.to, m.tx)].Waiting? ||
        (st.phases[Wid(m.to, m.tx)].Collecting? && m.from !in st.phases[Wid(m.to, m.tx)].received))
  }

  /** Reads once sent stay in the bag until the receiver has them. */
  ghost predicate SentOk(c: Config, st: State, i: nat, from: nat, to: nat)
    requires Shape(c, st)
  {
    (i < |c.txs| && from in Sources(c, i) && to in c.active[i] && from != to
     && HasRead(st, Wid(from, i)) && Wid(to, i) in st.phases) ==>
      var q := st.phases[Wid(to, i)];
      q.Done? || q.Released? || (q.Collecting? && from in q.received)
      || Msg(i, from, to, PrefixReads(c, i, {from})) in st.msgs
  }

  ghost predicate Inv(c: Config, st: State) {
    && Valid(c) && Shape(c, st)
    && (forall k :: QueueOk(c, st, k))
    && (forall k :: ValueOk(c, st, k))
    && (forall w | w in Wids(c) :: WorkerOk(c, st, w))
    && (forall w | w in Wids(c) :: GotOk(c, st, w))
    && (forall m | m in st.msgs :: MsgOk(c, st, m))
    && (forall i: nat, from: nat, to: nat :: SentOk(c, st, i, from, to))
  }

  lemma KeyQueue(c: Config, st: State, k: Key)
    requires Inv(c, st)
    ensures Valid(c) && Shape(c, st) && QueueOk(c, st, k)
  {
  }

  lemma KeyValue(c: Config, st: State, k: Key)
    requires Inv(c, st)
    ensures Valid(c) && Shape(c, st) && ValueOk(c, st, k)
  {
  }

  lemma WidOk(c: Config, st: State, w: Wid)
    requires Inv(c, st)
    ensures Valid(c) && Shape(c, st) && (w in Wids(c) ==> WorkerOk(c, st, w) && GotOk(c, st, w))
  {
  }

  lemma BagOk(c: Config, st: State, m: Msg)
    requires Inv(c, st) && m in st.msgs
    ensures Valid(c) && Shape(c, st) && MsgOk(c, st, m)
  {
  }

  lemma TripleOk(c: Config, st: State, i: nat, from: nat, to: nat)
    requires Inv(c, st)
    ensures Valid(c) && Shape(c, st) && SentOk(c, st, i, from, to)
  {
  }

  lemma InvShape(c: Config, st: State)
    requires Inv(c, st)
    ensures Valid(c) && Shape(c, st)
  {
  }

  lemma InvIntro(c: Config, st: State)
    requires Valid(c) && Shape(c, st)
    requires forall k :: QueueOk(c, st, k)
    requires forall k :: ValueOk(c, st, k)
    requires forall w | w in Wids(c) :: WorkerOk(c, st, w)
    requires forall w | w in Wids(c) :: GotOk(c, st, w)
    requires forall m | m in st.msgs :: MsgOk(c, st, m)
    requires forall i: nat, from: nat, to: nat :: SentOk(c, st, i, from, to)
    ensures Inv(c, st)
  {
  }

  lemma InitInv(c: Config)
    requires Valid(c)
    ensures Inv(c, Init(c))
  {
  }

  // ---------------------------------------------------------------- frames

  /** `after` differs from `st` in the phase of one worker, which is past its local read. */
  ghost predicate OnlyPhase(c: Config, st: State, after: State, w: Wid) {
    && Shape(c, st) && Shape(c, after) && w in Wids(c)
    && after.phases == st.phases[w := after.phases[w]]
    && !after.phases[w].Waiting?
  }

  lemma FrameGot(c: Config, st: State, after: State, w: Wid, v: Wid)
    requires OnlyPhase(c, st, after, w) && v in Wids(c) && GotOk(c, st, v)
    requires v == w ==> st.phases[w].Done? && after.phases[w].Released?
    ensures GotOk(c, after, v)
  {
  }

  lemma FrameMsg(c: Config, st: State, after: State, w: Wid, m: Msg)
    requires OnlyPhase(c, st, after, w) && MsgOk(c, st, m) && Wid(m.to, m.tx) != w
    ensures MsgOk(c, after, m)
  {
  }

  lemma FrameSent(c: Config, st: State, after: State, w: Wid, i: nat, from: nat, to: nat)
    requires OnlyPhase(c, st, after, w) && !st.phases[w].Waiting? && SentOk(c, st, i, from, to)
    requires forall m | m in st.msgs && Wid(m.to, m.tx) != w :: m in after.msgs
    requires Wid(to, i) == w ==> after.phases[w].Done? || after.phases[w].Released?
    ensures SentOk(c, after, i, from, to)
  {
  }

  lemma FrameQueue(c: Config, st: State, after: State, w: Wid, k: Key)
    requires OnlyPhase(c, st, after, w) && st.phases[w].Released? == after.phases[w].Released?
    requires st.queues == after.queues && st.started == after.started && QueueOk(c, st, k)
    ensures QueueOk(c, after, k)
  {
    var s := c.layout.shardFor(k);
    assert forall i: nat | Locks(c, i, k) :: Wid(s, i) in Wids(c);
  }

  // ---------------------------------------------------------------- starting a shard

  lemma StartQueues(c: Config, st: State, s: nat, k: Key)
    requires Inv(c, st) && Enabled(c, st, Start(s))
    ensures var q := Queue(DoStart(c, st, s).queues, k);
      if c.layout.shardFor(k) == s
      then Increasing(q) && forall i: nat :: i in q <==> Locks(c, i, k)
      else q == Queue(st.queues, k)
    ensures c.layout.shardFor(k) != s ==> (k in DoStart(c, st, s).queues <==> k in st.queues)
  {
    hide Inv, Valid, EnqueueAll;
    InvShape(c, st);
    var keys := seq(|c.txs|, i requires 0 <= i < |c.txs| => Local(c, Wid(s, i)));
    EnqueueAllQueue(keys, k);
    KeyQueue(c, st, k);
    var q := Queue(EnqueueAll(keys), k);
    assert k in EnqueueAll(keys) ==> q[0] in q;
  }

  lemma StartInv(c: Config, st: State, s: nat)
    requires Inv(c, st) && Enabled(c, st, Start(s))
    ensures Inv(c, DoStart(c, st, s))
  {
    hide Inv;
    InvShape(c, st);
    var after := DoStart(c, st, s);
    assert Shape(c, after);
    forall k ensures QueueOk(c, after, k) {
      StartQueue(c, st, s, k);
    }
    forall k ensures ValueOk(c, after, k) {
      StartValue(c, st, s, k);
    }
    forall w | w in Wids(c) ensures WorkerOk(c, after, w) {
      StartWorker(c, st, s, w);
    }
    forall w | w in Wids(c) ensures GotOk(c, after, w) {
      WidOk(c, st, w);
    }
    forall m | m in after.msgs ensures MsgOk(c, after, m) {
      BagOk(c, st, m);
    }
    forall i: nat, from: nat, to: nat ensures SentOk(c, after, i, from, to) {
      TripleOk(c, st, i, from, to);
    }
    InvIntro(c, after);
  }

  lemma StartQueue(c: Config, st: State, s: nat, k: Key)
    requires Inv(c, st) && Enabled(c, st, Start(s)) && Shape(c, DoStart(c, st, s))
    ensures QueueOk(c, DoStart(c, st, s), k)
  {
    hide Inv, DoStart, Valid, Queue, Wids, Enabled;
    StartQueues(c, st, s, k);
    StartKeeps(c, st, s);
    KeyQueue(c, st, k);
    if c.layout.shardFor(k) == s {
      forall i: nat | Locks(c, i, k) ensures Wid(s, i) in st.phases && st.phases[Wid(s, i)].Waiting? {
        StartWaiting(c, st, s, i, k);
      }
      hide Locks;
    }
  }

  lemma StartKeeps(c: Config, st: State, s: nat)
    requires Inv(c, st) && Enabled(c, st, Start(s))
    ensures DoStart(c, st, s).phases == st.phases && DoStart(c, st, s).started == st.started + {s}
  {
  }

  lemma StartWaiting(c: Config, st: State, s: nat, i: nat, k: Key)
    requires Inv(c, st) && Enabled(c, st, Start(s)) && Locks(c, i, k) && c.layout.shardFor(k) == s
    ensures Wid(s, i) in st.phases && st.phases[Wid(s, i)].Waiting?
  {
    WidOk(c, st, Wid(s, i));
  }

  lemma StartWorker(c: Config, st: State, s: nat, w: Wid)
    requires Inv(c, st) && Enabled(c, st, Start(s)) && Shape(c, DoStart(c, st, s)) && w in Wids(c)
    ensures WorkerOk(c, DoStart(c, st, s), w)
  {
    hide Inv;
    InvShape(c, st);
    var after := DoStart(c, st, s);
    WidOk(c, st, w);
    if w.shard != s {
      forall k | k in Local(c, w) ensures Queue(after.queues, k) == Queue(st.queues, k) {
        StartQueues(c, st, s, k);
      }
      assert Heads(c, after.queues, w) == Heads(c, st.queues, w);
    }
  }

  lemma StartValue(c: Config, st: State, s: nat, k: Key)
    requires Inv(c, st) && Enabled(c, st, Start(s)) && Shape(c, DoStart(c, st, s))
    ensures ValueOk(c, DoStart(c, st, s), k)
  {
    hide Inv, Valid, Prefix, Val, EnqueueAll;
    InvShape(c, st);
    var after := DoStart(c, st, s);
    StartQueues(c, st, s, k);
    KeyQueue(c, st, k);
    KeyValue(c, st, k);
    if c.layout.shardFor(k) == s {
      var q := Queue(after.queues, k);
      assert Point(c, st, k) == 0;
      if q != [] {
        assert q[0] in q;
        WidOk(c, st, Wid(s, q[0]));
      }
      forall i | 0 <= i < Point(c, after, k) ensures !Locks(c, i, k) {
        BelowHead(q, i);
      }
      PrefixFrame(c, 0, Point(c, after, k), k);
    } else {
      assert Point(c, st, k) == Point(c, after, k);
    }
  }

  // ---------------------------------------------------------------- reading locally

  /** A key whose queue a waiting worker heads still holds the serial value before it. */
  lemma HeldValue(c: Config, st: State, w: Wid, k: Key)
    requires Inv(c, st) && w in Wids(c) && Participant(c, w) && w.shard in st.started
    requires k in st.granted[w] && (st.phases[w].Waiting? || st.phases[w].Collecting?)
    ensures k in Local(c, w) && Queue(st.queues, k) != [] && Queue(st.queues, k)[0] == w.tx
    ensures c.layout.shardFor(k) == w.shard
    ensures Val(st.stores[w.shard], k) == Val(Prefix(c, w.tx), k)
  {
    hide Inv;
    InvShape(c, st);
    WidOk(c, st, w);
    KeyValue(c, st, k);
  }

  lemma LocalView(c: Config, st: State, w: Wid)
    requires Inv(c, st) && Enabled(c, st, LocalRead(w))
    ensures ReadMany(st.stores[w.shard], Local(c, w)) == PrefixReads(c, w.tx, {w.shard})
  {
    hide Inv;
    InvShape(c, st);
    forall k | k in Local(c, w) ensures Val(st.stores[w.shard], k) == Val(Prefix(c, w.tx), k) {
      HeldValue(c, st, w, k);
    }
  }

  lemma LocalReadInv(c: Config, st: State, w: Wid)
    requires Inv(c, st) && Enabled(c, st, LocalRead(w))
    ensures Inv(c, DoLocalRead(c, st, w))
  {
    hide Inv, Valid, ValueOk, SentOk, MsgOk;
    InvShape(c, st);
    var after := DoLocalRead(c, st, w);
    assert Shape(c, after);
    forall k ensures QueueOk(c, after, k) {
      KeyQueue(c, st, k);
    }
    forall k ensures ValueOk(c, after, k) {
      LocalReadValue(c, st, w, k);
    }
    forall v | v in Wids(c) ensures WorkerOk(c, after, v) {
      LocalReadWorker(c, st, w, v);
    }
    forall v | v in Wids(c) ensures GotOk(c, after, v) {
      WidOk(c, st, v);
      WidOk(c, st, v);
    }
    forall m | m in after.msgs ensures MsgOk(c, after, m) {
      LocalReadMsg(c, st, w, m);
    }
    forall i: nat, from: nat, to: nat ensures SentOk(c, after, i, from, to) {
      LocalReadSent(c, st, w, i, from, to);
    }
    InvIntro(c, after);
  }

  lemma LocalReadValue(c: Config, st: State, w: Wid, k: Key)
    requires Inv(c, st) && Enabled(c, st, LocalRead(w)) && Shape(c, DoLocalRead(c, st, w))
    ensures ValueOk(c, DoLocalRead(c, st, w), k)
  {
    hide Inv, Valid, Prefix, Val;
    InvShape(c, st);
    var after := DoLocalRead(c, st, w);
    KeyValue(c, st, k);
    var q := Queue(st.queues, k);
    hide Queue, Heads;
    if q != [] && Wid(c.layout.shardFor(k), q[0]) == w && after.phases[w].Done? {
      assert Point(c, st, k) == w.tx && Point(c, after, k) == w.tx + 1;
      PrefixSkip(c, w.tx, k);
    } else {
      assert Point(c, st, k) == Point(c, after, k);
    }
  }

  /** A transaction leaves alone every key of a shard that is not active for it. */
  lemma PrefixSkip(c: Config, i: nat, k: Key)
    requires Valid(c) && i < |c.txs| && c.layout.shardFor(k) !in c.active[i]
    ensures Val(Prefix(c, i + 1), k) == Val(Prefix(c, i), k)
  {
    assert ValidTxn(c.txs[i]);
    assert Owners(c.layout, c.txs[i].writeSet) <= c.active[i];
    assert k !in c.txs[i].writeSet;
    ApplyWritesFrame(Prefix(c, i), SerialOutput(c, i).writes, c.txs[i].writeSet, k);
  }

  lemma LocalReadWorker(c: Config, st: State, w: Wid, v: Wid)
    requires Inv(c, st) && Enabled(c, st, LocalRead(w)) && Shape(c, DoLocalRead(c, st, w)) && v in Wids(c)
    ensures WorkerOk(c, DoLocalRead(c, st, w), v)
  {
    hide Inv;
    InvShape(c, st);
    WidOk(c, st, v);
    if v == w {
      LocalView(c, st, w);
      assert {} + {w.shard} == {w.shard};
    }
  }

  lemma LocalReadMsg(c: Config, st: State, w: Wid, m: Msg)
    requires Inv(c, st) && Enabled(c, st, LocalRead(w)) && Shape(c, DoLocalRead(c, st, w))
    requires m in DoLocalRead(c, st, w).msgs
    ensures MsgOk(c, DoLocalRead(c, st, w), m)
  {
    hide Inv;
    InvShape(c, st);
    if m in st.msgs {
      BagOk(c, st, m);
    } else {
      LocalView(c, st, w);
      var to := Wid(m.to, m.tx);
      assert m.to in c.active[w.tx];
      assert to in Wids(c);
      WidOk(c, st, to);
      if !st.phases[to].Waiting? {
        LocalReadUnsent(c, st, w, to);
      }
    }
  }

  /** Nobody has yet collected the reads of a worker that is still waiting. */
  lemma LocalReadUnsent(c: Config, st: State, w: Wid, to: Wid)
    requires Inv(c, st) && w in Wids(c) && to in Wids(c) && to.tx == w.tx && to != w
    requires st.phases[w].Waiting? && w.shard in Sources(c, w.tx) && to.shard in c.active[w.tx]
    ensures st.phases[to].Waiting? || (st.phases[to].Collecting? && w.shard !in st.phases[to].received)
  {
    hide Inv;
    InvShape(c, st);
    WidOk(c, st, to);
  }

  lemma LocalReadSent(c: Config, st: State, w: Wid, i: nat, from: nat, to: nat)
    requires Inv(c, st) && Enabled(c, st, LocalRead(w)) && Shape(c, DoLocalRead(c, st, w))
    ensures SentOk(c, DoLocalRead(c, st, w), i, from, to)
  {
    hide Inv;
    InvShape(c, st);
    TripleOk(c, st, i, from, to);
    if Wid(from, i) == w {
      LocalView(c, st, w);
    }
  }

  // ---------------------------------------------------------------- delivering a message

  lemma DeliverPhase(c: Config, st: State, m: Msg)
    requires Inv(c, st) && Enabled(c, st, Deliver(m))
    ensures var p := st.phases[Wid(m.to, m.tx)];
      m.from !in p.received
      && p.full + m.view == PrefixReads(c, m.tx, (p.received + {m.from}) + {m.to})
      && DoDeliver(c, st, m).phases ==
           st.phases[Wid(m.to, m.tx) := Collecting(p.received + {m.from}, p.full + m.view)]
  {
    hide Inv;
    BagOk(c, st, m);
    WidOk(c, st, Wid(m.to, m.tx));
    var p := st.phases[Wid(m.to, m.tx)];
    assert m.view.Keys == Local(c, Wid(m.from, m.tx));
    assert p.full + m.view == PrefixReads(c, m.tx, (p.received + {m.from}) + {m.to});
  }

  lemma DeliverShape(c: Config, st: State, m: Msg)
    requires Inv(c, st) && Enabled(c, st, Deliver(m))
    ensures OnlyPhase(c, st, DoDeliver(c, st, m), Wid(m.to, m.tx))
  {
    hide Inv;
    InvShape(c, st);
    DeliverPhase(c, st, m);
  }

  lemma DeliverWorker(c: Config, st: State, m: Msg, v: Wid)
    requires Inv(c, st) && Enabled(c, st, Deliver(m)) && Shape(c, DoDeliver(c, st, m)) && v in Wids(c)
    ensures WorkerOk(c, DoDeliver(c, st, m), v) && GotOk(c, DoDeliver(c, st, m), v)
  {
    hide Inv;
    WidOk(c, st, v);
    BagOk(c, st, m);
    DeliverShape(c, st, m);
    DeliverPhase(c, st, m);
  }

  lemma DeliverMsg(c: Config, st: State, m: Msg, n: Msg)
    requires Inv(c, st) && Enabled(c, st, Deliver(m)) && Shape(c, DoDeliver(c, st, m))
    requires n in DoDeliver(c, st, m).msgs
    ensures MsgOk(c, DoDeliver(c, st, m), n)
  {
    hide Inv;
    BagOk(c, st, m);
    BagOk(c, st, n);
    DeliverPhase(c, st, m);
  }

  lemma DeliverSent(c: Config, st: State, m: Msg, i: nat, from: nat, to: nat)
    requires Inv(c, st) && Enabled(c, st, Deliver(m)) && Shape(c, DoDeliver(c, st, m))
    ensures SentOk(c, DoDeliver(c, st, m), i, from, to)
  {
    hide Inv;
    TripleOk(c, st, i, from, to);
    BagOk(c, st, m);
    DeliverPhase(c, st, m);
  }

  lemma DeliverKey(c: Config, st: State, m: Msg, k: Key)
    requires Inv(c, st) && Enabled(c, st, Deliver(m)) && Shape(c, DoDeliver(c, st, m))
    ensures QueueOk(c, DoDeliver(c, st, m), k) && ValueOk(c, DoDeliver(c, st, m), k)
  {
    hide Inv;
    hide QueueOk;
    DeliverShape(c, st, m);
    DeliverPhase(c, st, m);
    KeyQueue(c, st, k);
    KeyValue(c, st, k);
    FrameQueue(c, st, DoDeliver(c, st, m), Wid(m.to, m.tx), k);
    assert Point(c, DoDeliver(c, st, m), k) == Point(c, st, k);
  }

  lemma DeliverInv(c: Config, st: State, m: Msg)
    requires Inv(c, st) && Enabled(c, st, Deliver(m))
    ensures Inv(c, DoDeliver(c, st, m))
  {
    InvShape(c, st);
    DeliverShape(c, st, m);
    var after := DoDeliver(c, st, m);
    assert Shape(c, after);
    hide *;
    forall k ensures QueueOk(c, after, k) && ValueOk(c, after, k) {
      DeliverKey(c, st, m, k);
    }
    forall v | v in Wids(c) ensures WorkerOk(c, after, v) && GotOk(c, after, v) {
      DeliverWorker(c, st, m, v);
    }
    forall n | n in after.msgs ensures MsgOk(c, after, n) {
      DeliverMsg(c, st, m, n);
    }
    forall i: nat, from: nat, to: nat ensures SentOk(c, after, i, from, to) {
      DeliverSent(c, st, m, i, from, to);
    }
    InvIntro(c, after);
  }

  // ---------------------------------------------------------------- executing

  /** Once everything has arrived, a worker has exactly the reads of the serial prefix. */
  lemma FullReads(c: Config, st: State, w: Wid)
    requires Inv(c, st) && Enabled(c, st, Execute(w))
    ensures st.phases[w].full == ReadMany(Prefix(c, w.tx), c.txs[w.tx].readSet)
  {
    hide Inv;
    WidOk(c, st, w);
    assert forall k | k in c.txs[w.tx].readSet :: c.layout.shardFor(k) in Sources(c, w.tx);
  }

  lemma ExecuteStore(c: Config, st: State, w: Wid)
    requires Inv(c, st) && Enabled(c, st, Execute(w))
    ensures w in Wids(c)
    ensures var local := LocalWrites(c, SerialOutput(c, w.tx), w.shard);
      && WritesWithin(local, LocalKeys(c.layout, c.txs[w.tx].writeSet, w.shard))
      && DoExecute(c, st, w) ==
           st.(stores := st.stores[w.shard := ApplyWrites(st.stores[w.shard], local)],
               phases := st.phases[w := Done(Some(SerialOutput(c, w.tx).result))])
  {
    hide Inv;
    WidOk(c, st, w);
    FullReads(c, st, w);
    var t := c.txs[w.tx];
    assert ValidTxn(t);
    FilterWritesWithin(SerialOutput(c, w.tx).writes, k => c.layout.shardFor(k) == w.shard, t.writeSet);
  }

  lemma ExecuteValue(c: Config, st: State, w: Wid, k: Key)
    requires Inv(c, st) && Enabled(c, st, Execute(w))
    ensures w in Wids(c) && |DoExecute(c, st, w).stores| == |st.stores|
    ensures c.layout.shardFor(k) < |st.stores|
    ensures Val(DoExecute(c, st, w).stores[c.layout.shardFor(k)], k) ==
            if k in Local(c, w) then Val(Prefix(c, w.tx + 1), k) else Val(st.stores[c.layout.shardFor(k)], k)
    ensures c.layout.shardFor(k) != w.shard ==>
            Val(DoExecute(c, st, w).stores[w.shard], k) == Val(st.stores[w.shard], k)
  {
    hide Inv;
    WidOk(c, st, w);
    ExecuteStore(c, st, w);
    var out := SerialOutput(c, w.tx);
    var owned := k => c.layout.shardFor(k) == w.shard;
    var local := LocalWrites(c, out, w.shard);
    if k in Local(c, w) {
      HeldValue(c, st, w, k);
      ApplyWritesVal(st.stores[w.shard], local, k);
      FilterWritesVal(out.writes, owned, k, Val(Prefix(c, w.tx), k));
      ApplyWritesVal(Prefix(c, w.tx), out.writes, k);
    } else {
      assert ValidTxn(c.txs[w.tx]);
      ApplyWritesFrame(st.stores[w.shard], local, LocalKeys(c.layout, c.txs[w.tx].writeSet, w.shard), k);
    }
  }

  lemma ExecuteKey(c: Config, st: State, w: Wid, k: Key)
    requires Inv(c, st) && Enabled(c, st, Execute(w)) && Shape(c, DoExecute(c, st, w))
    ensures QueueOk(c, DoExecute(c, st, w), k) && ValueOk(c, DoExecute(c, st, w), k)
  {
    hide Inv, QueueOk, DoExecute, Val, Prefix, Queue, LocalWrites, ApplyWrites, WritesWithin;
    var after := DoExecute(c, st, w);
    ExecuteStore(c, st, w);
    KeyQueue(c, st, k);
    FrameQueue(c, st, after, w, k);
    KeyValue(c, st, k);
    ExecuteValue(c, st, w, k);
    if k in Local(c, w) {
      ExecuteHeld(c, st, w, k);
      assert Point(c, after, k) == w.tx + 1;
    } else {
      ExecuteOther(c, st, w, k);
      assert Point(c, after, k) == Point(c, st, k);
    }
  }

  lemma ExecuteHeld(c: Config, st: State, w: Wid, k: Key)
    requires Inv(c, st) && Enabled(c, st, Execute(w)) && k in Local(c, w)
    ensures Queue(st.queues, k) != [] && Queue(st.queues, k)[0] == w.tx
  {
    hide Inv;
    WidOk(c, st, w);
    assert k in Heads(c, st.queues, w);
  }

  lemma ExecuteOther(c: Config, st: State, w: Wid, k: Key)
    requires Inv(c, st) && Enabled(c, st, Execute(w)) && w in Wids(c) && k !in Local(c, w)
    ensures Queue(st.queues, k) == [] || Wid(c.layout.shardFor(k), Queue(st.queues, k)[0]) != w
  {
    hide Inv;
    KeyQueue(c, st, k);
    WidOk(c, st, w);
    var q := Queue(st.queues, k);
    if q != [] {
      assert q[0] in q;
    }
  }

  lemma ExecuteShape(c: Config, st: State, w: Wid)
    requires Inv(c, st) && Enabled(c, st, Execute(w))
    ensures Shape(c, DoExecute(c, st, w))
  {
    hide Inv;
    WidOk(c, st, w);
    ExecuteStore(c, st, w);
    var after := DoExecute(c, st, w);
    forall s, k | 0 <= s < |after.stores| && k in after.stores[s] ensures c.layout.shardFor(k) == s {
      ExecuteValue(c, st, w, k);
    }
  }

  lemma ExecuteWorker(c: Config, st: State, w: Wid, v: Wid)
    requires Inv(c, st) && Enabled(c, st, Execute(w)) && Shape(c, DoExecute(c, st, w)) && v in Wids(c)
    ensures WorkerOk(c, DoExecute(c, st, w), v) && GotOk(c, DoExecute(c, st, w), v)
  {
    hide Inv;
    WidOk(c, st, v);
    ExecuteStore(c, st, w);
  }

  lemma ExecuteMsg(c: Config, st: State, w: Wid, m: Msg)
    requires Inv(c, st) && Enabled(c, st, Execute(w)) && Shape(c, DoExecute(c, st, w)) && m in st.msgs
    ensures MsgOk(c, DoExecute(c, st, w), m)
  {
    hide Inv;
    BagOk(c, st, m);
    ExecuteStore(c, st, w);
  }

  lemma ExecuteSent(c: Config, st: State, w: Wid, i: nat, from: nat, to: nat)
    requires Inv(c, st) && Enabled(c, st, Execute(w)) && Shape(c, DoExecute(c, st, w))
    ensures SentOk(c, DoExecute(c, st, w), i, from, to)
  {
    hide Inv;
    TripleOk(c, st, i, from, to);
    ExecuteStore(c, st, w);
  }

  lemma ExecuteInv(c: Config, st: State, w: Wid)
    requires Inv(c, st) && Enabled(c, st, Execute(w))
    ensures Inv(c, DoExecute(c, st, w))
  {
    InvShape(c, st);
    ExecuteShape(c, st, w);
    ExecuteStore(c, st, w);
    var after := DoExecute(c, st, w);
    assert after.msgs == st.msgs;
    hide *;
    forall k ensures QueueOk(c, after, k) && ValueOk(c, after, k) {
      ExecuteKey(c, st, w, k);
    }
    forall v | v in Wids(c) ensures WorkerOk(c, after, v) && GotOk(c, after, v) {
      ExecuteWorker(c, st, w, v);
    }
    forall m | m in after.msgs ensures MsgOk(c, after, m) {
      ExecuteMsg(c, st, w, m);
    }
    forall i: nat, from: nat, to: nat ensures SentOk(c, after, i, from, to) {
      ExecuteSent(c, st, w, i, from, to);
    }
    InvIntro(c, after);
  }

  // ---------------------------------------------------------------- releasing

  lemma ReleaseHeads(c: Config, st: State, w: Wid)
    requires Inv(c, st) && Enabled(c, st, Release(w))
    ensures w in Wids(c)
    ensures forall k | k in Local(c, w) :: CanRelease(st.queues, w.tx, k)
  {
    hide Inv;
    InvShape(c, st);
    WidOk(c, st, w);
    assert Local(c, w) == Heads(c, st.queues, w);
  }

  /** One queue before and after a release: popped if the worker held its lock. */
  ghost predicate Popped(c: Config, st: State, after: State, w: Wid, k: Key)
    requires w.tx < |c.txs|
  {
    if k in Local(c, w) then
      && Queue(st.queues, k) != [] && Queue(st.queues, k)[0] == w.tx
      && Queue(after.queues, k) == Queue(st.queues, k)[1..]
    else
      && Queue(after.queues, k) == Queue(st.queues, k)
      && (k in after.queues <==> k in st.queues)
  }

  ghost predicate ReleaseEffect(c: Config, st: State, after: State, w: Wid) {
    && OnlyPhase(c, st, after, w)
    && w.shard in st.started && st.phases[w].Done? && st.phases[w].out == Expect(c, w)
    && after.phases[w] == Phase.Released(st.phases[w].out)
    && after.msgs == st.msgs && after.stores == st.stores && after.started == st.started
    && forall k :: Popped(c, st, after, w, k)
  }

  lemma ReleaseQueues(c: Config, st: State, w: Wid)
    requires Inv(c, st) && Enabled(c, st, Release(w))
    ensures w in Wids(c) && OnlyPhase(c, st, DoRelease(c, st, w), w)
    ensures var after := DoRelease(c, st, w);
      && after.queues == ReleaseTx(st.queues, Local(c, w))
      && after.phases[w] == Phase.Released(st.phases[w].out)
      && after.msgs == st.msgs && after.stores == st.stores && after.started == st.started
  {
    hide Inv, CanRelease, Heads, Local, ReleaseTx, Queue, Valid;
    InvShape(c, st);
    ReleaseHeads(c, st, w);
  }

  lemma ReleaseStep(c: Config, st: State, w: Wid)
    requires Inv(c, st) && Enabled(c, st, Release(w))
    ensures ReleaseEffect(c, st, DoRelease(c, st, w), w)
  {
    hide Inv;
    InvShape(c, st);
    WidOk(c, st, w);
    ReleaseHeads(c, st, w);
    ReleaseQueues(c, st, w);
    hide DoRelease, Heads;
    forall k ensures Popped(c, st, DoRelease(c, st, w), w, k) {
      if k in Local(c, w) {
        assert CanRelease(st.queues, w.tx, k);
      }
    }
  }

  lemma PoppedMembers(q: seq<nat>)
    requires Increasing(q) && q != []
    ensures forall i: nat :: i in q[1..] <==> i in q && i != q[0]
    ensures Increasing(q[1..])
  {
    assert q == [q[0]] + q[1..];
  }

  lemma ReleaseQueue(c: Config, st: State, after: State, w: Wid, k: Key)
    requires Inv(c, st) && ReleaseEffect(c, st, after, w)
    ensures QueueOk(c, after, k)
  {
    hide Inv, Valid;
    KeyQueue(c, st, k);
    assert Popped(c, st, after, w, k);
    if k in Local(c, w) {
      PoppedMembers(Queue(st.queues, k));
    }
    assert forall i: nat | Locks(c, i, k) :: Wid(c.layout.shardFor(k), i) in Wids(c);
  }

  /** The next in line has not executed: it does not hold the key yet. */
  lemma ReleaseNext(c: Config, st: State, w: Wid, k: Key)
    requires Inv(c, st) && w in Wids(c) && w.shard in st.started && k in Local(c, w)
    requires |Queue(st.queues, k)| > 1 && Queue(st.queues, k)[0] == w.tx
    ensures var v := Wid(w.shard, Queue(st.queues, k)[1]);
      v in Wids(c) && v != w && !st.phases[v].Done? && w.tx < v.tx
  {
    hide Inv;
    KeyQueue(c, st, k);
    var q := Queue(st.queues, k);
    var v := Wid(w.shard, q[1]);
    assert q[1] in q && q[0] < q[1];
    assert Locks(c, q[1], k);
    WidOk(c, st, v);
    assert k in Local(c, v) && k !in Heads(c, st.queues, v);
  }

  /** Nobody between two neighbours of a queue locks its key. */
  lemma ReleaseGap(c: Config, st: State, w: Wid, k: Key, i: nat)
    requires Inv(c, st) && w in Wids(c) && w.shard in st.started && k in Local(c, w)
    requires Queue(st.queues, k) != [] && Queue(st.queues, k)[0] == w.tx
    requires w.tx < i && (|Queue(st.queues, k)| > 1 ==> i < Queue(st.queues, k)[1])
    ensures !Locks(c, i, k)
  {
    hide Inv;
    KeyQueue(c, st, k);
    var q := Queue(st.queues, k);
    PoppedMembers(q);
    BelowHead(q[1..], i);
  }

  lemma ReleasePoint(c: Config, st: State, after: State, w: Wid, k: Key)
    requires Inv(c, st) && ReleaseEffect(c, st, after, w) && k in Local(c, w)
    ensures Point(c, st, k) == w.tx + 1 <= Point(c, after, k) <= |c.txs|
    ensures Val(Prefix(c, w.tx + 1), k) == Val(Prefix(c, Point(c, after, k)), k)
  {
    hide Inv;
    assert Popped(c, st, after, w, k);
    InvShape(c, st);
    var q := Queue(st.queues, k);
    if |q| > 1 {
      ReleaseNext(c, st, w, k);
      assert Point(c, after, k) == q[1];
    } else {
      assert Point(c, after, k) == |c.txs|;
    }
    forall i | w.tx + 1 <= i < Point(c, after, k) ensures !Locks(c, i, k) {
      ReleaseGap(c, st, w, k, i);
    }
    PrefixFrame(c, w.tx + 1, Point(c, after, k), k);
  }

  lemma ReleaseValue(c: Config, st: State, after: State, w: Wid, k: Key)
    requires Inv(c, st) && ReleaseEffect(c, st, after, w)
    ensures ValueOk(c, after, k)
  {
    hide Inv, ReleaseEffect, Point, Prefix, Shape, Valid, Val;
    ReleaseKeeps(c, st, after, w);
    KeyValue(c, st, k);
    if k in Local(c, w) {
      ReleasePoint(c, st, after, w, k);
    } else {
      ReleaseOther(c, st, after, w, k);
    }
    hide Local;
  }

  lemma ReleaseKeeps(c: Config, st: State, after: State, w: Wid)
    requires ReleaseEffect(c, st, after, w)
    ensures w in Wids(c) && Shape(c, st) && Shape(c, after) && after.stores == st.stores
  {
  }

  lemma ReleaseOther(c: Config, st: State, after: State, w: Wid, k: Key)
    requires Inv(c, st) && ReleaseEffect(c, st, after, w) && k !in Local(c, w)
    ensures Point(c, after, k) == Point(c, st, k)
  {
    hide Inv;
    KeyQueue(c, st, k);
    assert Popped(c, st, after, w, k);
    var q := Queue(st.queues, k);
    if q != [] {
      assert q[0] in q;
    }
  }

  lemma ReleaseGrant(c: Config, st: State, w: Wid, v: Wid)
    requires Inv(c, st) && Enabled(c, st, Release(w)) && v in Wids(c) && v != w
    requires ReleaseEffect(c, st, DoRelease(c, st, w), w)
    requires st.granted[v] == Heads(c, st.queues, v)
    ensures DoRelease(c, st, w).granted[v] == Heads(c, DoRelease(c, st, w).queues, v)
    ensures st.granted[v] == Local(c, v) ==> DoRelease(c, st, w).granted[v] == Local(c, v)
  {
    hide Inv;
    InvShape(c, st);
    var after := DoRelease(c, st, w);
    forall k | k in Local(c, v)
      ensures k !in Local(c, w) ==> (k in Heads(c, after.queues, v) <==> k in Heads(c, st.queues, v))
      ensures k in Local(c, w) ==> v.shard == w.shard && k !in Heads(c, st.queues, v)
    {
      assert Popped(c, st, after, w, k);
    }
  }

  lemma ReleaseWorker(c: Config, st: State, w: Wid, v: Wid)
    requires Inv(c, st) && Enabled(c, st, Release(w)) && v in Wids(c)
    requires ReleaseEffect(c, st, DoRelease(c, st, w), w)
    ensures WorkerOk(c, DoRelease(c, st, w), v) && GotOk(c, DoRelease(c, st, w), v)
  {
    hide Inv;
    WidOk(c, st, w);
    WidOk(c, st, v);
    if v.shard in st.started && v != w && st.granted[v] == Heads(c, st.queues, v) {
      ReleaseGrant(c, st, w, v);
    }
    assert v.shard !in st.started ==> DoRelease(c, st, w).granted[v] == st.granted[v];
    hide DoRelease;
    FrameGot(c, st, DoRelease(c, st, w), w, v);
  }

  lemma ReleaseInv(c: Config, st: State, w: Wid)
    requires Inv(c, st) && Enabled(c, st, Release(w))
    ensures Inv(c, DoRelease(c, st, w))
  {
    InvShape(c, st);
    ReleaseStep(c, st, w);
    var after := DoRelease(c, st, w);
    assert OnlyPhase(c, st, after, w) && after.msgs == st.msgs;
    assert !st.phases[w].Waiting?;
    assert after.phases[w].Released?;
    assert Shape(c, after);
    hide *;
    forall k ensures QueueOk(c, after, k) && ValueOk(c, after, k) {
      ReleaseQueue(c, st, after, w, k);
      ReleaseValue(c, st, after, w, k);
    }
    forall v | v in Wids(c) ensures WorkerOk(c, after, v) && GotOk(c, after, v) {
      ReleaseWorker(c, st, w, v);
    }
    forall m | m in after.msgs ensures MsgOk(c, after, m) {
      ReleaseMsg(c, st, after, w, m);
    }
    forall i: nat, from: nat, to: nat ensures SentOk(c, after, i, from, to) {
      TripleOk(c, st, i, from, to);
      FrameSent(c, st, after, w, i, from, to);
    }
    InvIntro(c, after);
  }

  lemma ReleaseMsg(c: Config, st: State, after: State, w: Wid, m: Msg)
    requires Inv(c, st) && ReleaseEffect(c, st, after, w) && m in st.msgs
    ensures MsgOk(c, after, m)
  {
    hide Inv;
    BagOk(c, st, m);
    FrameMsg(c, st, after, w, m);
  }

  // ---------------------------------------------------------------- every run

  lemma NextInv(c: Config, st: State, a: Action)
    requires Inv(c, st) && Enabled(c, st, a)
    ensures Inv(c, Next(c, st, a))
  {
    hide Inv;
    match a
    case Start(s) => StartInv(c, st, s);
    case LocalRead(w) => LocalReadInv(c, st, w);
    case Deliver(m) => DeliverInv(c, st, m);
    case Execute(w) => ExecuteInv(c, st, w);
    case Release(w) => ReleaseInv(c, st, w);
  }

  /** Every state of every run satisfies the invariant. */
  lemma {:induction false} RunInv(c: Config, acts: seq<Action>)
    requires Valid(c) && Run(c, acts).Some?
    ensures Inv(c, Run(c, acts).value)
  {
    if acts == [] {
      InitInv(c);
    } else {
      hide Inv;
      RunInv(c, acts[..|acts| - 1]);
      NextInv(c, Run(c, acts[..|acts| - 1]).value, acts[|acts| - 1]);
    }
  }

  /** A shard that has not started still has its part of the base store. */
  lemma UnstartedKeepsBase(c: Config, st: State, s: nat)
    requires Inv(c, st) && s < c.layout.shardCount && s !in st.started
    ensures |st.stores| == c.layout.shardCount && st.stores[s] == Restrict(c.layout, c.base, s)
  {
    hide Inv;
    InvShape(c, st);
    forall k ensures Val(st.stores[s], k) == Val(Restrict(c.layout, c.base, s), k) {
      if c.layout.shardFor(k) == s {
        KeyQueue(c, st, k);
        KeyValue(c, st, k);
        assert Point(c, st, k) == 0;
      }
    }
    StoreExt(st.stores[s], Restrict(c.layout, c.base, s));
  }
}
