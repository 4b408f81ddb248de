/** The steps of the semantic scheduler and the invariant every interleaving keeps. */
module SccSystem {
  import opened Model
  import opened Router
  import opened Deltas
  import opened CommitSequences
  import opened SccProtocol

  /** `payload` is what a worker tells the other participants: its local reads, or none if it
  saw a failed slot. */
  datatype Phase =
    | Idle
    | Sending(left: set<nat>, payload: Option<Reads>)
    | Collecting(received: set<nat>, full: Reads)
    | Closed
    | Errored

  datatype Msg = Msg(tx: nat, from: nat, to: nat, payload: Option<Reads>)

  datatype State = State(
    started: set<nat>,
    slots: seq<seq<SlotState>>,
    phases: map<Wid, Phase>,
    finished: set<Wid>,
    msgs: set<Msg>,
    stores: seq<Store>,
    installed: set<nat>,
    aborted: set<nat>)

  function Wids(c: Config): set<Wid> {
    set s, i | 0 <= s < c.layout.shardCount && 0 <= i < |c.txs| :: Wid(s, i)
  }

  predicate Participant(c: Config, w: Wid) {
    w.tx < |c.txs| && w.shard in Sources(c, w.tx)
  }

  function Others(c: Config, w: Wid): set<nat>
    requires w.tx < |c.txs|
  {
    Sources(c, w.tx) - {w.shard}
  }

  function Init(c: Config): State {
    State({},
      seq(c.layout.shardCount, _ => seq(|c.txs|, _ => Pending)),
      map w | w in Wids(c) :: Idle,
      {}, {},
      seq(c.layout.shardCount, s requires s >= 0 => Restrict(c.layout, c.base, s)),
      {}, {})
  }

  predicate Shape(c: Config, st: State) {
    && |st.slots| == c.layout.shardCount == |st.stores|
    && (forall s | 0 <= s < |st.slots| :: |st.slots[s]| == |c.txs|)
    && st.phases.Keys == Wids(c)
  }

  datatype Action =
    | Start(shard: nat)
    | Skip(w: Wid)
    | Materialize(w: Wid)
    | Send(w: Wid, to: nat)
    | Settle(w: Wid)
    | Deliver(m: Msg)
    | Decide(w: Wid)
    | Finish(w: Wid)
    | Install(shard: nat)

  /** The scan a worker makes of its shard's commit sequence. */
  function WorkerScan(c: Config, st: State, w: Wid): Materialized
    requires Shape(c, st) && w in Wids(c)
  {
    var keys := LocalKeys(c.layout, c.txs[w.tx].readSet, w.shard);
    var start := StateOf(ReadMany(st.stores[w.shard], keys));
    ScanResult(ScanSlots(start, keys, WriteKeys(c, w.shard), st.slots[w.shard], Cut(c, w.tx)), keys)
  }

  predicate Enabled(c: Config, st: State, a: Action)
    requires Shape(c, st)
  {
    match a
    case Start(s) => s < c.layout.shardCount && s !in st.started
    case Skip(w) => w in Wids(c) && w.shard in st.started && st.phases[w].Idle? && !Participant(c, w)
    case Materialize(w) =>
      && w in Wids(c) && w.shard in st.started && st.phases[w].Idle? && Participant(c, w)
      && (forall u | u in c.txs[w.tx].preds :: Wid(w.shard, u) in st.finished)
      && !WorkerScan(c, st, w).Blocked?
    case Send(w, to) =>
      w in Wids(c) && st.phases[w].Sending? && to in st.phases[w].left && Wid(to, w.tx) in Wids(c)
    case Settle(w) => w in Wids(c) && st.phases[w].Sending? && st.phases[w].left == {}
    case Deliver(m) => m in st.msgs && Wid(m.to, m.tx) in Wids(c) && st.phases[Wid(m.to, m.tx)].Collecting?
    case Decide(w) =>
      w in Wids(c) && st.phases[w].Collecting? && st.phases[w].received == Others(c, w)
    case Finish(w) => w in Wids(c) && st.phases[w].Closed? && w !in st.finished
    case Install(s) =>
      && s < c.layout.shardCount && s in st.started && s !in st.installed && s !in st.aborted
      && (forall i | 0 <= i < |c.txs| :: Wid(s, i) in st.finished)
  }

  function Move(st: State, w: Wid, p: Phase): State {
    st.(phases := st.phases[w := p])
  }

  /** Settling a slot a second time is an error. */
  function Conclude(c: Config, st: State, w: Wid, slot: SlotState): State
    requires Shape(c, st) && w in Wids(c)
  {
    if slot.Pending? || !st.slots[w.shard][w.tx].Pending? then Move(st, w, Errored)
    else Move(st, w, Closed).(slots := st.slots[w.shard := st.slots[w.shard][w.tx := slot]])
  }

  function DoMaterialize(c: Config, st: State, w: Wid): State
    requires Shape(c, st) && Enabled(c, st, Materialize(w))
  {
    match WorkerScan(c, st, w)
    case Reads(view) => Move(st, w, Sending(Others(c, w), Some(view)))
    case Failing(error) =>
      Move(st, w, if error == Error.SpeculationFailed then Sending(Others(c, w), None) else Errored)
  }

  function DoSend(c: Config, st: State, w: Wid, to: nat): State
    requires Shape(c, st) && Enabled(c, st, Send(w, to))
  {
    var p, q := st.phases[w], st.phases[Wid(to, w.tx)];
    if (q.Closed? || q.Errored?) && !c.absorbing then Move(st, w, Errored)
    else Move(st, w, Sending(p.left - {to}, p.payload)).(msgs := st.msgs + {Msg(w.tx, w.shard, to, p.payload)})
  }

  function DoSettle(c: Config, st: State, w: Wid): State
    requires Shape(c, st) && Enabled(c, st, Settle(w))
  {
    match st.phases[w].payload
    case None => Conclude(c, st, w, Failed)
    case Some(view) => Move(st, w, Collecting({}, view))
  }

  function DoDeliver(c: Config, st: State, m: Msg): State
    requires Shape(c, st) && Enabled(c, st, Deliver(m))
  {
    var w := Wid(m.to, m.tx);
    var p, taken := st.phases[w], st.(msgs := st.msgs - {m});
    if m.from !in Others(c, w) || m.from in p.received then Move(taken, w, Errored)
    else match m.payload
      case None => Conclude(c, taken, w, Failed)
      case Some(view) =>
        if view.Keys != LocalKeys(c.layout, c.txs[m.tx].readSet, m.from) || !(view.Keys !! p.full.Keys)
        then Move(taken, w, Errored)
        else Move(taken, w, Collecting(p.received + {m.from}, p.full + view))
  }

  function DoDecide(c: Config, st: State, w: Wid): State
    requires Shape(c, st) && Enabled(c, st, Decide(w))
  {
    var full := st.phases[w].full;
    if full.Keys != c.txs[w.tx].readSet then Move(st, w, Errored)
    else Conclude(c, st, w, Settled(c, w.shard, w.tx, c.txs[w.tx].run(full)))
  }

  function DoInstall(c: Config, st: State, s: nat): State
    requires Shape(c, st) && Enabled(c, st, Install(s))
  {
    var slots := st.slots[s];
    if !AllTerminal(slots) || Replay(st.stores[s], slots, |slots|).Failure?
    then st.(aborted := st.aborted + {s})
    else st.(stores := st.stores[s := Replay(st.stores[s], slots, |slots|).value], installed := st.installed + {s})
  }

  function Next(c: Config, st: State, a: Action): (after: State)
    requires Shape(c, st) && Enabled(c, st, a)
    ensures Shape(c, after)
  {
    match a
    case Start(s) => st.(started := st.started + {s})
    case Skip(w) => Conclude(c, st, w, NoOp)
    case Materialize(w) => DoMaterialize(c, st, w)
    case Send(w, to) => DoSend(c, st, w, to)
    case Settle(w) => DoSettle(c, st, w)
    case Deliver(m) => DoDeliver(c, st, m)
    case Decide(w) => DoDecide(c, st, w)
    case Finish(w) => st.(finished := st.finished + {w})
    case Install(s) => DoInstall(c, st, s)
  }

  function Run(c: Config, acts: seq<Action>): (r: Option<State>)
    ensures r.Some? ==> Shape(c, r.value)
  {
    if acts == [] then Some(Init(c))
    else
      var before := Run(c, acts[..|acts| - 1]);
      if before.Some? && Enabled(c, before.value, acts[|acts| - 1])
      then Some(Next(c, before.value, acts[|acts| - 1])) else None
  }

  // ---------------------------------------------------------------- invariant

  /** What a participant must tell the others. */
  predicate PayloadOk(c: Config, i: nat, s: nat, payload: Option<Reads>)
    requires i < |c.txs|
  {
    payload == if Sees(c, s, i) then None else Some(SpecReads(c, i, {s}))
  }

  ghost predicate NoneSee(c: Config, i: nat, shards: set<nat>)
    requires i < |c.txs|
  {
    forall s | s in shards :: !Sees(c, s, i)
  }

  /** A slot holds its specified state once its worker is done and nothing before; what a
  worker sends and collects is what the specification says about the prefix. */
  ghost predicate WorkerOk(c: Config, st: State, w: Wid)
    requires Shape(c, st) && w in Wids(c)
  {
    var slot := st.slots[w.shard][w.tx];
    && (w in st.finished ==> st.phases[w].Closed?)
    && (w.shard in st.installed ==> w in st.finished)
    && (w.shard !in st.started ==> st.phases[w].Idle?)
    && (!Participant(c, w) ==> st.phases[w].Idle? || st.phases[w].Closed?)
    && (if st.phases[w].Closed? then slot == SpecSlot(c, w.shard, w.tx) && !slot.Pending? else slot.Pending?)
    && match st.phases[w]
       case Sending(left, payload) => left <= Others(c, w) && PayloadOk(c, w.tx, w.shard, payload)
       case Collecting(received, full) =>
         && received <= Others(c, w)
         && full == SpecReads(c, w.tx, received + {w.shard})
         && NoneSee(c, w.tx, received + {w.shard})
       case Errored => !c.absorbing
       case _ => true
  }

  predicate HasSent(st: State, from: Wid, to: nat) {
    from in st.phases && !st.phases[from].Idle? && (st.phases[from].Sending? ==> to !in st.phases[from].left)
  }

  ghost predicate GotOk(c: Config, st: State, w: Wid)
    requires Shape(c, st) && w in Wids(c)
  {
    st.phases[w].Collecting? ==> forall f | f in st.phases[w].received :: HasSent(st, Wid(f, w.tx), w.shard)
  }

  ghost predicate MsgOk(c: Config, st: State, m: Msg)
    requires Shape(c, st)
  {
    && m.tx < |c.txs| && m.from in Sources(c, m.tx) && m.to in Sources(c, m.tx) && m.from != m.to
    && Wid(m.to, m.tx) in st.phases
    && PayloadOk(c, m.tx, m.from, m.payload)
    && HasSent(st, Wid(m.from, m.tx), m.to)
    && (st.phases[Wid(m.to, m.tx)].Collecting? ==> m.from !in st.phases[Wid(m.to, m.tx)].received)
  }

  /** What was sent stays in the bag until the receiver has it or is done. */
  ghost predicate SentOk(c: Config, st: State, i: nat, from: nat, to: nat)
    requires Shape(c, st)
  {
    (i < |c.txs| && from in Sources(c, i) && to in Sources(c, i) && from != to && Wid(to, i) in st.phases
     && HasSent(st, Wid(from, i), to) && !st.phases[Wid(from, i)].Errored?) ==>
      var q := st.phases[Wid(to, i)];
      q.Closed? || q.Errored? || (q.Collecting? && from in q.received)
      || Msg(i, from, to, if Sees(c, from, i) then None else Some(SpecReads(c, i, {from}))) in st.msgs
  }

  ghost predicate StoreOk(c: Config, st: State, s: nat)
    requires Shape(c, st) && s < c.layout.shardCount
  {
    st.stores[s] == Restrict(c.layout, if s in st.installed then SpecStore(c, |c.txs|) else c.base, s)
  }

  ghost predicate Inv(c: Config, st: State) {
    && Valid(c) && Sound(c) && Shape(c, st) && st.aborted == {}
    && (forall s: nat | s < c.layout.shardCount :: StoreOk(c, st, s))
    && (forall w | w in Wids(c) :: WorkerOk(c, st, w))
    && (forall w | w in Wids(c) :: GotOk(c, st, w))
    && (forall m | m in st.msgs :: MsgOk(c, st, m))
    && (forall i: nat, from: nat, to: nat :: SentOk(c, st, i, from, to))
  }

  lemma InvShape(c: Config, st: State)
    requires Inv(c, st)
    ensures Valid(c) && Sound(c) && Shape(c, st) && st.aborted == {}
  {
  }

  lemma WidOk(c: Config, st: State, w: Wid)
    requires Inv(c, st) && w in Wids(c)
    ensures Shape(c, st) && WorkerOk(c, st, w) && GotOk(c, st, w)
  {
  }

  lemma BagOk(c: Config, st: State, m: Msg)
    requires Inv(c, st) && m in st.msgs
    ensures Shape(c, st) && MsgOk(c, st, m)
  {
  }

  lemma TripleOk(c: Config, st: State, i: nat, from: nat, to: nat)
    requires Inv(c, st)
    ensures Shape(c, st) && SentOk(c, st, i, from, to)
  {
  }

  lemma ShardOk(c: Config, st: State, s: nat)
    requires Inv(c, st) && s < c.layout.shardCount
    ensures Shape(c, st) && StoreOk(c, st, s)
  {
  }

  lemma InvIntro(c: Config, st: State)
    requires Valid(c) && Sound(c) && Shape(c, st) && st.aborted == {}
    requires forall s: nat | s < c.layout.shardCount :: StoreOk(c, st, s)
    requires forall w | w in Wids(c) :: WorkerOk(c, st, w) && GotOk(c, st, w)
    requires forall m | m in st.msgs :: MsgOk(c, st, m)
    requires forall i: nat, from: nat, to: nat :: SentOk(c, st, i, from, to)
    ensures Inv(c, st)
  {
  }

  lemma InitInv(c: Config)
    requires Valid(c) && Sound(c)
    ensures Inv(c, Init(c))
  {
    hide Sound, Valid;
  }

  // ---------------------------------------------------------------- one worker moves

  /** A step that changes one unfinished worker, perhaps its slot, and the messages it sends
  or takes. */
  ghost predicate Moved(c: Config, st: State, after: State, w: Wid) {
    && Shape(c, st) && Shape(c, after) && w in Wids(c) && w !in st.finished
    && !st.phases[w].Closed? && !st.phases[w].Errored?
    && (forall v | v != w :: (v in st.phases <==> v in after.phases)
                             && (v in st.phases ==> st.phases[v] == after.phases[v]))
    && (forall s, i | 0 <= s < |st.slots| && 0 <= i < |c.txs| && Wid(s, i) != w :: st.slots[s][i] == after.slots[s][i])
    && (forall to: nat :: HasSent(st, w, to) ==> HasSent(after, w, to))
    && (forall m | m in after.msgs && m !in st.msgs :: m.tx == w.tx && m.from == w.shard)
    && (forall m | m in st.msgs && m !in after.msgs :: m.tx == w.tx && m.to == w.shard)
    && after.started == st.started && after.finished == st.finished && after.stores == st.stores
    && after.installed == st.installed && after.aborted == st.aborted
  }

  /** A step that changes the phase of one worker and the messages it sends or takes. */
  lemma PhaseMoved(c: Config, st: State, after: State, w: Wid)
    requires Inv(c, st) && Shape(c, st) && w in Wids(c) && !st.phases[w].Closed? && !st.phases[w].Errored?
    requires w in after.phases && after == st.(phases := st.phases[w := after.phases[w]], msgs := after.msgs)
    requires st.phases[w].Sending? && after.phases[w].Sending? ==> after.phases[w].left <= st.phases[w].left
    requires !st.phases[w].Idle? ==> !after.phases[w].Idle?
    requires after.phases[w].Sending? ==> st.phases[w].Sending? || st.phases[w].Idle?
    requires forall m | m in after.msgs && m !in st.msgs :: m.tx == w.tx && m.from == w.shard
    requires forall m | m in st.msgs && m !in after.msgs :: m.tx == w.tx && m.to == w.shard
    ensures Moved(c, st, after, w)
  {
    hide Inv;
    WidOk(c, st, w);
  }

  lemma MovedOther(c: Config, st: State, after: State, w: Wid, v: Wid)
    requires Inv(c, st) && Moved(c, st, after, w) && v in Wids(c) && v != w
    ensures WorkerOk(c, after, v) && GotOk(c, after, v)
  {
    hide Inv;
    WidOk(c, st, v);
    hide SpecSlot, SpecReads, Sees, PayloadOk, NoneSee;
    assert Wid(v.shard, v.tx) == v;
  }

  lemma MovedMsg(c: Config, st: State, after: State, w: Wid, m: Msg)
    requires Inv(c, st) && Moved(c, st, after, w) && m in st.msgs && Wid(m.to, m.tx) != w
    ensures MsgOk(c, after, m)
  {
    hide Inv;
    BagOk(c, st, m);
  }

  lemma MovedSent(c: Config, st: State, after: State, w: Wid, i: nat, from: nat, to: nat)
    requires Inv(c, st) && Moved(c, st, after, w) && Wid(from, i) != w && Wid(to, i) != w
    ensures SentOk(c, after, i, from, to)
  {
    hide Inv;
    TripleOk(c, st, i, from, to);
    hide Sees, SpecReads;
  }

  lemma MovedStore(c: Config, st: State, after: State, w: Wid, s: nat)
    requires Inv(c, st) && Moved(c, st, after, w) && s < c.layout.shardCount
    ensures StoreOk(c, after, s)
  {
    hide Inv;
    ShardOk(c, st, s);
  }

  lemma MovedTarget(c: Config, st: State, after: State, w: Wid, m: Msg)
    requires Inv(c, st) && Moved(c, st, after, w) && m in st.msgs && Wid(m.to, m.tx) == w
    requires after.phases[w].Collecting? ==> m.from !in after.phases[w].received
    ensures MsgOk(c, after, m)
  {
    hide Inv;
    BagOk(c, st, m);
  }

  /** The receiver is done, or it keeps or takes in every message meant for it. */
  predicate KeepsMail(st: State, after: State, w: Wid)
    requires w in st.phases && w in after.phases
  {
    var p, q := st.phases[w], after.phases[w];
    || q.Closed? || q.Errored?
    || ((p.Collecting? ==> q.Collecting? && p.received <= q.received)
        && forall m | m in st.msgs && m !in after.msgs :: q.Collecting? && m.from in q.received)
  }

  lemma MovedFrom(c: Config, st: State, after: State, w: Wid, n: nat)
    requires Inv(c, st) && Moved(c, st, after, w)
    requires HasSent(after, w, n) ==> HasSent(st, w, n) || after.phases[w].Errored?
    ensures SentOk(c, after, w.tx, w.shard, n)
  {
    hide Inv;
    TripleOk(c, st, w.tx, w.shard, n);
    WidOk(c, st, w);
    hide Sees, SpecReads, WorkerOk;
  }

  lemma MovedTo(c: Config, st: State, after: State, w: Wid, n: nat)
    requires Inv(c, st) && Moved(c, st, after, w) && KeepsMail(st, after, w)
    ensures SentOk(c, after, w.tx, n, w.shard)
  {
    hide Inv;
    TripleOk(c, st, w.tx, n, w.shard);
    hide Sees, SpecReads;
  }

  /** A step that sends nothing new and looks after its own worker keeps the invariant. */
  lemma QuietInv(c: Config, st: State, after: State, w: Wid)
    requires Inv(c, st) && Moved(c, st, after, w) && KeepsMail(st, after, w) && after.msgs <= st.msgs
    requires WorkerOk(c, after, w) && GotOk(c, after, w)
    requires forall n: nat :: HasSent(after, w, n) ==> HasSent(st, w, n) || after.phases[w].Errored?
    requires after.phases[w].Collecting? ==>
      forall m | m in after.msgs && Wid(m.to, m.tx) == w :: m.from !in after.phases[w].received
    ensures Inv(c, after)
  {
    assert w in after.phases;
    hide *;
    forall m | m in after.msgs && (m !in st.msgs || Wid(m.to, m.tx) == w) ensures MsgOk(c, after, m) {
      MovedTarget(c, st, after, w, m);
    }
    forall n: nat ensures SentOk(c, after, w.tx, w.shard, n) && SentOk(c, after, w.tx, n, w.shard) {
      MovedFrom(c, st, after, w, n);
      MovedTo(c, st, after, w, n);
    }
    MovedInv(c, st, after, w);
  }

  /** The invariant survives a step of one worker that leaves its own affairs in order. */
  lemma MovedInv(c: Config, st: State, after: State, w: Wid)
    requires Inv(c, st) && Moved(c, st, after, w)
    requires WorkerOk(c, after, w) && GotOk(c, after, w)
    requires forall m | m in after.msgs && (m !in st.msgs || Wid(m.to, m.tx) == w) :: MsgOk(c, after, m)
    requires forall n: nat :: SentOk(c, after, w.tx, w.shard, n) && SentOk(c, after, w.tx, n, w.shard)
    ensures Inv(c, after)
  {
    hide Inv;
    InvShape(c, st);
    assert after.aborted == {};
    hide *;
    forall s: nat | s < c.layout.shardCount ensures StoreOk(c, after, s) {
      MovedStore(c, st, after, w, s);
    }
    forall v | v in Wids(c) ensures WorkerOk(c, after, v) && GotOk(c, after, v) {
      if v != w {
        MovedOther(c, st, after, w, v);
      }
    }
    forall m | m in after.msgs ensures MsgOk(c, after, m) {
      if m in st.msgs && Wid(m.to, m.tx) != w {
        MovedMsg(c, st, after, w, m);
      }
    }
    forall i: nat, from: nat, to: nat ensures SentOk(c, after, i, from, to) {
      if Wid(from, i) != w && Wid(to, i) != w {
        MovedSent(c, st, after, w, i, from, to);
      }
    }
    InvIntro(c, after);
  }

  // ---------------------------------------------------------------- whole-shard steps

  lemma StartInv(c: Config, st: State, s: nat)
    requires Inv(c, st) && Enabled(c, st, Start(s))
    ensures Inv(c, Next(c, st, Start(s)))
  {
    hide Inv;
    InvShape(c, st);
    var after := Next(c, st, Start(s));
    forall t: nat | t < c.layout.shardCount ensures StoreOk(c, after, t) {
      ShardOk(c, st, t);
    }
    hide SpecSlot, SpecReads, Sees, PayloadOk, NoneSee, SpecStore;
    forall v | v in Wids(c) ensures WorkerOk(c, after, v) && GotOk(c, after, v) {
      WidOk(c, st, v);
    }
    forall m | m in after.msgs ensures MsgOk(c, after, m) {
      BagOk(c, st, m);
    }
    forall i: nat, from: nat, to: nat ensures SentOk(c, after, i, from, to) {
      TripleOk(c, st, i, from, to);
    }
    InvIntro(c, after);
  }

  lemma FinishInv(c: Config, st: State, w: Wid)
    requires Inv(c, st) && Enabled(c, st, Finish(w))
    ensures Inv(c, Next(c, st, Finish(w)))
  {
    hide Inv;
    InvShape(c, st);
    var after := Next(c, st, Finish(w));
    forall t: nat | t < c.layout.shardCount ensures StoreOk(c, after, t) {
      ShardOk(c, st, t);
    }
    hide SpecSlot, SpecReads, Sees, PayloadOk, NoneSee, SpecStore;
    forall v | v in Wids(c) ensures WorkerOk(c, after, v) && GotOk(c, after, v) {
      WidOk(c, st, v);
    }
    forall m | m in after.msgs ensures MsgOk(c, after, m) {
      BagOk(c, st, m);
    }
    forall i: nat, from: nat, to: nat ensures SentOk(c, after, i, from, to) {
      TripleOk(c, st, i, from, to);
    }
    InvIntro(c, after);
  }

  /** Installing never fails and leaves the shard with its part of the specified store. */
  lemma InstallStore(c: Config, st: State, s: nat)
    requires Inv(c, st) && Enabled(c, st, Install(s))
    ensures DoInstall(c, st, s) ==
      st.(stores := st.stores[s := Restrict(c.layout, SpecStore(c, |c.txs|), s)], installed := st.installed + {s})
  {
    hide Inv;
    InvShape(c, st);
    ShardOk(c, st, s);
    assert |st.slots[s]| == |c.txs|;
    forall i | 0 <= i < |c.txs| ensures st.slots[s][i] == SpecSlot(c, s, i) {
      WidOk(c, st, Wid(s, i));
    }
    hide SpecSlot, SpecStore, WorkerOk;
    assert st.slots[s] == SpecSlots(c, s);
    FinalSlots(c, s);
    SlotsReplay(c, s, |c.txs|);
  }

  lemma InstallInv(c: Config, st: State, s: nat)
    requires Inv(c, st) && Enabled(c, st, Install(s))
    ensures Inv(c, Next(c, st, Install(s)))
  {
    hide Inv, SpecSlot, SpecReads, Sees, PayloadOk, NoneSee, SpecStore, Replay;
    InvShape(c, st);
    InstallStore(c, st, s);
    var after := Next(c, st, Install(s));
    hide DoInstall, Next;
    forall t: nat | t < c.layout.shardCount ensures StoreOk(c, after, t) {
      ShardOk(c, st, t);
    }
    forall v | v in Wids(c) ensures WorkerOk(c, after, v) && GotOk(c, after, v) {
      WidOk(c, st, v);
      assert Wid(v.shard, v.tx) == v;
    }
    forall m | m in after.msgs ensures MsgOk(c, after, m) {
      BagOk(c, st, m);
    }
    forall i: nat, from: nat, to: nat ensures SentOk(c, after, i, from, to) {
      TripleOk(c, st, i, from, to);
    }
    InvIntro(c, after);
  }

  // ---------------------------------------------------------------- worker steps

  lemma ConcludeIs(c: Config, st: State, before: State, w: Wid, slot: SlotState)
    requires Inv(c, st) && w in Wids(c) && before == st.(msgs := before.msgs)
    requires !st.phases[w].Closed? && slot == SpecSlot(c, w.shard, w.tx)
    ensures !slot.Pending? && w !in st.finished
    ensures Shape(c, st) && Conclude(c, before, w, slot) == st.(phases := st.phases[w := Closed], msgs := before.msgs,
              slots := st.slots[w.shard := st.slots[w.shard][w.tx := slot]])
  {
    hide Inv, SpecSlot, SpecReads, Sees, NoneSee, SpecStore, SpecSlots;
    InvShape(c, st);
    WidOk(c, st, w);
    FinalSlots(c, w.shard);
    SlotAt(c, w.shard, w.tx);
  }

  lemma ClosedMoves(c: Config, st: State, after: State, w: Wid)
    requires Inv(c, st) && Shape(c, st) && Shape(c, after) && w in Wids(c) && w !in st.finished
    requires !st.phases[w].Closed? && !st.phases[w].Errored? && after.phases == st.phases[w := Closed]
    requires after == st.(phases := after.phases, msgs := after.msgs, slots := after.slots) && after.msgs <= st.msgs
    requires forall s, i | 0 <= s < |st.slots| && 0 <= i < |c.txs| && Wid(s, i) != w :: st.slots[s][i] == after.slots[s][i]
    requires forall m | m in st.msgs && m !in after.msgs :: m.tx == w.tx && m.to == w.shard
    ensures Moved(c, st, after, w) && KeepsMail(st, after, w)
  {
    hide Inv;
  }

  lemma ClosedOk(c: Config, st: State, after: State, w: Wid)
    requires Inv(c, st) && Shape(c, st) && Shape(c, after) && w in Wids(c) && w.shard in st.started && w !in st.finished
    requires after.phases == st.phases[w := Closed] && after.started == st.started && after.finished == st.finished
    requires after.installed == st.installed
    requires after.slots[w.shard][w.tx] == SpecSlot(c, w.shard, w.tx) && !SpecSlot(c, w.shard, w.tx).Pending?
    ensures WorkerOk(c, after, w) && GotOk(c, after, w)
  {
    hide Inv, SpecSlot, SpecReads, Sees, NoneSee, SpecStore, Valid, Sound;
    WidOk(c, st, w);
  }

  /** Closing a worker with its specified slot state keeps the invariant. */
  lemma ConcludeInv(c: Config, st: State, before: State, w: Wid, slot: SlotState)
    requires Inv(c, st) && w in Wids(c) && w.shard in st.started
    requires !st.phases[w].Closed? && !st.phases[w].Errored?
    requires before == st.(msgs := before.msgs) && before.msgs <= st.msgs
    requires forall m | m in st.msgs && m !in before.msgs :: m.tx == w.tx && m.to == w.shard
    requires slot == SpecSlot(c, w.shard, w.tx)
    requires !Participant(c, w) || (forall to | to in Others(c, w) :: HasSent(st, w, to))
    ensures Inv(c, Conclude(c, before, w, slot))
  {
    hide Inv, SpecSlot, Moved, SentOk, MsgOk, WorkerOk, GotOk, KeepsMail, HasSent, Participant, Others, Conclude, Valid, Sound;
    ConcludeIs(c, st, before, w, slot);
    var after := Conclude(c, before, w, slot);
    ClosedMoves(c, st, after, w);
    ClosedOk(c, st, after, w);
    forall m | m in after.msgs && (m !in st.msgs || Wid(m.to, m.tx) == w) ensures MsgOk(c, after, m) {
      MovedTarget(c, st, after, w, m);
    }
    forall n: nat ensures SentOk(c, after, w.tx, w.shard, n) && SentOk(c, after, w.tx, n, w.shard) {
      ConcludeSent(c, st, after, w, n);
      MovedTo(c, st, after, w, n);
    }
    MovedInv(c, st, after, w);
  }

  lemma ConcludeSent(c: Config, st: State, after: State, w: Wid, n: nat)
    requires Inv(c, st) && Moved(c, st, after, w)
    requires !Participant(c, w) || (forall to | to in Others(c, w) :: HasSent(st, w, to))
    ensures SentOk(c, after, w.tx, w.shard, n)
  {
    hide Inv;
    if w.tx < |c.txs| && n in Others(c, w) && Participant(c, w) {
      MovedFrom(c, st, after, w, n);
    }
  }

  lemma SkipInv(c: Config, st: State, w: Wid)
    requires Inv(c, st) && Enabled(c, st, Skip(w))
    ensures Inv(c, Next(c, st, Skip(w)))
  {
    hide Inv;
    InvShape(c, st);
    ConcludeInv(c, st, st, w, NoOp);
  }

  lemma ScanMeans(c: Config, st: State, w: Wid)
    requires Inv(c, st) && w in Wids(c) && w !in st.finished && !WorkerScan(c, st, w).Blocked?
    ensures WorkerScan(c, st, w) == if Sees(c, w.shard, w.tx) then Failing(Error.SpeculationFailed)
                                    else Materialized.Reads(SpecReads(c, w.tx, {w.shard}))
  {
    hide Inv;
    InvShape(c, st);
    ShardOk(c, st, w.shard);
    WidOk(c, st, w);
    forall i | 0 <= i < |c.txs| ensures st.slots[w.shard][i].Pending? || st.slots[w.shard][i] == SpecSlot(c, w.shard, i) {
      WidOk(c, st, Wid(w.shard, i));
    }
    hide SpecSlot, SpecStore, WorkerOk, Sees, SpecReads;
    assert Extends(st.slots[w.shard], SpecSlots(c, w.shard));
    ScanSpec(c, st.slots[w.shard], w.shard, w.tx);
  }

  lemma MaterializeInv(c: Config, st: State, w: Wid)
    requires Inv(c, st) && Enabled(c, st, Materialize(w))
    ensures Inv(c, Next(c, st, Materialize(w)))
  {
    hide Inv, SpecSlot, SpecReads, Sees, NoneSee, SpecStore, WorkerScan;
    InvShape(c, st);
    WidOk(c, st, w);
    ScanMeans(c, st, w);
    var after := Next(c, st, Materialize(w));
    assert after.phases[w].Sending? && after.phases[w].left == Others(c, w);
    PhaseMoved(c, st, after, w);
    forall n: nat ensures SentOk(c, after, w.tx, w.shard, n) && SentOk(c, after, w.tx, n, w.shard) {
      MovedTo(c, st, after, w, n);
    }
    forall m | m in after.msgs && (m !in st.msgs || Wid(m.to, m.tx) == w) ensures MsgOk(c, after, m) {
      MovedTarget(c, st, after, w, m);
    }
    hide *;
    MovedInv(c, st, after, w);
  }

  lemma SendInv(c: Config, st: State, w: Wid, to: nat)
    requires Inv(c, st) && Enabled(c, st, Send(w, to))
    ensures Inv(c, Next(c, st, Send(w, to)))
  {
    hide Inv;
    InvShape(c, st);
    WidOk(c, st, w);
    WidOk(c, st, Wid(to, w.tx));
    hide SpecSlot, SpecReads, Sees, NoneSee, SpecStore;
    var after := Next(c, st, Send(w, to));
    PhaseMoved(c, st, after, w);
    assert after.phases[w].Errored? ==> after.msgs == st.msgs;
    forall n: nat ensures SentOk(c, after, w.tx, w.shard, n) && SentOk(c, after, w.tx, n, w.shard) {
      if n != to {
        MovedFrom(c, st, after, w, n);
      }
      MovedTo(c, st, after, w, n);
    }
    forall m | m in after.msgs && (m !in st.msgs || Wid(m.to, m.tx) == w) ensures MsgOk(c, after, m) {
      SentMsg(c, st, w, to, m);
    }
    hide *;
    MovedInv(c, st, after, w);
  }

  lemma SentMsg(c: Config, st: State, w: Wid, to: nat, m: Msg)
    requires Inv(c, st) && Enabled(c, st, Send(w, to)) && Moved(c, st, DoSend(c, st, w, to), w)
    requires m in DoSend(c, st, w, to).msgs && (m !in st.msgs || Wid(m.to, m.tx) == w)
    ensures MsgOk(c, DoSend(c, st, w, to), m)
  {
    hide Inv;
    InvShape(c, st);
    if m in st.msgs {
      MovedTarget(c, st, DoSend(c, st, w, to), w, m);
    } else {
      WidOk(c, st, w);
      WidOk(c, st, Wid(to, w.tx));
      hide Sees, SpecReads, SpecSlot;
    }
  }

  lemma SettleInv(c: Config, st: State, w: Wid)
    requires Inv(c, st) && Enabled(c, st, Settle(w))
    ensures Inv(c, Next(c, st, Settle(w)))
  {
    hide Inv;
    InvShape(c, st);
    WidOk(c, st, w);
    VerdictBySight(c, w.tx);
    if st.phases[w].payload.None? {
      ConcludeInv(c, st, st, w, Failed);
    } else {
      SettleReads(c, st, w);
    }
  }

  lemma SettleReads(c: Config, st: State, w: Wid)
    requires Inv(c, st) && Enabled(c, st, Settle(w)) && st.phases[w].payload.Some?
    ensures Inv(c, Next(c, st, Settle(w)))
  {
    hide Inv;
    InvShape(c, st);
    WidOk(c, st, w);
    hide SpecSlot, SpecReads, Sees, SpecStore;
    var after := Next(c, st, Settle(w));
    PhaseMoved(c, st, after, w);
    assert {} + {w.shard} == {w.shard};
    QuietInv(c, st, after, w);
  }

  /** Reads from one more shard extend the collected part of the prefix. */
  lemma JoinReads(c: Config, i: nat, shards: set<nat>, from: nat)
    requires i < |c.txs| && from !in shards
    ensures SpecReads(c, i, {from}).Keys == LocalKeys(c.layout, c.txs[i].readSet, from)
    ensures SpecReads(c, i, {from}).Keys !! SpecReads(c, i, shards).Keys
    ensures SpecReads(c, i, shards) + SpecReads(c, i, {from}) == SpecReads(c, i, shards + {from})
  {
    hide SpecStore;
  }

  lemma DeliverInv(c: Config, st: State, m: Msg)
    requires Inv(c, st) && Enabled(c, st, Deliver(m))
    ensures Inv(c, Next(c, st, Deliver(m)))
  {
    hide Inv;
    InvShape(c, st);
    var w := Wid(m.to, m.tx);
    WidOk(c, st, w);
    BagOk(c, st, m);
    VerdictBySight(c, w.tx);
    if m.payload.None? {
      ConcludeInv(c, st, st.(msgs := st.msgs - {m}), w, Failed);
    } else {
      DeliverReads(c, st, m);
    }
  }

  lemma DeliverReads(c: Config, st: State, m: Msg)
    requires Inv(c, st) && Enabled(c, st, Deliver(m)) && m.payload.Some?
    ensures Inv(c, Next(c, st, Deliver(m)))
  {
    hide Inv, SpecSlot, SpecReads, Sees, SpecStore;
    InvShape(c, st);
    var w := Wid(m.to, m.tx);
    WidOk(c, st, w);
    BagOk(c, st, m);
    var p := st.phases[w];
    JoinReads(c, w.tx, p.received + {w.shard}, m.from);
    assert p.received + {m.from} + {w.shard} == p.received + {w.shard} + {m.from};
    var after := Next(c, st, Deliver(m));
    assert after.phases[w] == Collecting(p.received + {m.from}, p.full + m.payload.value);
    PhaseMoved(c, st, after, w);
    forall n | n in after.msgs && Wid(n.to, n.tx) == w ensures n.from !in after.phases[w].received {
      BagOk(c, st, n);
      assert n.from == m.from ==> n == m;
    }
    QuietInv(c, st, after, w);
  }

  /** Verdict agreement at its root: whoever executes does so on the full reads that the
  specified prefix gives, having seen no failed slot anywhere, so it reaches the verdict. */
  lemma DecideMeans(c: Config, st: State, w: Wid)
    requires Inv(c, st) && Enabled(c, st, Decide(w))
    ensures Participant(c, w)
    ensures st.phases[w].full == ReadMany(SpecStore(c, Cut(c, w.tx)), c.txs[w.tx].readSet)
    ensures c.txs[w.tx].run(st.phases[w].full) == SpecVerdict(c, w.tx)
    ensures forall s | s in Sources(c, w.tx) :: !Sees(c, s, w.tx)
  {
    hide Inv;
    InvShape(c, st);
    WidOk(c, st, w);
    VerdictBySight(c, w.tx);
    assert Others(c, w) + {w.shard} == Sources(c, w.tx);
    assert (set k | k in c.txs[w.tx].readSet && c.layout.shardFor(k) in Sources(c, w.tx)) == c.txs[w.tx].readSet;
  }

  lemma DecideInv(c: Config, st: State, w: Wid)
    requires Inv(c, st) && Enabled(c, st, Decide(w))
    ensures Inv(c, Next(c, st, Decide(w)))
  {
    hide Inv;
    InvShape(c, st);
    WidOk(c, st, w);
    DecideMeans(c, st, w);
    ConcludeInv(c, st, st, w, SpecSlot(c, w.shard, w.tx));
  }

  // ---------------------------------------------------------------- every run

  lemma NextInv(c: Config, st: State, a: Action)
    requires Inv(c, st) && Shape(c, st) && Enabled(c, st, a)
    ensures Inv(c, Next(c, st, a))
  {
    hide Inv;
    match a
    case Start(s) => StartInv(c, st, s);
    case Skip(w) => SkipInv(c, st, w);
    case Materialize(w) => MaterializeInv(c, st, w);
    case Send(w, to) => SendInv(c, st, w, to);
    case Settle(w) => SettleInv(c, st, w);
    case Deliver(m) => DeliverInv(c, st, m);
    case Decide(w) => DecideInv(c, st, w);
    case Finish(w) => FinishInv(c, st, w);
    case Install(s) => InstallInv(c, st, s);
  }

  /** Every state of every run satisfies the invariant, whatever the mailboxes do. */
  lemma {:induction false} RunInv(c: Config, acts: seq<Action>)
    requires Valid(c) && Sound(c) && Run(c, acts).Some?
    ensures Inv(c, Run(c, acts).value)
  {
    if acts == [] {
      InitInv(c);
    } else {
      hide Inv;
      RunInv(c, acts[..|acts| - 1]);
      NextInv(c, Run(c, acts[..|acts| - 1]).value, acts[|acts| - 1]);
    }
  }
}
