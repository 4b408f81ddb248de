/** When an SCC batch can fail to finish. A participant that sees a lost transaction in the
prefix it reads settles without waiting for the others and closes its mailbox; whoever still
has to send to it then meets an error. So a batch is safe exactly if no transaction that
spans shards sees a lost transaction, which the batch, the layout and the starting store
decide before anything runs. */
module SccSight {
  import opened Model
  import opened Router
  import opened CommitSequences
  import opened SccProtocol
  import opened SccSystem
  import opened SccRuns

  /** A transaction that spans shards and sees, on one of them, a lost transaction in the
  prefix it reads. */
  predicate Offends(c: Config, i: nat)
    requires i < |c.txs|
  {
    exists s | s in Sources(c, i) :: Sees(c, s, i) && Sources(c, i) != {s}
  }

  ghost predicate NoSightBelow(c: Config, n: nat) {
    forall i: nat | i < n && i < |c.txs| :: !Offends(c, i)
  }

  ghost predicate NoSight(c: Config) {
    NoSightBelow(c, |c.txs|)
  }

  /** Batches on one shard and batches that lose nothing are safe. */
  lemma PlainlySafe(c: Config)
    requires Valid(c) && (c.layout.shardCount == 1 || LostSet(c) == {})
    ensures NoSight(c)
  {
    forall i, s | 0 <= i < |c.txs| && s in Sources(c, i) ensures Sees(c, s, i) ==> Sources(c, i) == {s} {
      if Sees(c, s, i) {
        var k :| 0 <= k < Cut(c, i) && SpecVerdict(c, k).Lost? && s in Sources(c, k);
        assert k in LostSet(c);
        assert forall t | t in Sources(c, i) :: t == 0;
      }
    }
  }

  // ---------------------------------------------------------------- safe batches

  /** A participant is done only when all the others have told it what they know. */
  ghost predicate ToldOk(c: Config, st: State, n: nat, v: Wid)
    requires Shape(c, st)
  {
    v in Wids(c) && v.tx < n && Participant(c, v) && st.phases[v].Closed? ==>
      forall f | f in Others(c, v) :: HasSent(st, Wid(f, v.tx), v.shard)
  }

  /** No error yet, and none to come from the first `n` transactions. */
  ghost predicate Calm(c: Config, st: State, n: nat)
    requires Shape(c, st)
  {
    Healthy(c, st) && forall v | v in Wids(c) :: ToldOk(c, st, n, v)
  }

  lemma NoLateSend(c: Config, st: State, a: Action, n: nat)
    requires Inv(c, st) && Shape(c, st) && Calm(c, st, n) && Enabled(c, st, a)
    requires a.Send? ==> a.w.tx < n
    ensures !LateSend(c, st, a)
  {
    hide Inv;
    if a.Send? {
      WidOk(c, st, a.w);
      var v := Wid(a.to, a.w.tx);
      assert ToldOk(c, st, n, v) && Wid(a.w.shard, v.tx) == a.w;
      assert a.w.shard in Others(c, v);
    }
  }

  lemma SentStays(c: Config, st: State, a: Action, w: Wid, to: nat)
    requires Shape(c, st) && Enabled(c, st, a) && HasSent(st, w, to)
    ensures HasSent(Next(c, st, a), w, to)
  {
    hide WorkerScan, Settled;
  }

  /** Without an offending transaction nobody is ever told of a lost one by another shard. */
  lemma DeliveredReads(c: Config, st: State, m: Msg)
    requires Inv(c, st) && Shape(c, st) && Enabled(c, st, Deliver(m)) && m.tx < |c.txs| && !Offends(c, m.tx)
    ensures m.payload.Some? && !Next(c, st, Deliver(m)).phases[Wid(m.to, m.tx)].Closed?
  {
    hide Inv;
    BagOk(c, st, m);
    assert m.to in Sources(c, m.tx) && m.from in Sources(c, m.tx) && m.to != m.from;
    hide Sees, SpecReads;
  }

  /** A participant that closes has heard from all the others. */
  lemma ClosesTold(c: Config, st: State, a: Action, v: Wid, f: nat)
    requires Inv(c, st) && Shape(c, st) && Enabled(c, st, a) && v in Wids(c) && Participant(c, v)
    requires !Offends(c, v.tx) && f in Others(c, v)
    requires !st.phases[v].Closed? && Next(c, st, a).phases[v].Closed?
    ensures HasSent(st, Wid(f, v.tx), v.shard)
  {
    hide Inv;
    WidOk(c, st, v);
    match a
    case Settle(w) => SettleAlone(c, st, w);
    case Deliver(m) => DeliverOther(c, st, m, v);
    case _ =>
  }

  lemma SettleAlone(c: Config, st: State, w: Wid)
    requires Inv(c, st) && Shape(c, st) && Enabled(c, st, Settle(w)) && !Offends(c, w.tx)
    ensures st.phases[w].payload.None? ==> Others(c, w) == {}
    ensures st.phases[w].payload.Some? ==> !Next(c, st, Settle(w)).phases[w].Closed?
  {
    hide Inv;
    WidOk(c, st, w);
    hide SpecReads, Sees;
  }

  lemma DeliverOther(c: Config, st: State, m: Msg, v: Wid)
    requires Inv(c, st) && Shape(c, st) && Enabled(c, st, Deliver(m)) && v in Wids(c) && !Offends(c, v.tx)
    ensures Next(c, st, Deliver(m)).phases[v].Closed? ==> st.phases[v].Closed?
  {
    hide Inv, DoDeliver, Offends;
    DeliverHealthy(c, st, m);
    assert Next(c, st, Deliver(m)) == DoDeliver(c, st, m);
    if v == Wid(m.to, m.tx) {
      DeliveredReads(c, st, m);
    }
  }

  /** Steps of transactions that do not offend keep the calm. */
  lemma CalmStep(c: Config, st: State, a: Action, n: nat)
    requires Inv(c, st) && Shape(c, st) && Calm(c, st, n) && Enabled(c, st, a) && NoSightBelow(c, n)
    requires a.Send? ==> a.w.tx < n
    ensures Calm(c, Next(c, st, a), n)
  {
    NoLateSend(c, st, a, n);
    var after := Next(c, st, a);
    hide Inv, Next, Enabled, LateSend;
    forall v | v in Wids(c) ensures !after.phases[v].Errored? {
      OnlyLateSendsErr(c, st, a, v);
    }
    forall v | v in Wids(c) ensures ToldOk(c, after, n, v) {
      ToldStep(c, st, a, n, v);
    }
  }

  lemma ToldStep(c: Config, st: State, a: Action, n: nat, v: Wid)
    requires Inv(c, st) && Shape(c, st) && Enabled(c, st, a) && v in Wids(c) && NoSightBelow(c, n)
    requires ToldOk(c, st, n, v)
    ensures ToldOk(c, Next(c, st, a), n, v)
  {
    hide Inv, Next, Enabled, Offends;
    var after := Next(c, st, a);
    if v.tx < n && Participant(c, v) && after.phases[v].Closed? {
      forall f | f in Others(c, v) ensures HasSent(after, Wid(f, v.tx), v.shard) {
        if !st.phases[v].Closed? {
          ClosesTold(c, st, a, v, f);
        }
        SentStays(c, st, a, Wid(f, v.tx), v.shard);
      }
    }
  }

  /** In a safe batch no run meets an error, although mailboxes close. */
  lemma {:induction false} SafeRuns(c: Config, acts: seq<Action>)
    requires Valid(c) && Sound(c) && NoSight(c) && Run(c, acts).Some?
    ensures Calm(c, Run(c, acts).value, |c.txs|)
  {
    if acts == [] {
    } else {
      var front, a := acts[..|acts| - 1], acts[|acts| - 1];
      SafeRuns(c, front);
      RunInv(c, front);
      hide Inv, Calm;
      SendsWithin(c, Run(c, front).value, a);
      CalmStep(c, Run(c, front).value, a, |c.txs|);
    }
  }

  lemma SendsWithin(c: Config, st: State, a: Action)
    requires Shape(c, st) && Enabled(c, st, a)
    ensures a.Send? ==> a.w.tx < |c.txs|
  {
  }

  // ---------------------------------------------------------------- unsafe batches

  ghost predicate AllStarted(c: Config, st: State) {
    forall s: nat | s < c.layout.shardCount :: s in st.started
  }

  ghost predicate IdleFrom(c: Config, st: State, n: nat)
    requires Shape(c, st)
  {
    forall w | w in Wids(c) && w.tx >= n :: st.phases[w].Idle?
  }

  /** A run in which only the first `n` transactions have moved, and calmly. */
  ghost predicate Ready(c: Config, acts: seq<Action>, n: nat) {
    && Run(c, acts).Some? && Inv(c, Run(c, acts).value)
    && Calm(c, Run(c, acts).value, n) && IdleFrom(c, Run(c, acts).value, n)
  }

  lemma StartedStep(c: Config, acts: seq<Action>, n: nat, s: nat)
    requires Ready(c, acts, n) && s < c.layout.shardCount && s !in Run(c, acts).value.started
    ensures Ready(c, acts + [Start(s)], n)
    ensures Run(c, acts + [Start(s)]).value.started == Run(c, acts).value.started + {s}
  {
    var st := Run(c, acts).value;
    RunMore(c, acts, Start(s));
    NextInv(c, st, Start(s));
    var after := Next(c, st, Start(s));
    assert after.phases == st.phases;
    hide Inv, Run;
    forall v | v in Wids(c) ensures ToldOk(c, after, n, v) {
      assert ToldOk(c, st, n, v);
    }
  }

  lemma NothingRun(c: Config, n: nat)
    requires Valid(c) && Sound(c)
    ensures Ready(c, [], n) && Run(c, []).value.started == {}
  {
    InitInv(c);
    hide Inv;
  }

  /** A run that only starts the shards. */
  lemma StartAll(c: Config, n: nat) returns (acts: seq<Action>)
    requires Valid(c) && Sound(c)
    ensures Ready(c, acts, n) && AllStarted(c, Run(c, acts).value)
  {
    NothingRun(c, n);
    acts := [];
    hide Ready;
    var s := 0;
    while s < c.layout.shardCount
      invariant s <= c.layout.shardCount && Ready(c, acts, n) && Run(c, acts).Some?
      invariant forall t: nat :: t in Run(c, acts).value.started <==> t < s
    {
      StartedStep(c, acts, n, s);
      ReadyRuns(c, acts + [Start(s)], n);
      acts := acts + [Start(s)];
      s := s + 1;
    }
  }

  lemma ReadyRuns(c: Config, acts: seq<Action>, n: nat)
    requires Ready(c, acts, n)
    ensures Run(c, acts).Some?
  {
  }

  lemma OthersStay(c: Config, st: State, a: Action, i: nat, v: Wid)
    requires Shape(c, st) && Enabled(c, st, a) && MovesTx(a, i) && v in Wids(c) && v.tx != i
    ensures Next(c, st, a).phases[v] == st.phases[v] && Next(c, st, a).started == st.started
  {
    hide WorkerScan, Settled;
  }

  lemma StartedStays(c: Config, st: State, a: Action, i: nat)
    requires Shape(c, st) && Enabled(c, st, a) && MovesTx(a, i)
    ensures Next(c, st, a).started == st.started
  {
    hide WorkerScan, Settled;
  }

  lemma ReadyStep(c: Config, acts: seq<Action>, n: nat, a: Action, i: nat)
    requires Ready(c, acts, n) && NoSightBelow(c, n) && i < n && MovesTx(a, i)
    requires Enabled(c, Run(c, acts).value, a)
    ensures Ready(c, acts + [a], n)
    ensures Run(c, acts + [a]).value == Next(c, Run(c, acts).value, a)
  {
    var st := Run(c, acts).value;
    RunMore(c, acts, a);
    NextInv(c, st, a);
    CalmStep(c, st, a, n);
    hide Inv, Run, Calm, Next, Enabled;
    forall w | w in Wids(c) && w.tx >= n ensures Next(c, st, a).phases[w].Idle? {
      OthersStay(c, st, a, i, w);
    }
  }

  /** The lowest unfinished worker below `n`, if there is one. */
  lemma LowestBelow(c: Config, st: State, n: nat) returns (w: Wid)
    requires !FinishedBelow(c, st, n)
    ensures w in Wids(c) && w.tx < n && w !in st.finished && FinishedBelow(c, st, w.tx)
  {
    var i := 0;
    while i < n && forall v | v in Wids(c) && v.tx == i :: v in st.finished
      invariant i <= n && FinishedBelow(c, st, i)
      decreases n - i
    {
      i := i + 1;
    }
    w :| w in Wids(c) && w.tx == i && w !in st.finished;
  }

  /** The first `n` transactions can be run to their end without an error. */
  lemma Drive(c: Config, acts: seq<Action>, n: nat) returns (more: seq<Action>)
    requires Ready(c, acts, n) && NoSightBelow(c, n) && AllStarted(c, Run(c, acts).value)
    ensures Ready(c, more, n) && AllStarted(c, Run(c, more).value) && FinishedBelow(c, Run(c, more).value, n)
    decreases Measure(c, Run(c, acts).value)
  {
    var st := Run(c, acts).value;
    hide Inv, Run, Enabled, Next, Measure;
    if FinishedBelow(c, st, n) {
      return acts;
    }
    var w := LowestBelow(c, st, n);
    var a := LowestMoves(c, st, w);
    ReadyStep(c, acts, n, a, w.tx);
    NextDrops(c, st, a);
    StartedStays(c, st, a, w.tx);
    more := Drive(c, acts + [a], n);
  }

  /** Everything below `i` is over and of `i` itself only the worker on shard `s` has moved. */
  ghost predicate Alone(c: Config, st: State, i: nat, s: nat) {
    && Inv(c, st) && Shape(c, st) && AllStarted(c, st) && FinishedBelow(c, st, i)
    && forall w | w in Wids(c) && w.tx == i && w.shard != s :: st.phases[w].Idle?
  }

  /** Reading, telling and settling change one worker's phase and no finished worker. */
  lemma OwnStep(c: Config, st: State, w: Wid, a: Action)
    requires Shape(c, st) && Enabled(c, st, a)
    requires a == Materialize(w) || (a.Send? && a.w == w) || a == Settle(w)
    ensures w in st.phases && w in Next(c, st, a).phases
    ensures Next(c, st, a).phases == st.phases[w := Next(c, st, a).phases[w]]
    ensures Next(c, st, a).started == st.started && Next(c, st, a).finished == st.finished
  {
    hide WorkerScan;
  }

  lemma AloneStep(c: Config, st: State, i: nat, s: nat, a: Action)
    requires Alone(c, st, i, s) && Enabled(c, st, a)
    requires a == Materialize(Wid(s, i)) || (a.Send? && a.w == Wid(s, i)) || a == Settle(Wid(s, i))
    ensures Alone(c, Next(c, st, a), i, s)
  {
    NextInv(c, st, a);
    OwnStep(c, st, Wid(s, i), a);
    hide Inv, Next, Enabled;
  }

  /** The shard that sees the lost transaction reports it. */
  lemma SeerReports(c: Config, acts: seq<Action>, i: nat, s: nat) returns (more: seq<Action>)
    requires Run(c, acts).Some? && Alone(c, Run(c, acts).value, i, s)
    requires i < |c.txs| && Wid(s, i) in Wids(c) && s in Sources(c, i) && Sees(c, s, i)
    requires Run(c, acts).value.phases[Wid(s, i)].Idle?
    ensures Run(c, more).Some? && Alone(c, Run(c, more).value, i, s)
    ensures Run(c, more).value.phases[Wid(s, i)] == Sending(Others(c, Wid(s, i)), None)
  {
    var st, w := Run(c, acts).value, Wid(s, i);
    hide Inv, Run;
    LowestReads(c, st, w);
    WidOk(c, st, w);
    ScanMeans(c, st, w);
    RunMore(c, acts, Materialize(w));
    AloneStep(c, st, i, s, Materialize(w));
    more := acts + [Materialize(w)];
  }

  /** It tells the others, who have not begun, one by one. */
  lemma SeerTells(c: Config, acts: seq<Action>, i: nat, s: nat) returns (more: seq<Action>)
    requires Run(c, acts).Some? && Alone(c, Run(c, acts).value, i, s) && i < |c.txs| && Wid(s, i) in Wids(c)
    requires Run(c, acts).value.phases[Wid(s, i)].Sending? && Run(c, acts).value.phases[Wid(s, i)].payload.None?
    ensures Run(c, more).Some? && Alone(c, Run(c, more).value, i, s)
    ensures Run(c, more).value.phases[Wid(s, i)] == Sending({}, None)
    decreases Run(c, acts).value.phases[Wid(s, i)].left
  {
    var st, w := Run(c, acts).value, Wid(s, i);
    hide Inv, Run;
    if to :| to in st.phases[w].left {
      TellOne(c, st, i, s, to);
      RunMore(c, acts, Send(w, to));
      AloneStep(c, st, i, s, Send(w, to));
      more := SeerTells(c, acts + [Send(w, to)], i, s);
    } else {
      more := acts;
    }
  }

  lemma TellOne(c: Config, st: State, i: nat, s: nat, to: nat)
    requires Alone(c, st, i, s) && Wid(s, i) in Wids(c)
    requires st.phases[Wid(s, i)].Sending? && to in st.phases[Wid(s, i)].left
    ensures Enabled(c, st, Send(Wid(s, i), to))
    ensures Next(c, st, Send(Wid(s, i), to)).phases[Wid(s, i)] ==
            Sending(st.phases[Wid(s, i)].left - {to}, st.phases[Wid(s, i)].payload)
  {
    hide Inv;
    InvShape(c, st);
    WidOk(c, st, Wid(s, i));
    assert Wid(to, i) in Wids(c) && to != s;
  }

  lemma SeerSettles(c: Config, st: State, i: nat, s: nat)
    requires Alone(c, st, i, s) && Wid(s, i) in Wids(c) && st.phases[Wid(s, i)] == Sending({}, None)
    ensures Enabled(c, st, Settle(Wid(s, i))) && Next(c, st, Settle(Wid(s, i))).phases[Wid(s, i)].Closed?
  {
    hide Inv;
    WidOk(c, st, Wid(s, i));
  }

  /** Another participant now reads, and means to tell the one that has closed. */
  lemma LateReader(c: Config, st: State, i: nat, s: nat, t: nat)
    requires Alone(c, st, i, s) && i < |c.txs| && Wid(t, i) in Wids(c) && t != s
    requires s in Sources(c, i) && t in Sources(c, i)
    ensures Enabled(c, st, Materialize(Wid(t, i)))
    ensures var next := Next(c, st, Materialize(Wid(t, i))).phases;
      next == st.phases[Wid(t, i) := next[Wid(t, i)]] && next[Wid(t, i)].Sending? && s in next[Wid(t, i)].left
  {
    var w := Wid(t, i);
    hide Inv;
    LowestReads(c, st, w);
    WidOk(c, st, w);
    ScanMeans(c, st, w);
    OwnStep(c, st, w, Materialize(w));
    hide WorkerScan, Sees, SpecReads;
  }

  lemma LateMeets(c: Config, st: State, i: nat, s: nat, t: nat)
    requires Shape(c, st) && !c.absorbing && Wid(s, i) in Wids(c) && Wid(t, i) in Wids(c)
    requires st.phases[Wid(s, i)].Closed? && st.phases[Wid(t, i)].Sending? && s in st.phases[Wid(t, i)].left
    ensures Enabled(c, st, Send(Wid(t, i), s)) && !Healthy(c, Next(c, st, Send(Wid(t, i), s)))
  {
    assert Next(c, st, Send(Wid(t, i), s)).phases[Wid(t, i)].Errored?;
  }

  /** It meets the closed mailbox when it sends. */
  lemma LateOne(c: Config, acts: seq<Action>, i: nat, s: nat, t: nat) returns (more: seq<Action>)
    requires Run(c, acts).Some? && Alone(c, Run(c, acts).value, i, s) && !c.absorbing
    requires i < |c.txs| && Wid(s, i) in Wids(c) && Wid(t, i) in Wids(c) && t != s
    requires s in Sources(c, i) && t in Sources(c, i) && Run(c, acts).value.phases[Wid(s, i)].Closed?
    ensures Run(c, more).Some? && !Healthy(c, Run(c, more).value)
  {
    var st, w := Run(c, acts).value, Wid(t, i);
    hide Inv, Run, Next, Enabled, Healthy, Alone, Wids;
    LateReader(c, st, i, s, t);
    RunMore(c, acts, Materialize(w));
    LateMeets(c, Next(c, st, Materialize(w)), i, s, t);
    RunMore(c, acts + [Materialize(w)], Send(w, s));
    more := acts + [Materialize(w)] + [Send(w, s)];
  }

  /** An offending transaction that no other precedes: some run meets an error. */
  lemma FirstOffender(c: Config, i: nat) returns (acts: seq<Action>)
    requires Valid(c) && Sound(c) && !c.absorbing && i < |c.txs| && NoSightBelow(c, i) && Offends(c, i)
    ensures Run(c, acts).Some? && !Healthy(c, Run(c, acts).value)
  {
    var s :| s in Sources(c, i) && Sees(c, s, i) && Sources(c, i) != {s};
    var t :| t in Sources(c, i) && t != s;
    acts := StartAll(c, i);
    acts := Drive(c, acts, i);
    SourceWids(c, i);
    hide Inv, Run;
    acts := SeerReports(c, acts, i, s);
    acts := SeerTells(c, acts, i, s);
    SeerSettles(c, Run(c, acts).value, i, s);
    RunMore(c, acts, Settle(Wid(s, i)));
    AloneStep(c, Run(c, acts).value, i, s, Settle(Wid(s, i)));
    acts := LateOne(c, acts + [Settle(Wid(s, i))], i, s, t);
  }

  lemma SourceWids(c: Config, i: nat)
    requires Valid(c) && i < |c.txs|
    ensures forall s | s in Sources(c, i) :: Wid(s, i) in Wids(c)
  {
  }

  /** In an unsafe batch some run meets an error, unless mailboxes absorb late messages. */
  lemma UnsafeRun(c: Config) returns (acts: seq<Action>)
    requires Valid(c) && Sound(c) && !c.absorbing && !NoSight(c)
    ensures Run(c, acts).Some? && !Healthy(c, Run(c, acts).value)
  {
    hide Run, Healthy, Valid, Sound, Offends;
    var i := 0;
    while i < |c.txs| && !Offends(c, i)
      invariant i <= |c.txs| && NoSightBelow(c, i)
    {
      i := i + 1;
    }
    acts := FirstOffender(c, i);
  }

  // ---------------------------------------------------------------- exactly when

  ghost predicate Maximal(c: Config, acts: seq<Action>) {
    Run(c, acts).Some? && forall a :: !Enabled(c, Run(c, acts).value, a)
  }

  /** Every run goes on to one that can go no further, and an error stays. */
  lemma Exhaust(c: Config, acts: seq<Action>) returns (more: seq<Action>)
    requires Valid(c) && Sound(c) && Run(c, acts).Some?
    ensures Maximal(c, more)
    ensures !Healthy(c, Run(c, acts).value) ==> !Healthy(c, Run(c, more).value)
    decreases Measure(c, Run(c, acts).value)
  {
    var st := Run(c, acts).value;
    RunInv(c, acts);
    hide Inv, Run, Measure, Next;
    if a :| Enabled(c, st, a) {
      RunMore(c, acts, a);
      NextDrops(c, st, a);
      ErrorStays(c, st, a);
      more := Exhaust(c, acts + [a]);
    } else {
      more := acts;
    }
  }

  lemma ErrorStays(c: Config, st: State, a: Action)
    requires Inv(c, st) && Shape(c, st) && Enabled(c, st, a)
    ensures !Healthy(c, st) ==> !Healthy(c, Next(c, st, a))
  {
    hide Inv, Enabled, Next;
    if w :| w in Wids(c) && st.phases[w].Errored? {
      ErrorIsFinal(c, st, a, w);
    }
  }

  /** No run of a batch meets an error exactly if mailboxes absorb late messages or no
  transaction that spans shards sees a lost one. */
  lemma ErrorFreeIff(c: Config)
    requires Valid(c) && Sound(c)
    ensures c.absorbing || NoSight(c) <==> forall acts :: Run(c, acts).Some? ==> Healthy(c, Run(c, acts).value)
  {
    hide Inv, NoSight, Calm;
    if c.absorbing || NoSight(c) {
      forall acts | Run(c, acts).Some? ensures Healthy(c, Run(c, acts).value) {
        SafelyHealthy(c, acts);
      }
    } else {
      var acts := UnsafeRun(c);
    }
  }

  lemma SafelyHealthy(c: Config, acts: seq<Action>)
    requires Valid(c) && Sound(c) && (c.absorbing || NoSight(c)) && Run(c, acts).Some?
    ensures Healthy(c, Run(c, acts).value)
  {
    if c.absorbing {
      RunInv(c, acts);
      AbsorbingIsHealthy(c, Run(c, acts).value);
    } else {
      SafeRuns(c, acts);
    }
  }

  /** Every run that can go no further has installed the batch on every shard exactly if
  mailboxes absorb late messages or no transaction that spans shards sees a lost one. */
  lemma CompletesIff(c: Config)
    requires Valid(c) && Sound(c)
    ensures c.absorbing || NoSight(c) <==> forall acts :: Maximal(c, acts) ==> Complete(c, Run(c, acts).value)
  {
    hide Inv, NoSight, Calm;
    if c.absorbing || NoSight(c) {
      forall acts | Maximal(c, acts) ensures Complete(c, Run(c, acts).value) {
        SafelyHealthy(c, acts);
        MaximalRunCompletes(c, acts);
      }
    } else {
      var acts := UnsafeRun(c);
      var more := Exhaust(c, acts);
      MaximalRunCompletes(c, more);
    }
  }

  /** Such a run ends in the specified store, and the shards' failed sets add up to the lost
  transactions. */
  lemma MaximalRunIsSpecified(c: Config, acts: seq<Action>)
    requires Valid(c) && Sound(c) && (c.absorbing || NoSight(c)) && Maximal(c, acts)
    ensures var st := Run(c, acts).value;
      && Complete(c, st)
      && Merge(st.stores) == SpecStore(c, |c.txs|)
      && forall i :: i in LostSet(c) <==>
           exists s: nat :: s < c.layout.shardCount && i in FailedIndices(st.slots[s])
  {
    hide Inv, NoSight, Run, Complete, Healthy, SpecStore, LostSet, FailedIndices, Merge;
    SafelyHealthy(c, acts);
    MaximalRunCompletes(c, acts);
    RunInv(c, acts);
    CompleteIsSpecified(c, Run(c, acts).value);
  }
}
