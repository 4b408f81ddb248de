/** The semantic scheduler across any number of shards, as a transition system.

Each shard waits for the conflicting predecessors of a transaction, reads from a partial
prefix of its own commit sequence, exchanges reads with the other participants, executes,
and settles its slot once: a delta, nothing, or a failure that later readers of the prefix
inherit. Messages are an unordered bag and any worker whose guard holds may move. What every
interleaving must agree with is the specification below: one verdict for each transaction
and one store for each prefix. */
module SccProtocol {
  import opened Model
  import opened Router
  import opened Deltas
  import opened CommitSequences

  datatype Verdict = Lost | Won(delta: TxDelta) | Broken

  /** `preds` are the conflicting predecessors and `bound` is one more than the largest. */
  datatype SccTxn = SccTxn(readSet: set<Key>, writeSet: set<Key>, preds: set<nat>, bound: nat, run: Reads -> Verdict)

  /** `absorbing`: a mailbox still accepts messages after its worker is done. In the source it
  does not, and a late sender gets an error. */
  datatype Config = Config(layout: Layout, txs: seq<SccTxn>, base: Store, absorbing: bool)

  ghost predicate ValidTxn(t: SccTxn, i: nat) {
    && t.readSet != {} && t.writeSet <= t.readSet && t.bound <= i && (forall u | u in t.preds :: u < t.bound)
    && forall view: Reads | view.Keys == t.readSet && t.run(view).Won? :: t.run(view).delta.Keys <= t.writeSet
  }

  ghost predicate Valid(c: Config) {
    ValidLayout(c.layout) && forall i | 0 <= i < |c.txs| :: ValidTxn(c.txs[i], i)
  }

  // ---------------------------------------------------------------- specification

  function Sources(c: Config, i: nat): set<nat>
    requires i < |c.txs|
  {
    Owners(c.layout, c.txs[i].readSet)
  }

  /** How many leading slots a transaction looks at. */
  function Cut(c: Config, i: nat): (b: nat)
    requires i < |c.txs|
    ensures b <= i
  {
    if c.txs[i].bound <= i then c.txs[i].bound else i
  }

  function Patched(store: Store, delta: TxDelta): Store {
    if ApplyDelta(store, delta).Success? then ApplyDelta(store, delta).value else store
  }

  /** The store after the deltas of the successful transactions among the first `n`. */
  function SpecStore(c: Config, n: nat): Store
    requires n <= |c.txs|
    decreases n, 0
  {
    if n == 0 then c.base
    else match SpecVerdict(c, n - 1)
      case Won(delta) => Patched(SpecStore(c, n - 1), delta)
      case _ => SpecStore(c, n - 1)
  }

  /** A transaction is lost if some shard sees a lost transaction in the prefix it reads;
  otherwise it is executed on the reads of that prefix. */
  function SpecVerdict(c: Config, i: nat): Verdict
    requires i < |c.txs|
    decreases i, 1
  {
    if exists k | 0 <= k < Cut(c, i) :: SpecVerdict(c, k).Lost? && Sources(c, k) * Sources(c, i) != {} then Lost
    else c.txs[i].run(ReadMany(SpecStore(c, Cut(c, i)), c.txs[i].readSet))
  }

  function LostSet(c: Config): set<nat> {
    set i | 0 <= i < |c.txs| && SpecVerdict(c, i).Lost?
  }

  /** One shard sees a lost transaction in the prefix that `i` reads. */
  predicate Sees(c: Config, s: nat, i: nat)
    requires i < |c.txs|
  {
    exists k | 0 <= k < Cut(c, i) :: SpecVerdict(c, k).Lost? && s in Sources(c, k)
  }

  function LocalDelta(c: Config, s: nat, i: nat, delta: TxDelta): TxDelta
    requires i < |c.txs|
  {
    FilterDelta(delta, LocalKeys(c.layout, c.txs[i].writeSet, s))
  }

  function Settled(c: Config, s: nat, i: nat, verdict: Verdict): SlotState
    requires i < |c.txs|
  {
    match verdict
    case Lost => Failed
    case Broken => Pending
    case Won(delta) => if LocalDelta(c, s, i, delta) == map[] then NoOp else Delta(LocalDelta(c, s, i, delta))
  }

  function SpecSlot(c: Config, s: nat, i: nat): SlotState
    requires i < |c.txs|
  {
    if s in Sources(c, i) then Settled(c, s, i, SpecVerdict(c, i)) else NoOp
  }

  function SpecSlots(c: Config, s: nat): seq<SlotState> {
    seq(|c.txs|, i requires 0 <= i < |c.txs| => SpecSlot(c, s, i))
  }

  /** No execution breaks and every successful delta applies to the prefix before it. */
  ghost predicate Sound(c: Config) {
    forall i | 0 <= i < |c.txs| ::
      match SpecVerdict(c, i)
      case Lost => true
      case Broken => false
      case Won(delta) => delta.Keys <= c.txs[i].writeSet && ApplyDelta(SpecStore(c, i), delta).Success?
  }

  /** The part of a prefix that some shards contribute to the reads of a transaction. */
  function SpecReads(c: Config, i: nat, shards: set<nat>): Reads
    requires i < |c.txs|
  {
    ReadMany(SpecStore(c, Cut(c, i)), set k | k in c.txs[i].readSet && c.layout.shardFor(k) in shards)
  }

  function WriteKeys(c: Config, s: nat): seq<set<Key>> {
    seq(|c.txs|, i requires 0 <= i < |c.txs| => LocalKeys(c.layout, c.txs[i].writeSet, s))
  }

  /** A transaction is lost because of an earlier one on a common shard or by its own run. */
  lemma VerdictDef(c: Config, i: nat)
    requires i < |c.txs|
    ensures i in LostSet(c) <==>
      (exists k | 0 <= k < Cut(c, i) :: k in LostSet(c) && Sources(c, k) * Sources(c, i) != {})
      || c.txs[i].run(ReadMany(SpecStore(c, Cut(c, i)), c.txs[i].readSet)) == Lost
  {
    hide SpecStore, Sources;
  }

  /** A lost transaction in the prefix is seen by some participant, or the run decides. */
  lemma VerdictBySight(c: Config, i: nat)
    requires i < |c.txs|
    ensures (exists s | s in Sources(c, i) :: Sees(c, s, i)) ==> SpecVerdict(c, i) == Lost
    ensures !(exists s | s in Sources(c, i) :: Sees(c, s, i)) ==>
              SpecVerdict(c, i) == c.txs[i].run(SpecReads(c, i, Sources(c, i)))
  {
    if s :| s in Sources(c, i) && Sees(c, s, i) {
      var k :| 0 <= k < Cut(c, i) && SpecVerdict(c, k).Lost? && s in Sources(c, k);
      assert s in Sources(c, k) * Sources(c, i);
    } else {
      forall k | 0 <= k < Cut(c, i) && SpecVerdict(c, k).Lost? ensures Sources(c, k) * Sources(c, i) == {} {
        if s :| s in Sources(c, k) * Sources(c, i) {
          assert Sees(c, s, i);
        }
      }
    }
    assert (set k | k in c.txs[i].readSet && c.layout.shardFor(k) in Sources(c, i)) == c.txs[i].readSet;
  }

  // ---------------------------------------------------------------- one shard's slots

  /** A delta restricted to one shard does to the shard's part what it does to the whole. */
  lemma RestrictDelta(l: Layout, store: Store, delta: TxDelta, keys: set<Key>, s: nat)
    requires ApplyDelta(store, delta).Success? && delta.Keys <= keys
    ensures ApplyDelta(Restrict(l, store, s), FilterDelta(delta, LocalKeys(l, keys, s))) ==
            Success(Restrict(l, ApplyDelta(store, delta).value, s))
  {
    var small, part := Restrict(l, store, s), FilterDelta(delta, LocalKeys(l, keys, s));
    forall k | k in part ensures ChangeVal(Val(small, k), part[k]).Success? {
      assert k in delta && l.shardFor(k) == s;
    }
    assert Applicable(small, part);
    var got, want := ApplyDelta(small, part).value, Restrict(l, ApplyDelta(store, delta).value, s);
    forall k ensures Val(got, k) == Val(want, k) {
      ApplyDeltaVal(small, part, k);
      ApplyDeltaVal(store, delta, k);
    }
    StoreExt(got, want);
  }

  lemma EmptyDelta(store: Store)
    ensures ApplyDelta(store, map[]) == Success(store)
  {
    var after := ApplyDelta(store, map[]).value;
    forall k ensures Val(after, k) == Val(store, k) {
      ApplyDeltaVal(store, map[], k);
    }
    StoreExt(after, store);
  }

  lemma SoundAt(c: Config, i: nat)
    requires Sound(c) && i < |c.txs|
    ensures !SpecVerdict(c, i).Broken?
    ensures SpecVerdict(c, i).Won? ==>
      SpecVerdict(c, i).delta.Keys <= c.txs[i].writeSet && ApplyDelta(SpecStore(c, i), SpecVerdict(c, i).delta).Success?
  {
  }

  lemma SlotAt(c: Config, s: nat, i: nat)
    requires i < |c.txs|
    ensures |SpecSlots(c, s)| == |c.txs| && SpecSlots(c, s)[i] == SpecSlot(c, s, i)
  {
  }

  lemma NothingYet(c: Config, s: nat)
    ensures SpecStore(c, 0) == c.base
    ensures Replay(Restrict(c.layout, c.base, s), SpecSlots(c, s), 0) == Success(Restrict(c.layout, SpecStore(c, 0), s))
  {
    hide ApplyDelta, Restrict, SpecVerdict;
  }

  /** Replaying the finished slots of one shard gives its part of the prefix store. */
  lemma {:induction false} SlotsReplay(c: Config, s: nat, n: nat)
    requires Valid(c) && Sound(c) && n <= |c.txs| == |SpecSlots(c, s)|
    ensures Replay(Restrict(c.layout, c.base, s), SpecSlots(c, s), n) == Success(Restrict(c.layout, SpecStore(c, n), s))
  {
    hide *;
    if n == 0 {
      NothingYet(c, s);
    } else {
      SlotsReplay(c, s, n - 1);
      SlotReplay(c, s, n - 1);
      ReplayStep(Restrict(c.layout, c.base, s), SpecSlots(c, s), n - 1);
      SlotAt(c, s, n - 1);
    }
  }

  /** Settling a success on one shard does there what the whole delta does. */
  lemma WonReplay(c: Config, s: nat, i: nat, store: Store, delta: TxDelta)
    requires i < |c.txs| && ValidTxn(c.txs[i], i) && delta.Keys <= c.txs[i].writeSet && ApplyDelta(store, delta).Success?
    ensures var slot := if s in Sources(c, i) then Settled(c, s, i, Won(delta)) else NoOp;
      (if slot.Delta? then ApplyDelta(Restrict(c.layout, store, s), slot.delta) else Success(Restrict(c.layout, store, s))) ==
        Success(Restrict(c.layout, Patched(store, delta), s))
  {
    RestrictDelta(c.layout, store, delta, c.txs[i].writeSet, s);
    EmptyDelta(Restrict(c.layout, store, s));
    if s !in Sources(c, i) {
      assert LocalKeys(c.layout, c.txs[i].writeSet, s) == {};
      assert LocalDelta(c, s, i, delta) == map[];
    }
    hide ApplyDelta, Restrict, ValidTxn, Sources;
  }

  lemma StoreStep(c: Config, i: nat)
    requires i < |c.txs|
    ensures SpecStore(c, i + 1) ==
            if SpecVerdict(c, i).Won? then Patched(SpecStore(c, i), SpecVerdict(c, i).delta) else SpecStore(c, i)
  {
  }

  lemma SlotReplay(c: Config, s: nat, i: nat)
    requires Valid(c) && Sound(c) && i < |c.txs|
    ensures var slot, before := SpecSlot(c, s, i), Restrict(c.layout, SpecStore(c, i), s);
      (if slot.Delta? then ApplyDelta(before, slot.delta) else Success(before)) ==
        Success(Restrict(c.layout, SpecStore(c, i + 1), s))
  {
    SoundAt(c, i);
    StoreStep(c, i);
    assert ValidTxn(c.txs[i], i);
    var v := SpecVerdict(c, i);
    if v.Won? {
      WonReplay(c, s, i, SpecStore(c, i), v.delta);
    }
    hide SpecVerdict, SpecStore, ApplyDelta, Restrict, Valid, Sound, ValidTxn, Patched;
  }

  /** A scan that did not have to wait gives what the specification says: a failure exactly if
  the shard sees a lost transaction, and the reads of the prefix otherwise. */
  lemma ScanSpec(c: Config, slots: seq<SlotState>, s: nat, i: nat)
    requires Valid(c) && Sound(c) && i < |c.txs| && Extends(slots, SpecSlots(c, s))
    ensures var keys := LocalKeys(c.layout, c.txs[i].readSet, s);
      var scan := ScanSlots(StateOf(ReadMany(Restrict(c.layout, c.base, s), keys)), keys, WriteKeys(c, s), slots, Cut(c, i));
      !scan.Waits? ==>
        ScanResult(scan, keys) == if Sees(c, s, i) then Failing(Error.SpeculationFailed)
                                  else Materialized.Reads(SpecReads(c, i, {s}))
  {
    var keys, whole := LocalKeys(c.layout, c.txs[i].readSet, s), Restrict(c.layout, c.base, s);
    var start, final, n := StateOf(ReadMany(whole, keys)), SpecSlots(c, s), Cut(c, i);
    if !ScanSlots(start, keys, WriteKeys(c, s), slots, n).Waits? {
      ScanStable(start, keys, WriteKeys(c, s), slots, final, n);
      SlotsReplay(c, s, n);
      FinalSlots(c, s);
      ScanRefinesReplay(start, whole, keys, WriteKeys(c, s), final, n);
      SeesFailed(c, s, i);
      var scan := ScanSlots(start, keys, WriteKeys(c, s), final, n);
      if scan.At? {
        assert (set k | k in c.txs[i].readSet && c.layout.shardFor(k) in {s}) == keys;
        ReadManySame(scan.state, SpecStore(c, n), keys);
      }
    }
  }

  lemma FinalSlots(c: Config, s: nat)
    requires Valid(c) && Sound(c)
    ensures AllTerminal(SpecSlots(c, s)) && WritesRecorded(SpecSlots(c, s), WriteKeys(c, s))
  {
    forall i | 0 <= i < |c.txs|
      ensures !SpecSlot(c, s, i).Pending?
      ensures SpecSlot(c, s, i).Delta? ==> SpecSlot(c, s, i).delta.Keys <= LocalKeys(c.layout, c.txs[i].writeSet, s)
    {
      SoundAt(c, i);
    }
  }

  lemma SeesFailed(c: Config, s: nat, i: nat)
    requires i < |c.txs|
    ensures Sees(c, s, i) <==> exists k :: 0 <= k < Cut(c, i) && SpecSlots(c, s)[k].Failed?
  {
    if k :| 0 <= k < Cut(c, i) && SpecVerdict(c, k).Lost? && s in Sources(c, k) {
      assert SpecSlots(c, s)[k].Failed?;
    }
  }
}
