/** Per-key FIFO lock queues. */
module LockTables {
  import opened Model

  type Queues = map<Key, seq<nat>>

  datatype Grant = Grant(key: Key, tx: nat)

  function Queue(q: Queues, key: Key): seq<nat> {
    if key in q then q[key] else []
  }

  function EnqueueTx(q: Queues, tx: nat, keys: set<Key>): Queues {
    map k | k in q.Keys + keys :: if k in keys then Queue(q, k) + [tx] else q[k]
  }

  /** The queues after enqueuing transactions 0, 1, .. with the given local key sets. */
  function EnqueueAll(keys: seq<set<Key>>): Queues {
    if keys == [] then map[]
    else EnqueueTx(EnqueueAll(keys[..|keys| - 1]), |keys| - 1, keys[|keys| - 1])
  }

  function ReleaseTx(q: Queues, keys: set<Key>): Queues {
    map k | k in q :: if k in keys && q[k] != [] then q[k][1..] else q[k]
  }

  predicate Increasing(s: seq<nat>) {
    forall i, j | 0 <= i < j < |s| :: s[i] < s[j]
  }

  lemma BelowHead(q: seq<nat>, i: nat)
    requires Increasing(q) && (q != [] ==> i < q[0])
    ensures i !in q
  {
  }

  /** Filling the queues in batch order leaves every queue sorted by batch index and
  holding exactly the transactions that lock its key. */
  lemma {:induction false} EnqueueAllQueue(keys: seq<set<Key>>, key: Key)
    ensures Increasing(Queue(EnqueueAll(keys), key))
    ensures forall i: nat :: i in Queue(EnqueueAll(keys), key) <==> i < |keys| && key in keys[i]
    ensures key in EnqueueAll(keys) ==> Queue(EnqueueAll(keys), key) != []
  {
    EnqueueNone(key);
    hide *;
    if keys == [] {
    } else {
      var last := |keys| - 1;
      EnqueueAllQueue(keys[..last], key);
      EnqueueStep(keys, key);
      if key in keys[last] {
        IncreasingLast(Queue(EnqueueAll(keys[..last]), key), last);
      }
    }
  }

  lemma EnqueueNone(key: Key)
    ensures key !in EnqueueAll([]) && Queue(EnqueueAll([]), key) == [] && Increasing([])
  {
  }

  lemma EnqueueStep(keys: seq<set<Key>>, key: Key)
    requires keys != []
    ensures var last := |keys| - 1;
      var before := EnqueueAll(keys[..last]);
      && Queue(EnqueueAll(keys), key) == (if key in keys[last] then Queue(before, key) + [last] else Queue(before, key))
      && (key in EnqueueAll(keys) <==> key in before || key in keys[last])
  {
  }

  lemma IncreasingLast(q: seq<nat>, last: nat)
    requires Increasing(q) && forall i: nat | i in q :: i < last
    ensures Increasing(q + [last])
  {
    forall i | 0 <= i < |q| ensures q[i] < last {
      assert q[i] in q;
    }
  }

  // ---------------------------------------------------------------- the class

  /** The transactions granted a key, in the order the grants were sent. */
  function GrantsOf(log: seq<Grant>, key: Key): seq<nat> {
    if log == [] then []
    else
      var front := GrantsOf(log[..|log| - 1], key);
      var last := log[|log| - 1];
      if last.key == key then front + [last.tx] else front
  }

  lemma GrantsOfAppend(log: seq<Grant>, g: Grant, key: Key)
    ensures GrantsOf(log + [g], key) == if g.key == key then GrantsOf(log, key) + [g.tx] else GrantsOf(log, key)
  {
    assert (log + [g])[..|log|] == log;
  }

  predicate CanRelease(q: Queues, tx: nat, key: Key) {
    Queue(q, key) != [] && Queue(q, key)[0] == tx
  }

  /** One key: the queue holds the arrivals not yet released, and the grants sent are the
  arrivals up to and including the current head. */
  predicate KeyConsistent(all: seq<nat>, released: nat, queue: seq<nat>, granted: seq<nat>, granting: bool) {
    && released <= |all|
    && queue == all[released..]
    && granted == (if !granting then [] else if released < |all| then all[..released + 1] else all)
    && (!granting ==> released == 0)
  }

  lemma KeyPop(all: seq<nat>, released: nat, queue: seq<nat>, granted: seq<nat>)
    requires KeyConsistent(all, released, queue, granted, true) && queue != []
    ensures KeyConsistent(all, released + 1, queue[1..],
              if |queue| > 1 then granted + [queue[1]] else granted, true)
  {
  }

  function Count(released: map<Key, nat>, key: Key): nat {
    if key in released then released[key] else 0
  }

  ghost predicate AllConsistent(arrivals: Queues, released: map<Key, nat>, queues: Queues, grants: seq<Grant>, granting: bool) {
    forall k :: KeyConsistent(Queue(arrivals, k), Count(released, k), Queue(queues, k), GrantsOf(grants, k), granting)
  }

  lemma PopAt(arrivals: Queues, released: map<Key, nat>, queues: Queues, grants: seq<Grant>, key: Key, k: Key)
    requires AllConsistent(arrivals, released, queues, grants, true) && key in queues && queues[key] != []
    ensures KeyConsistent(Queue(arrivals, k), Count(released[key := Count(released, key) + 1], k),
              Queue(queues[key := queues[key][1..]], k),
              GrantsOf(if |queues[key]| > 1 then grants + [Grant(key, queues[key][1])] else grants, k), true)
  {
    var queue := queues[key];
    assert KeyConsistent(Queue(arrivals, k), Count(released, k), Queue(queues, k), GrantsOf(grants, k), true);
    KeyPop(Queue(arrivals, key), Count(released, key), queue, GrantsOf(grants, key));
    hide KeyConsistent;
    if |queue| > 1 {
      GrantsOfAppend(grants, Grant(key, queue[1]), k);
    }
    hide GrantsOf, AllConsistent;
  }

  /** Popping one queue and granting its new head keeps every key consistent. */
  lemma PopConsistent(arrivals: Queues, released: map<Key, nat>, queues: Queues, grants: seq<Grant>, key: Key)
    requires AllConsistent(arrivals, released, queues, grants, true) && key in queues && queues[key] != []
    ensures AllConsistent(arrivals, released[key := Count(released, key) + 1], queues[key := queues[key][1..]],
              if |queues[key]| > 1 then grants + [Grant(key, queues[key][1])] else grants, true)
  {
    var after := if |queues[key]| > 1 then grants + [Grant(key, queues[key][1])] else grants;
    forall k ensures KeyConsistent(Queue(arrivals, k), Count(released[key := Count(released, key) + 1], k),
                       Queue(queues[key := queues[key][1..]], k), GrantsOf(after, k), true)
    {
      PopAt(arrivals, released, queues, grants, key, k);
    }
    hide KeyConsistent, GrantsOf, Queue, Count;
  }

  lemma EnqueueConsistent(arrivals: Queues, released: map<Key, nat>, queues: Queues, grants: seq<Grant>, tx: nat, keys: set<Key>)
    requires AllConsistent(arrivals, released, queues, grants, false)
    ensures AllConsistent(EnqueueTx(arrivals, tx, keys), released, EnqueueTx(queues, tx, keys), grants, false)
  {
    forall k ensures KeyConsistent(Queue(EnqueueTx(arrivals, tx, keys), k), Count(released, k),
                                   Queue(EnqueueTx(queues, tx, keys), k), GrantsOf(grants, k), false)
    {
      assert KeyConsistent(Queue(arrivals, k), Count(released, k), Queue(queues, k), GrantsOf(grants, k), false);
      assert Queue(EnqueueTx(arrivals, tx, keys), k) == if k in keys then Queue(arrivals, k) + [tx] else Queue(arrivals, k);
      assert Queue(EnqueueTx(queues, tx, keys), k) == if k in keys then Queue(queues, k) + [tx] else Queue(queues, k);
    }
  }

  lemma ReleaseNothing(q: Queues)
    ensures ReleaseTx(q, {}) == q
  {
  }

  lemma ReleaseTxStep(q: Queues, done: set<Key>, key: Key)
    requires key in q && q[key] != [] && key !in done
    ensures key in ReleaseTx(q, done) && ReleaseTx(q, done)[key] == q[key]
    ensures ReleaseTx(q, done)[key := q[key][1..]] == ReleaseTx(q, done + {key})
  {
  }

  lemma ReleaseTxKeeps(q: Queues, done: set<Key>, key: Key)
    requires key !in done
    ensures Queue(ReleaseTx(q, done), key) == Queue(q, key)
  {
  }

  /** Exactly the heads of some queues have been granted. */
  ghost predicate HeadsGranted(queues: Queues, done: set<Key>, grants: seq<Grant>) {
    forall k :: GrantsOf(grants, k) == if k in done && Queue(queues, k) != [] then [Queue(queues, k)[0]] else []
  }

  lemma Ungranted(arrivals: Queues, released: map<Key, nat>, queues: Queues, grants: seq<Grant>)
    requires AllConsistent(arrivals, released, queues, grants, false)
    ensures HeadsGranted(queues, {}, grants)
  {
    forall k ensures GrantsOf(grants, k) == [] {
      assert KeyConsistent(Queue(arrivals, k), Count(released, k), Queue(queues, k), GrantsOf(grants, k), false);
    }
  }

  lemma HeadsMore(queues: Queues, done: set<Key>, grants: seq<Grant>, key: Key)
    requires HeadsGranted(queues, done, grants) && key in queues && key !in done
    ensures HeadsGranted(queues, done + {key}, if queues[key] != [] then grants + [Grant(key, queues[key][0])] else grants)
  {
    if queues[key] != [] {
      forall k ensures GrantsOf(grants + [Grant(key, queues[key][0])], k) ==
                       if key == k then GrantsOf(grants, k) + [queues[key][0]] else GrantsOf(grants, k)
      {
        GrantsOfAppend(grants, Grant(key, queues[key][0]), k);
      }
    }
    hide GrantsOf;
  }

  lemma Granted(arrivals: Queues, released: map<Key, nat>, queues: Queues, before: seq<Grant>, grants: seq<Grant>)
    requires AllConsistent(arrivals, released, queues, before, false)
    requires HeadsGranted(queues, queues.Keys, grants)
    ensures forall k :: GrantsOf(grants, k) == Queue(queues, k)[..if Queue(queues, k) == [] then 0 else 1]
    ensures AllConsistent(arrivals, released, queues, grants, true)
  {
    hide GrantsOf, Count;
    forall k ensures GrantsOf(grants, k) == Queue(queues, k)[..if Queue(queues, k) == [] then 0 else 1]
      ensures KeyConsistent(Queue(arrivals, k), Count(released, k), Queue(queues, k), GrantsOf(grants, k), true)
    {
      assert KeyConsistent(Queue(arrivals, k), Count(released, k), Queue(queues, k), GrantsOf(before, k), false);
    }
  }

  /** `grants` is the sequence of grants sent on the workers' channels. The ghost fields
  record every arrival, how many holders have released, and whether the initial grants
  have been sent. */
  class LockTable {
    var queues: Queues
    var grants: seq<Grant>
    ghost var arrivals: Queues
    ghost var released: map<Key, nat>
    ghost var granting: bool

    ghost function Released(key: Key): nat
      reads this
    {
      Count(released, key)
    }

    ghost predicate Valid()
      reads this
    {
      AllConsistent(arrivals, released, queues, grants, granting)
    }

    constructor ()
      ensures Valid() && !granting
      ensures queues == map[] && arrivals == map[] && grants == [] && released == map[]
    {
      queues := map[];
      grants := [];
      arrivals := map[];
      released := map[];
      granting := false;
    }

    method Enqueue(tx: nat, keys: set<Key>)
      requires Valid() && !granting
      modifies this
      ensures Valid() && !granting
      ensures queues == EnqueueTx(old(queues), tx, keys)
      ensures arrivals == EnqueueTx(old(arrivals), tx, keys)
      ensures grants == old(grants) && released == old(released)
    {
      hide AllConsistent;
      var left := keys;
      while left != {}
        invariant left <= keys
        invariant !granting && grants == old(grants) && released == old(released) && arrivals == old(arrivals)
        invariant queues == EnqueueTx(old(queues), tx, keys - left)
        decreases left
      {
        var key :| key in left;
        queues := queues[key := Queue(queues, key) + [tx]];
        left := left - {key};
      }
      assert keys - left == keys;
      EnqueueConsistent(arrivals, released, old(queues), grants, tx, keys);
      arrivals := EnqueueTx(arrivals, tx, keys);
    }

    /** Sends one grant to the head of every non-empty queue. */
    method GrantInitialHeads()
      requires Valid() && !granting
      modifies this`grants, this`granting
      ensures Valid() && granting
      ensures forall k :: GrantsOf(grants, k) == Queue(queues, k)[..if Queue(queues, k) == [] then 0 else 1]
    {
      hide AllConsistent, HeadsGranted, GrantsOf, Queue, KeyConsistent, Count;
      Ungranted(arrivals, released, queues, grants);
      var left := queues.Keys;
      assert queues.Keys - left == {};
      while left != {}
        invariant left <= queues.Keys && !granting && HeadsGranted(queues, queues.Keys - left, grants)
        decreases left
      {
        var key :| key in left;
        HeadsMore(queues, queues.Keys - left, grants, key);
        if queues[key] != [] {
          grants := grants + [Grant(key, queues[key][0])];
        }
        assert queues.Keys - (left - {key}) == queues.Keys - left + {key};
        left := left - {key};
      }
      granting := true;
      assert queues.Keys - left == queues.Keys;
      Granted(arrivals, released, queues, old(grants), grants);
    }

    /** Pops one queue if the transaction heads it, and grants the key to the next in line. */
    method ReleaseKey(tx: nat, key: Key) returns (r: Result<()>)
      requires Valid() && granting
      modifies this
      ensures Valid() && granting && arrivals == old(arrivals)
      ensures r == if CanRelease(old(queues), tx, key) then Success(()) else Failure(Error.LockInvariant)
      ensures r.Success? ==> queues == old(queues)[key := old(queues)[key][1..]]
      ensures r.Success? ==> released == old(released)[key := old(Released(key)) + 1]
      ensures r.Failure? ==> queues == old(queues) && released == old(released)
    {
      hide AllConsistent;
      if key !in queues || queues[key] == [] || queues[key][0] != tx {
        return Failure(Error.LockInvariant);
      }
      PopConsistent(arrivals, released, queues, grants, key);
      var rest := queues[key][1..];
      queues := queues[key := rest];
      released := released[key := Released(key) + 1];
      if rest != [] {
        grants := grants + [Grant(key, rest[0])];
      }
      return Success(());
    }

    /** Releasing succeeds exactly when the transaction heads every one of its queues; each
    popped queue then grants its new head. */
    method ReleaseAndGrantNext(tx: nat, keys: set<Key>) returns (r: Result<()>)
      requires Valid() && granting
      modifies this
      ensures Valid() && granting && arrivals == old(arrivals)
      ensures r.Success? <==> forall k | k in keys :: CanRelease(old(queues), tx, k)
      ensures r.Success? ==> queues == ReleaseTx(old(queues), keys)
      ensures r.Success? ==> forall k :: Released(k) == old(Released(k)) + if k in keys then 1 else 0
      ensures r.Failure? ==> r.error == Error.LockInvariant
    {
      hide AllConsistent, ReleaseTx;
      ReleaseNothing(queues);
      assert keys - keys == {};
      var left := keys;
      while left != {}
        invariant left <= keys && granting && arrivals == old(arrivals) && Valid()
        invariant forall k | k in keys - left :: CanRelease(old(queues), tx, k)
        invariant queues == ReleaseTx(old(queues), keys - left)
        invariant forall k :: Released(k) == old(Released(k)) + if k in keys - left then 1 else 0
        decreases left
      {
        var key :| key in left;
        ReleaseTxKeeps(old(queues), keys - left, key);
        var one := ReleaseKey(tx, key);
        if one.Failure? {
          return one;
        }
        ReleaseTxStep(old(queues), keys - left, key);
        assert keys - (left - {key}) == keys - left + {key};
        left := left - {key};
      }
      assert keys - left == keys;
      return Success(());
    }
  }

  // ---------------------------------------------------------------- the discipline

  lemma DistinctLast(s: seq<nat>, last: nat)
    requires Distinct(s + [last])
    ensures last !in s
  {
    forall i | 0 <= i < |s| ensures s[i] != last {
      assert (s + [last])[i] != (s + [last])[|s|];
    }
  }

  function GrantsTo(log: seq<Grant>, tx: nat): nat {
    if log == [] then 0 else GrantsTo(log[..|log| - 1], tx) + if log[|log| - 1].tx == tx then 1 else 0
  }

  /** Every grant sent to a transaction is for a key of its lock set and no key is granted
  to it twice, so a channel with one slot per key never fills. */
  lemma {:induction false} GrantsFitChannel(log: seq<Grant>, tx: nat, keys: set<Key>)
    requires forall k :: Distinct(GrantsOf(log, k))
    requires forall k :: tx in GrantsOf(log, k) ==> k in keys
    ensures GrantsTo(log, tx) <= |keys|
  {
    if log == [] {
    } else {
      var front := log[..|log| - 1];
      var last := log[|log| - 1];
      assert log == front + [last];
      forall k ensures Distinct(GrantsOf(front, k)) {
        assert Distinct(GrantsOf(log, k));
        GrantsOfAppend(front, last, k);
        if last.key == k {
          assert GrantsOf(front, k) == GrantsOf(log, k)[..|GrantsOf(front, k)|];
        }
      }
      if last.tx == tx {
        GrantsOfAppend(front, last, last.key);
        assert Distinct(GrantsOf(log, last.key));
        DistinctLast(GrantsOf(front, last.key), tx);
        forall k | tx in GrantsOf(front, k) ensures k in keys - {last.key} {
          GrantsOfAppend(front, last, k);
          assert tx in GrantsOf(log, k);
        }
        GrantsFitChannel(front, tx, keys - {last.key});
        assert tx in GrantsOf(log, last.key);
        assert last.key in keys;
      } else {
        forall k | tx in GrantsOf(front, k) ensures k in keys {
          GrantsOfAppend(front, last, k);
          assert tx in GrantsOf(log, k);
        }
        GrantsFitChannel(front, tx, keys);
      }
    }
  }

  // ---------------------------------------------------------------- a whole batch

  /** How many of the first `n` releases were by a holder of the key. */
  function Releases(keys: seq<set<Key>>, order: seq<nat>, n: nat, key: Key): nat
    requires n <= |order|
  {
    if n == 0 then 0
    else Releases(keys, order, n - 1, key) + if order[n - 1] < |keys| && key in keys[order[n - 1]] then 1 else 0
  }

  /** The grants of one key: its lockers in batch order, one more than have released. */
  predicate GrantedInTurn(keys: seq<set<Key>>, grants: seq<Grant>, released: nat, key: Key) {
    var all := Queue(EnqueueAll(keys), key);
    released <= |all| && GrantsOf(grants, key) == if released < |all| then all[..released + 1] else all
  }

  lemma InTurn(keys: seq<set<Key>>, arrivals: Queues, released: map<Key, nat>, queues: Queues, grants: seq<Grant>, key: Key)
    requires AllConsistent(arrivals, released, queues, grants, true)
    requires Queue(arrivals, key) == Queue(EnqueueAll(keys), key)
    ensures GrantedInTurn(keys, grants, Count(released, key), key)
  {
    assert KeyConsistent(Queue(arrivals, key), Count(released, key), Queue(queues, key), GrantsOf(grants, key), true);
  }

  lemma InTurnFits(keys: seq<set<Key>>, grants: seq<Grant>, counts: Key -> nat, tx: nat)
    requires tx < |keys| && forall k :: GrantedInTurn(keys, grants, counts(k), k)
    ensures GrantsTo(grants, tx) <= |keys[tx]|
  {
    forall k ensures Distinct(GrantsOf(grants, k)) && (tx in GrantsOf(grants, k) ==> k in keys[tx]) {
      assert GrantedInTurn(keys, grants, counts(k), k);
      EnqueueAllQueue(keys, k);
    }
    GrantsFitChannel(grants, tx, keys[tx]);
  }

  /** Fills the queues in batch order and grants the heads. */
  method FillAndGrant(keys: seq<set<Key>>) returns (table: LockTable)
    ensures fresh(table) && table.Valid() && table.granting
    ensures table.arrivals == EnqueueAll(keys) && table.released == map[]
  {
    table := new LockTable();
    hide AllConsistent;
    for i := 0 to |keys|
      invariant fresh(table) && table.Valid() && !table.granting && table.released == map[]
      invariant table.arrivals == EnqueueAll(keys[..i])
    {
      table.Enqueue(i, keys[i]);
      assert keys[..i + 1][..i] == keys[..i];
    }
    assert keys[..|keys|] == keys;
    table.GrantInitialHeads();
  }

  lemma AllInTurn(keys: seq<set<Key>>, table: LockTable, counts: Key -> nat)
    requires table.Valid() && table.granting && table.arrivals == EnqueueAll(keys)
    requires forall k :: table.Released(k) == counts(k)
    ensures forall k :: GrantedInTurn(keys, table.grants, counts(k), k)
  {
    hide AllConsistent, GrantedInTurn;
    forall k ensures GrantedInTurn(keys, table.grants, counts(k), k) {
      InTurn(keys, table.arrivals, table.released, table.queues, table.grants, k);
    }
  }

  /** After the first `n` releases, each key of the next one has reached it in batch order. */
  predicate Legal(keys: seq<set<Key>>, order: seq<nat>, n: nat)
    requires n < |order| && order[n] < |keys|
  {
    forall k | k in keys[order[n]] ::
      var all := Queue(EnqueueAll(keys), k);
      Releases(keys, order, n, k) < |all| && all[Releases(keys, order, n, k)] == order[n]
  }

  lemma LegalIs(keys: seq<set<Key>>, order: seq<nat>, n: nat, table: LockTable)
    requires n < |order| && order[n] < |keys|
    requires table.Valid() && table.arrivals == EnqueueAll(keys)
    requires forall k :: table.Released(k) == Releases(keys, order, n, k)
    ensures Legal(keys, order, n) <==> forall k | k in keys[order[n]] :: CanRelease(table.queues, order[n], k)
  {
    hide EnqueueAll, Releases, GrantsOf, Queue;
    forall k | k in keys[order[n]]
      ensures CanRelease(table.queues, order[n], k) <==>
              var all := Queue(EnqueueAll(keys), k);
              Releases(keys, order, n, k) < |all| && all[Releases(keys, order, n, k)] == order[n]
    {
      assert KeyConsistent(Queue(table.arrivals, k), Count(table.released, k), Queue(table.queues, k),
          GrantsOf(table.grants, k), table.granting);
      assert table.Released(k) == Releases(keys, order, n, k);
    }
  }

  lemma ReleasesStep(keys: seq<set<Key>>, order: seq<nat>, n: nat, key: Key)
    requires n < |order| && order[n] < |keys|
    ensures Releases(keys, order, n + 1, key) == Releases(keys, order, n, key) + if key in keys[order[n]] then 1 else 0
  {
  }

  /** The table of a filled batch after the first `n` releases of an order. */
  ghost predicate Through(keys: seq<set<Key>>, order: seq<nat>, n: nat, table: LockTable)
    requires n <= |order|
    reads table
  {
    && table.Valid() && table.granting && table.arrivals == EnqueueAll(keys)
    && forall k :: table.Released(k) == Releases(keys, order, n, k)
  }

  /** The next release of an order succeeds exactly if it is legal. */
  method ReleaseNext(keys: seq<set<Key>>, order: seq<nat>, n: nat, table: LockTable) returns (ok: bool)
    requires n < |order| && order[n] < |keys| && Through(keys, order, n, table)
    modifies table
    ensures ok <==> Legal(keys, order, n)
    ensures ok ==> Through(keys, order, n + 1, table)
  {
    hide Legal, AllConsistent, Releases, EnqueueAll;
    LegalIs(keys, order, n, table);
    var tx := order[n];
    var r := table.ReleaseAndGrantNext(tx, keys[tx]);
    ok := r.Success?;
    forall k ensures Releases(keys, order, n + 1, k) == Releases(keys, order, n, k) + if k in keys[tx] then 1 else 0 {
      ReleasesStep(keys, order, n, k);
    }
  }

  /** Every key is granted to its lockers one by one in batch order, each only after all
  earlier ones released it. */
  ghost predicate AllInOrder(keys: seq<set<Key>>, order: seq<nat>, n: nat, grants: seq<Grant>)
    requires n <= |order|
  {
    forall k :: GrantedInTurn(keys, grants, Releases(keys, order, n, k), k)
  }

  lemma ThroughInOrder(keys: seq<set<Key>>, order: seq<nat>, n: nat, table: LockTable)
    requires n <= |order| && Through(keys, order, n, table)
    ensures AllInOrder(keys, order, n, table.grants)
  {
    AllInTurn(keys, table, k => Releases(keys, order, n, k));
  }

  lemma InOrderFits(keys: seq<set<Key>>, order: seq<nat>, n: nat, grants: seq<Grant>)
    requires n <= |order| && AllInOrder(keys, order, n, grants)
    ensures forall tx: nat | tx < |keys| :: GrantsTo(grants, tx) <= |keys[tx]|
  {
    forall tx: nat | tx < |keys| ensures GrantsTo(grants, tx) <= |keys[tx]| {
      InTurnFits(keys, grants, k => Releases(keys, order, n, k), tx);
    }
  }

  /** A batch on one shard: fill the queues in batch order, grant the heads, then let
  transactions release in the given order for as long as that is legal, which is exactly as
  long as each heads all its queues. Up to there every key is granted to its lockers one by
  one in batch order, and nobody gets more grants than it has keys. */
  method RunBatch(keys: seq<set<Key>>, order: seq<nat>) returns (grants: seq<Grant>, released: nat)
    requires forall i | 0 <= i < |order| :: order[i] < |keys|
    ensures released <= |order| && forall n | 0 <= n < released :: Legal(keys, order, n)
    ensures released < |order| ==> !Legal(keys, order, released)
    ensures AllInOrder(keys, order, released, grants)
    ensures forall tx: nat | tx < |keys| :: GrantsTo(grants, tx) <= |keys[tx]|
  {
    var table := FillAndGrant(keys);
    hide Legal, AllConsistent, GrantedInTurn, GrantsTo, AllInOrder, EnqueueAll;
    assert Through(keys, order, 0, table);
    hide Through;
    released := 0;
    ThroughInOrder(keys, order, 0, table);
    grants := table.grants;
    while released < |order|
      invariant fresh(table) && released <= |order| && Through(keys, order, released, table)
      invariant forall n | 0 <= n < released :: Legal(keys, order, n)
      invariant AllInOrder(keys, order, released, grants)
    {
      var ok := ReleaseNext(keys, order, released, table);
      if !ok {
        break;
      }
      released := released + 1;
      ThroughInOrder(keys, order, released, table);
      grants := table.grants;
    }
    InOrderFits(keys, order, released, grants);
  }
}
