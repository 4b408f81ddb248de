/** The receive loops of a worker, over the arrivals its channels deliver. */
module Workers {
  import opened Model
  import opened Router
  import opened Sums

  datatype Arrival = Arrival(routedHere: bool, ok: bool, from: nat, view: Reads)

  // ---------------------------------------------------------------- lock grants

  /** The first grants that arrive are the worker's keys, each once. */
  predicate GrantsComplete(keys: set<Key>, grants: seq<Key>) {
    |keys| <= |grants| && (forall i | 0 <= i < |keys| :: grants[i] in keys)
    && (forall i, j | 0 <= i < j < |keys| :: grants[i] != grants[j])
  }

  /** Waits for as many grants as the worker has local keys; a foreign or repeated grant and a
  closed channel are errors. */
  method WaitForLockGrants(keys: set<Key>, grants: seq<Key>) returns (r: Result<set<Key>>)
    ensures r.Success? <==> GrantsComplete(keys, grants)
    ensures r.Success? ==> r.value == keys
    ensures r.Failure? ==> r.error == ChannelClosed || r.error == Error.LockInvariant
  {
    var granted: set<Key> := {};
    var n := 0;
    while |granted| < |keys|
      invariant n == |granted| && granted <= keys && n <= |grants|
      invariant forall k :: k in granted <==> exists i :: 0 <= i < n && grants[i] == k
      invariant forall i, j | 0 <= i < j < n :: grants[i] != grants[j]
      decreases |keys| - |granted|
    {
      if n == |grants| {
        return Failure(ChannelClosed);
      }
      if grants[n] !in keys || grants[n] in granted {
        return Failure(Error.LockInvariant);
      }
      granted := granted + {grants[n]};
      n := n + 1;
      SmallerSet(granted, keys);
    }
    AllOf(granted, keys);
    return Success(granted);
  }

  lemma AllOf<T>(a: set<T>, b: set<T>)
    requires a <= b && |a| >= |b|
    ensures a == b
  {
    assert b == a + (b - a);
  }

  // ---------------------------------------------------------------- reads

  /** A read result as the worker expects it from one shard. */
  predicate Proper(l: Layout, readSet: set<Key>, expected: set<nat>, a: Arrival) {
    a.routedHere && a.ok && a.from in expected && a.view.Keys == LocalKeys(l, readSet, a.from)
  }

  /** The first arrivals are one proper read result from every expected shard. */
  predicate ReadsComplete(l: Layout, readSet: set<Key>, expected: set<nat>, arrivals: seq<Arrival>) {
    |expected| <= |arrivals|
    && (forall i | 0 <= i < |expected| :: Proper(l, readSet, expected, arrivals[i]))
    && (forall i, j | 0 <= i < j < |expected| :: arrivals[i].from != arrivals[j].from)
  }

  /** The first `n` arrivals are proper and come from the distinct shards received so far. */
  ghost predicate Heard(l: Layout, readSet: set<Key>, expected: set<nat>, arrivals: seq<Arrival>, n: nat, received: set<nat>) {
    && n == |received| <= |arrivals| && received <= expected
    && (forall i | 0 <= i < n :: Proper(l, readSet, expected, arrivals[i]) && arrivals[i].from in received)
    && (forall s | s in received :: exists i :: 0 <= i < n && arrivals[i].from == s)
    && (forall i, j | 0 <= i < j < n :: arrivals[i].from != arrivals[j].from)
  }

  /** The worker holds its own reads and those of the senders so far. */
  ghost predicate Holding(l: Layout, readSet: set<Key>, shard: nat, local: Reads, arrivals: seq<Arrival>, n: nat,
                          full: Reads, received: set<nat>)
    requires n <= |arrivals|
  {
    && (forall k :: k in full <==> k in readSet && (l.shardFor(k) == shard || l.shardFor(k) in received))
    && (forall k | k in local :: k in full && full[k] == local[k])
    && (forall i, k | 0 <= i < n && k in arrivals[i].view :: k in full && full[k] == arrivals[i].view[k])
  }

  lemma HearOne(l: Layout, readSet: set<Key>, expected: set<nat>, arrivals: seq<Arrival>, n: nat, received: set<nat>)
    requires Heard(l, readSet, expected, arrivals, n, received) && n < |arrivals|
    requires Proper(l, readSet, expected, arrivals[n]) && arrivals[n].from !in received
    ensures Heard(l, readSet, expected, arrivals, n + 1, received + {arrivals[n].from})
  {
    var after := received + {arrivals[n].from};
    assert after <= expected;
    hide Proper;
    forall s | s in after ensures exists i :: 0 <= i < n + 1 && arrivals[i].from == s {
      if s in received {
        var i :| 0 <= i < n && arrivals[i].from == s;
      }
    }
  }

  lemma HoldMore(l: Layout, readSet: set<Key>, shard: nat, local: Reads, arrivals: seq<Arrival>, n: nat,
                 full: Reads, received: set<nat>)
    requires local.Keys == LocalKeys(l, readSet, shard) && n < |arrivals| && shard != arrivals[n].from
    requires Holding(l, readSet, shard, local, arrivals, n, full, received) && arrivals[n].from !in received
    requires arrivals[n].view.Keys == LocalKeys(l, readSet, arrivals[n].from)
    ensures arrivals[n].view.Keys !! full.Keys
    ensures Holding(l, readSet, shard, local, arrivals, n + 1, full + arrivals[n].view, received + {arrivals[n].from})
  {
  }

  lemma HoldAll(l: Layout, readSet: set<Key>, shard: nat, local: Reads, arrivals: seq<Arrival>, n: nat,
                full: Reads, received: set<nat>)
    requires n <= |arrivals| && Holding(l, readSet, shard, local, arrivals, n, full, received)
    requires received == Owners(l, readSet) - {shard}
    ensures full.Keys == readSet
  {
    forall k | k in readSet ensures k in full {
      assert l.shardFor(k) in Owners(l, readSet);
    }
  }

  lemma HeardAll(l: Layout, readSet: set<Key>, expected: set<nat>, arrivals: seq<Arrival>, n: nat, received: set<nat>)
    requires Heard(l, readSet, expected, arrivals, n, received) && n == |expected|
    ensures received == expected && ReadsComplete(l, readSet, expected, arrivals)
  {
    AllOf(received, expected);
    hide Proper;
  }

  lemma HeardFits(l: Layout, readSet: set<Key>, expected: set<nat>, arrivals: seq<Arrival>, n: nat, received: set<nat>)
    requires Heard(l, readSet, expected, arrivals, n, received)
    ensures n == |received| <= |arrivals| && n <= |expected|
  {
    SmallerSet(received, expected);
  }

  lemma HeldValues(l: Layout, readSet: set<Key>, shard: nat, local: Reads, arrivals: seq<Arrival>, n: nat,
                   full: Reads, received: set<nat>)
    requires n <= |arrivals| && Holding(l, readSet, shard, local, arrivals, n, full, received)
    ensures forall k | k in local :: k in full && full[k] == local[k]
    ensures forall i, k | 0 <= i < n && k in arrivals[i].view :: k in full && full[k] == arrivals[i].view[k]
  {
  }

  /** An arrival the worker refuses is one that keeps the first arrivals from being complete. */
  lemma Refused(l: Layout, readSet: set<Key>, expected: set<nat>, arrivals: seq<Arrival>, n: nat, received: set<nat>)
    requires Heard(l, readSet, expected, arrivals, n, received) && n < |expected|
    requires n == |arrivals| || !Proper(l, readSet, expected, arrivals[n]) || arrivals[n].from in received
    ensures !ReadsComplete(l, readSet, expected, arrivals)
  {
    hide Proper;
    if n < |arrivals| && arrivals[n].from in received {
      var i :| 0 <= i < n && arrivals[i].from == arrivals[n].from;
      assert arrivals[i].from == arrivals[n].from;
    }
  }

  /** Starting from its own reads a worker takes in one result from every other source. It
  succeeds exactly if the first arrivals are such results, whatever their order, and then
  holds the value of every key of the read set as its owner sent it. */
  method CollectFullReads(l: Layout, readSet: set<Key>, shard: nat, local: Reads, arrivals: seq<Arrival>)
    returns (r: Result<Reads>)
    requires local.Keys == LocalKeys(l, readSet, shard)
    ensures r.Success? <==> ReadsComplete(l, readSet, Owners(l, readSet) - {shard}, arrivals)
    ensures r.Success? ==> r.value.Keys == readSet
    ensures r.Success? ==> forall k | k in local :: k in r.value && r.value[k] == local[k]
    ensures r.Success? ==> forall i, k | 0 <= i < |Owners(l, readSet) - {shard}| <= |arrivals| && k in arrivals[i].view ::
      k in r.value && r.value[k] == arrivals[i].view[k]
  {
    var expected := Owners(l, readSet) - {shard};
    var full: Reads, received: set<nat> := local, {};
    var n := 0;
    assert Heard(l, readSet, expected, arrivals, 0, {}) && Holding(l, readSet, shard, local, arrivals, 0, local, {});
    hide Heard, Holding, ReadsComplete, Owners;
    while |received| < |expected|
      invariant n == |received| <= |arrivals|
      invariant Heard(l, readSet, expected, arrivals, n, received) && n <= |expected|
      invariant Holding(l, readSet, shard, local, arrivals, n, full, received)
      decreases |expected| - |received|
    {
      if n == |arrivals| {
        Refused(l, readSet, expected, arrivals, n, received);
        return Failure(ChannelClosed);
      }
      var a := arrivals[n];
      if !a.routedHere || !a.ok || a.from !in expected || a.from in received || a.view.Keys != LocalKeys(l, readSet, a.from) {
        Refused(l, readSet, expected, arrivals, n, received);
        return Failure(InvalidBatch);
      }
      HearOne(l, readSet, expected, arrivals, n, received);
      HoldMore(l, readSet, shard, local, arrivals, n, full, received);
      if !(a.view.Keys !! full.Keys) {
        assert false;
      }
      full := full + a.view;
      received := received + {a.from};
      n := n + 1;
      HeardFits(l, readSet, expected, arrivals, n, received);
    }
    HeardAll(l, readSet, expected, arrivals, n, received);
    HoldAll(l, readSet, shard, local, arrivals, n, full, received);
    HeldValues(l, readSet, shard, local, arrivals, n, full, received);
    if full.Keys != readSet {
      assert false;
    }
    return Success(full);
  }

  /** What one worker sends and the others collect is the same full view everywhere: if the
  views come from one store, so does the result. */
  lemma CollectedView(l: Layout, store: Store, readSet: set<Key>, shard: nat, arrivals: seq<Arrival>, view: Reads)
    requires ReadsComplete(l, readSet, Owners(l, readSet) - {shard}, arrivals) && view.Keys == readSet
    requires forall k | k in readSet && l.shardFor(k) == shard :: view[k] == Val(store, k)
    requires forall i, k | 0 <= i < |Owners(l, readSet) - {shard}| && k in arrivals[i].view ::
      k in readSet && view[k] == arrivals[i].view[k] == Val(store, k)
    ensures view == ReadMany(store, readSet)
  {
    var expected := Owners(l, readSet) - {shard};
    SomeArrival(expected, arrivals, |expected|);
    forall k | k in readSet ensures view[k] == Val(store, k) {
      if l.shardFor(k) != shard {
        assert l.shardFor(k) in expected;
        var i :| 0 <= i < |expected| && arrivals[i].from == l.shardFor(k);
        assert Proper(l, readSet, expected, arrivals[i]) && k in arrivals[i].view;
      }
    }
  }

  /** Distinct expected senders, as many as are expected, are all of them. */
  lemma {:induction false} SomeArrival(expected: set<nat>, arrivals: seq<Arrival>, n: nat)
    requires n == |expected| <= |arrivals|
    requires forall i | 0 <= i < n :: arrivals[i].from in expected
    requires forall i, j | 0 <= i < j < n :: arrivals[i].from != arrivals[j].from
    ensures forall s | s in expected :: exists i :: 0 <= i < n && arrivals[i].from == s
  {
    if n == 0 {
    } else {
      var last := arrivals[n - 1].from;
      SomeArrival(expected - {last}, arrivals, n - 1);
      forall s | s in expected ensures exists i :: 0 <= i < n && arrivals[i].from == s {
        if s == last {
          assert arrivals[n - 1].from == s;
        } else {
          assert s in expected - {last};
          var i :| 0 <= i < n - 1 && arrivals[i].from == s;
        }
      }
    }
  }
}
