/** Key ownership: which shard stores a key, which shards take part in a transaction. */
module Router {
  import opened Model
  import Paths

  /** `shardFor` stands for the stable hash modulo the shard count: any total function. */
  datatype Layout = Layout(shardCount: nat, shardFor: Key -> nat)

  ghost predicate ValidLayout(l: Layout) {
    l.shardCount > 0 && forall k :: l.shardFor(k) < l.shardCount
  }

  /** The worker of one shard for one transaction. */
  datatype Wid = Wid(shard: nat, tx: nat)

  function Owners(l: Layout, keys: set<Key>): set<nat> {
    set k | k in keys :: l.shardFor(k)
  }

  datatype Participants = Participants(all: set<nat>, active: set<nat>, passive: set<nat>)

  /** All owners take part; the owners of written keys are active, and a transaction that
  writes nothing is executed by the owner of its first read key. */
  method ParticipantsForSets(l: Layout, readSet: set<Key>, writeSet: set<Key>) returns (p: Participants)
    ensures forall s :: s in p.all <==> exists k :: k in readSet + writeSet && l.shardFor(k) == s
    ensures writeSet != {} ==> forall s :: s in p.active <==> exists k :: k in writeSet && l.shardFor(k) == s
    ensures p.all == Owners(l, readSet + writeSet) && p.passive == p.all - p.active
    ensures writeSet != {} ==> p.active == Owners(l, writeSet)
    ensures writeSet == {} && readSet != {} ==> exists k :: Paths.IsFirst(readSet, k) && p.active == {l.shardFor(k)}
    ensures writeSet == {} && readSet == {} ==> p.active == {}
  {
    var all := OwnersOf(l, readSet + writeSet);
    var active := OwnersOf(l, writeSet);
    if writeSet == {} && readSet != {} {
      Paths.FirstExists(readSet);
      var key :| Paths.IsFirst(readSet, key);
      active := {l.shardFor(key)};
    }
    return Participants(all, active, all - active);
  }

  method OwnersOf(l: Layout, keys: set<Key>) returns (owners: set<nat>)
    ensures owners == Owners(l, keys)
  {
    owners := {};
    var left := keys;
    while left != {}
      invariant left <= keys && owners == Owners(l, keys - left)
      decreases left
    {
      var key :| key in left;
      owners := owners + {l.shardFor(key)};
      left := left - {key};
    }
    assert keys - left == keys;
  }

  function LocalKeys(l: Layout, keys: set<Key>, shard: nat): set<Key> {
    set k | k in keys && l.shardFor(k) == shard
  }

  function Restrict(l: Layout, store: Store, shard: nat): Store {
    map k | k in store && l.shardFor(k) == shard :: store[k]
  }

  lemma RestrictVal(l: Layout, store: Store, shard: nat, key: Key)
    ensures Val(Restrict(l, store, shard), key) == if l.shardFor(key) == shard then Val(store, key) else Missing
  {
  }

  /** The stores of all shards put together. */
  function Merge(stores: seq<Store>): Store {
    if stores == [] then map[] else Merge(stores[..|stores| - 1]) + stores[|stores| - 1]
  }

  ghost predicate OwnedStores(l: Layout, stores: seq<Store>) {
    |stores| <= l.shardCount && forall s, k | 0 <= s < |stores| && k in stores[s] :: l.shardFor(k) == s
  }

  lemma {:induction false} MergeVal(l: Layout, stores: seq<Store>, key: Key)
    requires ValidLayout(l) && OwnedStores(l, stores)
    ensures Val(Merge(stores), key) ==
            if l.shardFor(key) < |stores| then Val(stores[l.shardFor(key)], key) else Missing
  {
    if stores == [] {
    } else {
      var front := stores[..|stores| - 1];
      assert OwnedStores(l, front) by {
        forall s, k | 0 <= s < |front| && k in front[s] ensures l.shardFor(k) == s {
          assert k in stores[s];
        }
      }
      MergeVal(l, front, key);
      var last := |stores| - 1;
      if key in stores[last] {
        assert l.shardFor(key) == last;
      }
    }
  }

  /** Shard stores that hold exactly their part of a store merge back into it. */
  lemma MergeRestores(l: Layout, stores: seq<Store>, whole: Store)
    requires ValidLayout(l) && OwnedStores(l, stores) && |stores| == l.shardCount
    requires forall k :: Val(stores[l.shardFor(k)], k) == Val(whole, k)
    ensures Merge(stores) == whole
  {
    forall k ensures Val(Merge(stores), k) == Val(whole, k) {
      MergeVal(l, stores, k);
    }
    StoreExt(Merge(stores), whole);
  }
}
