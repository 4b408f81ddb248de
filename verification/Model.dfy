/** The values every scheduler shares: keys, inodes, operations, reads and writes.

A path key is modelled as its chain of segments; `Paths.dfy` proves that the path
strings of the source, with their string-level parent and ancestor tests, are in
one-to-one correspondence with these chains. */
module Model {

  datatype Option<+T> = None | Some(value: T)

  datatype Error =
    | InvalidBatch
    | LockInvariant
    | ChannelClosed
    | SpeculationFailed
    | BatchTooLarge
    | InvalidPath
    | Checker

  datatype Result<+T> = Success(value: T) | Failure(error: Error) {
    predicate IsFailure() {
      Failure?
    }
    function PropagateFailure<U>(): Result<U>
      requires Failure?
    {
      Failure(error)
    }
    function Extract(): T
      requires Success?
    {
      value
    }
  }

  const U64_MAX: nat := 0xFFFF_FFFF_FFFF_FFFF
  const I64_MAX: int := 0x7FFF_FFFF_FFFF_FFFF
  const I64_MIN: int := -0x8000_0000_0000_0000

  type u64 = n: nat | n <= U64_MAX witness 0
  type i64 = n: int | I64_MIN <= n <= I64_MAX witness 0

  datatype Key = Root | Child(dir: Key, name: string)

  predicate StrictAncestor(ancestor: Key, descendant: Key) {
    descendant.Child? && (ancestor == descendant.dir || StrictAncestor(ancestor, descendant.dir))
  }

  function Depth(k: Key): nat {
    if k.Root? then 0 else Depth(k.dir) + 1
  }

  lemma {:induction false} AncestorDepth(a: Key, b: Key)
    ensures StrictAncestor(a, b) ==> Depth(a) < Depth(b)
  {
    if b.Root? {
    } else {
      AncestorDepth(a, b.dir);
    }
  }

  datatype NodeKind = File | Directory

  datatype Inode = Inode(kind: NodeKind, childCount: u64)

  function FileInode(): Inode { Inode(File, 0) }

  function DirectoryInode(childCount: u64): Inode { Inode(Directory, childCount) }

  datatype FsOp =
    | Create(path: Key)
    | Mkdir(path: Key)
    | Unlink(path: Key)
    | Rmdir(path: Key)
    | Rename(src: Key, dst: Key)
    | Stat(path: Key)

  datatype TxResult = Ok | NotFound | AlreadyExists | NotDirectory | DirectoryNotEmpty | Invalid

  datatype ReadValue = Present(inode: Inode) | Missing

  type Reads = map<Key, ReadValue>

  datatype WriteOp = Put(key: Key, value: Inode) | Delete(key: Key) {
    function Value(): ReadValue {
      if Put? then Present(value) else Missing
    }
  }

  datatype TxOutput = TxOutput(result: TxResult, writes: seq<WriteOp>)

  datatype OrderedTx = OrderedTx(
    txId: nat, batchIndex: nat, op: FsOp, readSet: set<Key>, writeSet: set<Key>)

  datatype Batch = Batch(batchId: nat, txs: seq<OrderedTx>)

  predicate Distinct(s: seq<nat>) {
    forall i, j | 0 <= i < j < |s| :: s[i] != s[j]
  }

  // ---------------------------------------------------------------- stores

  type Store = map<Key, Inode>

  function Val(store: Store, key: Key): ReadValue {
    if key in store then Present(store[key]) else Missing
  }

  function ReadMany(store: Store, keys: set<Key>): Reads {
    map k | k in keys :: Val(store, k)
  }

  function ApplyWrite(store: Store, w: WriteOp): Store {
    match w
    case Put(k, v) => store[k := v]
    case Delete(k) => store - {k}
  }

  function ApplyWrites(store: Store, writes: seq<WriteOp>): Store {
    if writes == [] then store
    else ApplyWrite(ApplyWrites(store, writes[..|writes| - 1]), writes[|writes| - 1])
  }

  predicate WritesWithin(writes: seq<WriteOp>, keys: set<Key>) {
    forall i | 0 <= i < |writes| :: writes[i].key in keys
  }

  /** The value a key holds after a write list, given the value it held before. */
  function LastVal(writes: seq<WriteOp>, key: Key, before: ReadValue): ReadValue {
    if writes == [] then before
    else if writes[|writes| - 1].key == key then writes[|writes| - 1].Value()
    else LastVal(writes[..|writes| - 1], key, before)
  }

  lemma {:induction false} ApplyWritesVal(store: Store, writes: seq<WriteOp>, key: Key)
    ensures Val(ApplyWrites(store, writes), key) == LastVal(writes, key, Val(store, key))
  {
    if writes == [] {
    } else {
      ApplyWritesVal(store, writes[..|writes| - 1], key);
    }
  }

  lemma {:induction false} LastValOutside(writes: seq<WriteOp>, keys: set<Key>, key: Key, before: ReadValue)
    requires WritesWithin(writes, keys) && key !in keys
    ensures LastVal(writes, key, before) == before
  {
    if writes == [] {
    } else {
      assert writes[|writes| - 1].key in keys;
      LastValOutside(writes[..|writes| - 1], keys, key, before);
    }
  }

  lemma ApplyWritesFrame(store: Store, writes: seq<WriteOp>, keys: set<Key>, key: Key)
    requires WritesWithin(writes, keys) && key !in keys
    ensures Val(ApplyWrites(store, writes), key) == Val(store, key)
  {
    ApplyWritesVal(store, writes, key);
    LastValOutside(writes, keys, key, Val(store, key));
  }

  lemma StoreExt(a: Store, b: Store)
    requires forall k :: Val(a, k) == Val(b, k)
    ensures a == b
  {
    forall k | k in a ensures k in b && a[k] == b[k] {
      assert Val(a, k) == Val(b, k);
    }
    forall k | k in b ensures k in a {
      assert Val(a, k) == Val(b, k);
    }
  }

  lemma ReadManySame(a: Store, b: Store, keys: set<Key>)
    requires forall k | k in keys :: Val(a, k) == Val(b, k)
    ensures ReadMany(a, keys) == ReadMany(b, keys)
  {
  }

  /** Writes owned by one shard, in their original order. */
  function FilterWrites(writes: seq<WriteOp>, owned: Key -> bool): seq<WriteOp> {
    if writes == [] then []
    else
      var front := FilterWrites(writes[..|writes| - 1], owned);
      if owned(writes[|writes| - 1].key) then front + [writes[|writes| - 1]] else front
  }

  lemma {:induction false} FilterWritesVal(writes: seq<WriteOp>, owned: Key -> bool, key: Key, before: ReadValue)
    requires owned(key)
    ensures LastVal(FilterWrites(writes, owned), key, before) == LastVal(writes, key, before)
  {
    if writes == [] {
    } else {
      FilterWritesVal(writes[..|writes| - 1], owned, key, before);
      var front := FilterWrites(writes[..|writes| - 1], owned);
      var last := writes[|writes| - 1];
      assert (front + [last])[..|front|] == front;
    }
  }

  lemma {:induction false} FilterWritesWithin(writes: seq<WriteOp>, owned: Key -> bool, keys: set<Key>)
    requires WritesWithin(writes, keys)
    ensures forall i | 0 <= i < |FilterWrites(writes, owned)| ::
              FilterWrites(writes, owned)[i].key in keys && owned(FilterWrites(writes, owned)[i].key)
  {
    if writes == [] {
    } else {
      assert writes[|writes| - 1].key in keys;
      FilterWritesWithin(writes[..|writes| - 1], owned, keys);
    }
  }
}
