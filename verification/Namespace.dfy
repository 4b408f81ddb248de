/** The namespace invariant: a store is a tree whose directories count their children. */
module Namespace {
  import opened Model
  import opened Executor

  function Children(store: Store, dir: Key): set<Key> {
    set k | k in store && k.Child? && k.dir == dir
  }

  predicate EntryOk(store: Store, k: Key)
    requires k in store
  {
    && (k.Child? ==> k.dir in store && store[k.dir].kind == Directory)
    && (store[k].kind == Directory ==> store[k].childCount == |Children(store, k)|)
  }

  /** Every entry below the root hangs under a present directory, so files have no children,
  and each directory's count is its number of present children. */
  predicate WellFormed(store: Store) {
    forall k | k in store :: EntryOk(store, k)
  }

  /** Room for `n` more entries before a 64-bit count could wrap. */
  predicate Room(store: Store, n: nat) {
    |store| + n <= U64_MAX
  }

  /** Moving an empty directory to a path directly below itself. */
  predicate SelfNesting(op: FsOp) {
    op.Rename? && op.dst.Child? && op.dst.dir == op.src
  }

  // ---------------------------------------------------------------- what a step does

  function Added(op: FsOp): Inode {
    if op.Create? then FileInode() else DirectoryInode(0)
  }

  lemma TwoWrites(store: Store, a: WriteOp, b: WriteOp)
    ensures ApplyWrites(store, [a, b]) == ApplyWrite(ApplyWrite(store, a), b)
  {
    assert [a, b][..1] == [a] && [a][..0] == [];
    assert ApplyWrites(store, [a]) == ApplyWrite(ApplyWrites(store, []), a);
  }

  lemma FourWrites(store: Store, a: WriteOp, b: WriteOp, c: WriteOp, d: WriteOp)
    ensures ApplyWrites(store, [a, b] + [c, d]) ==
            ApplyWrite(ApplyWrite(ApplyWrite(ApplyWrite(store, a), b), c), d)
  {
    var ws := [a, b] + [c, d];
    TwoWrites(store, a, b);
    assert ws[..3] == [a, b, c] && ws[..3][..2] == [a, b];
    assert ApplyWrites(store, ws[..3]) == ApplyWrite(ApplyWrites(store, [a, b]), c);
  }

  lemma AddEffect(store: Store, op: FsOp)
    requires (op.Create? || op.Mkdir?) && op.path.Child? && Outcome(store, op) == Ok
    ensures op.path.dir in store && store[op.path.dir].kind == Directory && op.path !in store
    ensures Step(store, op) == store[op.path.dir := Grow(store[op.path.dir])][op.path := Added(op)]
    ensures Step(store, op)[op.path] == Inode(if op.Create? then File else Directory, 0)
    ensures Step(store, op)[op.path.dir] ==
            Inode(Directory, if store[op.path.dir].childCount == U64_MAX then 0 else store[op.path.dir].childCount + 1)
  {
    TwoWrites(store, Put(op.path.dir, Grow(store[op.path.dir])), Put(op.path, Added(op)));
  }

  lemma RootEffect(store: Store, op: FsOp)
    requires op.Mkdir? && op.path.Root? && Outcome(store, op) == Ok
    ensures Root !in store && Step(store, op) == store[Root := Inode(Directory, 0)]
  {
    var w := Put(Root, DirectoryInode(0));
    assert [w][..0] == [];
    assert ApplyWrites(store, [w]) == ApplyWrite(ApplyWrites(store, []), w);
  }

  lemma DropEffect(store: Store, op: FsOp)
    requires (op.Unlink? || op.Rmdir?) && Outcome(store, op) == Ok
    ensures op.path.Child? && op.path in store && op.path.dir in store && store[op.path.dir].kind == Directory
    ensures store[op.path].kind == (if op.Unlink? then File else Directory)
    ensures op.Rmdir? ==> store[op.path].childCount == 0
    ensures Step(store, op) == store[op.path.dir := Shrink(store[op.path.dir])] - {op.path}
    ensures op.path !in Step(store, op) && Step(store, op)[op.path.dir] ==
            Inode(Directory, if store[op.path.dir].childCount == 0 then 0 else store[op.path.dir].childCount - 1)
  {
    TwoWrites(store, Put(op.path.dir, Shrink(store[op.path.dir])), Delete(op.path));
  }

  predicate Movable(store: Store, op: FsOp)
    requires op.Rename?
  {
    && op.src != op.dst && op.src.Child? && op.dst.Child?
    && op.src in store && op.dst !in store && op.src.dir in store && op.dst.dir in store
    && store[op.src.dir].kind == Directory && store[op.dst.dir].kind == Directory
    && (store[op.src].kind == Directory ==> store[op.src].childCount == 0)
  }

  lemma RenameEffect(store: Store, op: FsOp)
    requires op.Rename?
    ensures Outcome(store, op) == Ok <==> Movable(store, op)
    ensures Outcome(store, op) == Ok ==>
      var moved := (store - {op.src})[op.dst := store[op.src]];
      Step(store, op) == if op.src.dir == op.dst.dir then moved
        else moved[op.src.dir := Shrink(store[op.src.dir])][op.dst.dir := Grow(store[op.dst.dir])]
  {
    if Movable(store, op) {
      var a, b := Delete(op.src), Put(op.dst, store[op.src]);
      TwoWrites(store, a, b);
      FourWrites(store, a, b, Put(op.src.dir, Shrink(store[op.src.dir])),
        Put(op.dst.dir, Grow(store[op.dst.dir])));
    }
  }

  lemma NotOkUnchanged(store: Store, op: FsOp)
    requires Outcome(store, op) != Ok || op.Stat?
    ensures Step(store, op) == store
  {
  }

  /** The one key that an operation can bring into being. */
  function Target(op: FsOp): Key {
    if op.Rename? then op.dst else op.path
  }

  lemma RenameKeys(store: Store, op: FsOp)
    requires op.Rename? && Outcome(store, op) == Ok
    ensures Step(store, op).Keys <= store.Keys + {op.dst}
  {
    RenameEffect(store, op);
    hide Step, Outcome;
    var moved := (store - {op.src})[op.dst := store[op.src]];
    assert moved.Keys == (store.Keys - {op.src}) + {op.dst};
  }

  lemma StepKeys(store: Store, op: FsOp)
    ensures Step(store, op).Keys <= store.Keys + {Target(op)}
  {
    if Outcome(store, op) != Ok || op.Stat? {
      NotOkUnchanged(store, op);
    } else if op.Rename? {
      RenameKeys(store, op);
    } else if op.Unlink? || op.Rmdir? {
      DropEffect(store, op);
    } else if op.path.Root? {
      assert op.Mkdir?;
      RootEffect(store, op);
    } else {
      AddEffect(store, op);
    }
    hide Step, Outcome;
  }

  lemma StepSize(store: Store, op: FsOp)
    ensures |Step(store, op)| <= |store| + 1
  {
    StepKeys(store, op);
    hide Step;
    CardLe(Step(store, op), store.Keys + {Target(op)});
  }

  lemma CardLe(store: Store, keys: set<Key>)
    requires store.Keys <= keys
    ensures |store| <= |keys|
  {
    assert keys == store.Keys + (keys - store.Keys);
    assert |store| == |store.Keys|;
  }

  // ---------------------------------------------------------------- preservation

  /** In a well-formed store a present entry is counted by its parent. */
  lemma Counted(store: Store, k: Key)
    requires WellFormed(store) && k in store && k.Child?
    ensures k.dir in store && store[k.dir].kind == Directory && store[k.dir].childCount >= 1
  {
    assert EntryOk(store, k);
    assert EntryOk(store, k.dir);
    assert k in Children(store, k.dir);
  }

  lemma Uncounted(store: Store, dir: Key)
    requires WellFormed(store)
    requires dir !in store || store[dir].kind == File || store[dir].childCount == 0
    ensures Children(store, dir) == {}
  {
    if k :| k in Children(store, dir) {
      Counted(store, k);
    }
  }

  lemma CountBound(store: Store, dir: Key)
    ensures |Children(store, dir)| <= |store|
  {
    CardLe(map k | k in Children(store, dir) :: store[k], store.Keys);
    assert (map k | k in Children(store, dir) :: store[k]).Keys == Children(store, dir);
    assert Children(store, dir) <= store.Keys;
    assert store.Keys == Children(store, dir) + (store.Keys - Children(store, dir));
  }

  lemma AddedChildren(store: Store, path: Key, inode: Inode, dir: Inode, k: Key)
    requires path.Child? && path.dir in store && path !in store
    ensures var after := store[path.dir := dir][path := inode];
      Children(after, k) == if k == path.dir then Children(store, k) + {path} else Children(store, k)
    ensures path !in Children(store, path.dir)
  {
  }

  lemma DroppedChildren(store: Store, path: Key, dir: Inode, k: Key)
    requires path.Child? && path.dir in store && path in store
    ensures var after := store[path.dir := dir] - {path};
      Children(after, k) == if k == path.dir then Children(store, k) - {path} else Children(store, k)
    ensures path in Children(store, path.dir)
  {
  }

  /** The entry of `k` after its inode or its children may have changed. */
  lemma EntryFrom(after: Store, k: Key)
    requires k in after
    requires k.Child? ==> k.dir in after && after[k.dir].kind == Directory
    requires after[k].kind == Directory ==> after[k].childCount == |Children(after, k)|
    ensures EntryOk(after, k)
  {
  }

  lemma AddEntry(store: Store, path: Key, inode: Inode, k: Key)
    requires WellFormed(store) && Room(store, 1) && path.Child? && path !in store
    requires inode.kind == Directory ==> inode.childCount == 0
    requires path.dir in store && store[path.dir].kind == Directory
    requires k in store[path.dir := Grow(store[path.dir])][path := inode]
    ensures EntryOk(store[path.dir := Grow(store[path.dir])][path := inode], k)
  {
    var after := store[path.dir := Grow(store[path.dir])][path := inode];
    AddedChildren(store, path, inode, Grow(store[path.dir]), k);
    if k == path {
      Uncounted(store, path);
      hide WellFormed, EntryOk, Children;
      EntryFrom(after, k);
    } else {
      assert EntryOk(store, k) && EntryOk(store, path.dir);
      CountBound(store, path.dir);
      OldEntry(store, after, path, k);
    }
  }

  lemma OldEntry(store: Store, after: Store, path: Key, k: Key)
    requires k in store && k != path && path.Child? && path.dir in store && path !in store
    requires EntryOk(store, k) && EntryOk(store, path.dir) && store[path.dir].kind == Directory
    requires |Children(store, path.dir)| <= |store| && Room(store, 1)
    requires path in after && after == store[path.dir := Grow(store[path.dir])][path := after[path]]
    requires Children(after, k) == if k == path.dir then Children(store, k) + {path} else Children(store, k)
    ensures EntryOk(after, k)
  {
    assert path !in Children(store, path.dir);
    hide Children;
    if k == path.dir {
      EntryFrom(after, k);
    } else {
      assert after[k] == store[k];
      EntryFrom(after, k);
    }
  }

  lemma AddKeeps(store: Store, path: Key, inode: Inode)
    requires WellFormed(store) && Room(store, 1) && path.Child? && path !in store
    requires inode.kind == Directory ==> inode.childCount == 0
    requires path.dir in store && store[path.dir].kind == Directory
    ensures WellFormed(store[path.dir := Grow(store[path.dir])][path := inode])
  {
    hide EntryOk;
    var after := store[path.dir := Grow(store[path.dir])][path := inode];
    forall k | k in after ensures EntryOk(after, k) {
      AddEntry(store, path, inode, k);
    }
  }

  lemma RootEntry(store: Store, k: Key)
    requires WellFormed(store) && Root !in store && k in store[Root := DirectoryInode(0)]
    ensures EntryOk(store[Root := DirectoryInode(0)], k)
  {
    var after := store[Root := DirectoryInode(0)];
    assert Children(after, k) == Children(store, k);
    if k == Root {
      Uncounted(store, Root);
      hide WellFormed, EntryOk, Children;
      EntryFrom(after, k);
    } else {
      assert EntryOk(store, k);
      hide WellFormed, Children;
      EntryFrom(after, k);
    }
  }

  lemma RootKeeps(store: Store)
    requires WellFormed(store) && Root !in store
    ensures WellFormed(store[Root := DirectoryInode(0)])
  {
    hide EntryOk;
    var after := store[Root := DirectoryInode(0)];
    forall k | k in after ensures EntryOk(after, k) {
      RootEntry(store, k);
    }
  }

  lemma DropEntry(store: Store, path: Key, k: Key)
    requires WellFormed(store) && path.Child? && path in store && Children(store, path) == {}
    requires path.dir in store && k in store[path.dir := Shrink(store[path.dir])] - {path}
    ensures EntryOk(store[path.dir := Shrink(store[path.dir])] - {path}, k)
  {
    Counted(store, path);
    var after := store[path.dir := Shrink(store[path.dir])] - {path};
    assert EntryOk(store, k);
    assert k !in Children(store, path);
    assert k.Child? ==> k.dir != path;
    DroppedChildren(store, path, Shrink(store[path.dir]), k);
    hide Children, WellFormed;
  }

  lemma DropKeeps(store: Store, path: Key)
    requires WellFormed(store) && path.Child? && path in store && Children(store, path) == {}
    ensures path.dir in store && WellFormed(store[path.dir := Shrink(store[path.dir])] - {path})
  {
    Counted(store, path);
    hide EntryOk, Children;
    var after := store[path.dir := Shrink(store[path.dir])] - {path};
    forall k | k in after ensures EntryOk(after, k) {
      DropEntry(store, path, k);
    }
  }

  /** Moving a childless entry, spelled out as dropping it and adding it elsewhere. */
  lemma MoveIsDropAdd(store: Store, src: Key, dst: Key)
    requires src.Child? && dst.Child? && src != dst && src in store && src.dir in store && dst !in store
    requires dst.dir in store && store[src.dir].childCount >= 1 && dst.dir != src && src.dir != dst && src.dir != src
    ensures var moved := (store - {src})[dst := store[src]];
      var after := if src.dir == dst.dir then moved
        else moved[src.dir := Shrink(store[src.dir])][dst.dir := Grow(store[dst.dir])];
      var dropped := store[src.dir := Shrink(store[src.dir])] - {src};
      dst.dir in dropped && dst !in dropped && dropped[dst.dir].kind == store[dst.dir].kind
      && after == dropped[dst.dir := Grow(dropped[dst.dir])][dst := store[src]]
  {
    assert Grow(Shrink(store[src.dir])) == store[src.dir];
  }

  lemma NotOwnParent(k: Key)
    requires k.Child?
    ensures k.dir != k
  {
  }

  lemma MoveKeeps(store: Store, src: Key, dst: Key)
    requires WellFormed(store) && Room(store, 1) && src.Child? && dst.Child? && src != dst
    requires src in store && dst !in store && dst.dir in store && store[dst.dir].kind == Directory
    requires Children(store, src) == {} && dst.dir != src
    ensures src.dir in store
    ensures var moved := (store - {src})[dst := store[src]];
      WellFormed(if src.dir == dst.dir then moved
        else moved[src.dir := Shrink(store[src.dir])][dst.dir := Grow(store[dst.dir])])
  {
    Counted(store, src);
    assert EntryOk(store, src) && (store[src].kind == Directory ==> store[src].childCount == 0);
    NotOwnParent(src);
    DropKeeps(store, src);
    MoveIsDropAdd(store, src, dst);
    hide *;
    var dropped := store[src.dir := Shrink(store[src.dir])] - {src};
    DroppedRoom(store, src);
    AddKeeps(dropped, dst, store[src]);
  }

  lemma DroppedRoom(store: Store, src: Key)
    requires src.Child? && src in store && src.dir in store && Room(store, 1)
    ensures Room(store[src.dir := Shrink(store[src.dir])] - {src}, 1)
  {
    CardLe(store[src.dir := Shrink(store[src.dir])] - {src}, store.Keys);
  }

  /** The one step that breaks the namespace: afterwards the source directory is still
  there, but its parent no longer counts it. */
  lemma SelfNestingBreaks(store: Store, op: FsOp)
    requires WellFormed(store) && op.Rename? && SelfNesting(op) && Outcome(store, op) == Ok
    ensures !WellFormed(Step(store, op))
  {
    RenameEffect(store, op);
    Counted(store, op.src);
    var after := Step(store, op);
    assert EntryOk(store, op.src.dir);
    assert op.src in after && op.src.dir in after;
    assert Children(after, op.src.dir) == Children(store, op.src.dir);
    assert !EntryOk(after, op.src.dir);
  }

  lemma RenameKeeps(store: Store, op: FsOp)
    requires WellFormed(store) && Room(store, 1)
    requires op.Rename? && !SelfNesting(op) && Outcome(store, op) == Ok
    ensures WellFormed(Step(store, op))
  {
    RenameEffect(store, op);
    hide Step, Outcome;
    Uncounted(store, op.src);
    MoveKeeps(store, op.src, op.dst);
  }

  /** A step keeps the namespace well formed exactly when it does not move an existing empty
  directory below itself. */
  lemma StepKeepsNamespace(store: Store, op: FsOp)
    requires WellFormed(store) && Room(store, 1)
    ensures WellFormed(Step(store, op)) <==>
            !(SelfNesting(op) && op.src.Child? && op.src in store && store[op.src] == DirectoryInode(0))
  {
    if op.Rename? && SelfNesting(op) {
      SelfNestingStep(store, op);
    } else if Outcome(store, op) != Ok || op.Stat? {
      NotOkUnchanged(store, op);
    } else if op.Rename? {
      RenameKeeps(store, op);
    } else {
      OtherKeeps(store, op);
    }
  }

  lemma OtherKeeps(store: Store, op: FsOp)
    requires WellFormed(store) && Room(store, 1)
    requires !op.Rename? && !op.Stat? && Outcome(store, op) == Ok
    ensures WellFormed(Step(store, op))
  {
    if op.Unlink? || op.Rmdir? {
      DropEffect(store, op);
      hide Step, Outcome;
      Uncounted(store, op.path);
      DropKeeps(store, op.path);
    } else if op.path.Root? {
      assert op.Mkdir?;
      RootEffect(store, op);
      hide Step, Outcome;
      RootKeeps(store);
    } else {
      AddEffect(store, op);
      hide Step, Outcome;
      AddKeeps(store, op.path, Added(op));
    }
  }

  lemma SelfNestingStep(store: Store, op: FsOp)
    requires WellFormed(store) && op.Rename? && SelfNesting(op)
    ensures WellFormed(Step(store, op)) <==>
            !(op.src.Child? && op.src in store && store[op.src] == DirectoryInode(0))
  {
    RenameEffect(store, op);
    if op.src.Child? && op.src in store && store[op.src] == DirectoryInode(0) {
      SelfNestingMoves(store, op);
      SelfNestingBreaks(store, op);
    } else {
      NotOkUnchanged(store, op);
    }
  }

  lemma SelfNestingMoves(store: Store, op: FsOp)
    requires WellFormed(store) && op.Rename? && SelfNesting(op)
    requires op.src.Child? && op.src in store && store[op.src] == DirectoryInode(0)
    ensures Movable(store, op)
  {
    Uncounted(store, op.src);
    assert op.dst !in Children(store, op.src);
    Counted(store, op.src);
  }

  // ---------------------------------------------------------------- results

  predicate IsFile(store: Store, k: Key) {
    k in store && store[k].kind == File
  }

  predicate IsDirectory(store: Store, k: Key) {
    k in store && store[k].kind == Directory
  }

  /** What an operation must answer, said about the tree: which entries are present, of what
  kind, and whether they have children. */
  function Expected(store: Store, op: FsOp): TxResult {
    match op
    case Stat(p) => if p in store then Ok else NotFound
    case Create(p) => if p.Root? then Invalid else Addable(store, p)
    case Mkdir(p) => if p.Root? then (if p in store then AlreadyExists else Ok) else Addable(store, p)
    case Unlink(p) =>
      if p.Root? || IsDirectory(store, p) then Invalid
      else if p in store then Ok else Absent(store, p)
    case Rmdir(p) =>
      if p.Root? then Invalid
      else if IsFile(store, p) then NotDirectory
      else if p !in store then Absent(store, p)
      else if Children(store, p) == {} then Ok else DirectoryNotEmpty
    case Rename(src, dst) =>
      if src == dst || src.Root? || dst.Root? then Invalid
      else if src.dir !in store || dst.dir !in store then NotFound
      else if IsFile(store, src.dir) || IsFile(store, dst.dir) then NotDirectory
      else if src !in store then NotFound
      else if dst in store then AlreadyExists
      else if Children(store, src) == {} then Ok else DirectoryNotEmpty
  }

  function Addable(store: Store, p: Key): TxResult
    requires p.Child?
  {
    if p in store then AlreadyExists
    else if IsDirectory(store, p.dir) then Ok else Absent(store, p)
  }

  /** A path that is not there: something on the way is a file, or nothing is. */
  function Absent(store: Store, p: Key): TxResult
    requires p.Child?
  {
    if IsFile(store, p.dir) then NotDirectory else NotFound
  }

  lemma ChildCounts(store: Store, dir: Key)
    requires WellFormed(store) && dir in store
    ensures Children(store, dir) == {} <==> store[dir].kind == File || store[dir].childCount == 0
  {
    assert EntryOk(store, dir);
    if store[dir].kind == File || store[dir].childCount == 0 {
      Uncounted(store, dir);
    }
  }

  /** In a well-formed store the counters and checks of the execution answer exactly what the
  tree says. */
  lemma ResultMeaning(store: Store, op: FsOp)
    requires WellFormed(store)
    ensures Outcome(store, op) == Expected(store, op)
  {
    if op.Rename? {
      RenameMeaning(store, op);
    } else if op.Unlink? || op.Rmdir? {
      DropMeaning(store, op);
    } else {
      AddMeaning(store, op);
    }
  }

  lemma Anchored(store: Store, k: Key)
    requires WellFormed(store) && k in store
    ensures k.Child? ==> IsDirectory(store, k.dir)
    ensures Children(store, k) == {} <==> store[k].kind == File || store[k].childCount == 0
  {
    assert EntryOk(store, k);
    ChildCounts(store, k);
  }

  lemma AddMeaning(store: Store, op: FsOp)
    requires WellFormed(store) && (op.Create? || op.Mkdir? || op.Stat?)
    ensures Outcome(store, op) == Expected(store, op)
  {
    if op.path in store {
      Anchored(store, op.path);
    }
    hide WellFormed, Children, Outcome, Expected;
    AddCases(store, op);
  }

  lemma AddCases(store: Store, op: FsOp)
    requires op.Create? || op.Mkdir? || op.Stat?
    requires op.path in store && op.path.Child? ==> IsDirectory(store, op.path.dir)
    ensures Outcome(store, op) == Expected(store, op)
  {
    hide Children;
  }

  lemma DropMeaning(store: Store, op: FsOp)
    requires WellFormed(store) && (op.Unlink? || op.Rmdir?)
    ensures Outcome(store, op) == Expected(store, op)
  {
    if op.path in store {
      Anchored(store, op.path);
    }
    hide WellFormed, Children, Outcome, Expected;
    DropCases(store, op);
  }

  lemma DropCases(store: Store, op: FsOp)
    requires op.Unlink? || op.Rmdir?
    requires op.path in store && op.path.Child? ==> IsDirectory(store, op.path.dir)
    requires op.path in store ==>
      (Children(store, op.path) == {} <==> store[op.path].kind == File || store[op.path].childCount == 0)
    ensures Outcome(store, op) == Expected(store, op)
  {
    hide Children;
  }

  lemma RenameMeaning(store: Store, op: FsOp)
    requires WellFormed(store) && op.Rename?
    ensures Outcome(store, op) == Expected(store, op)
  {
    if op.src in store {
      Anchored(store, op.src);
    }
    hide WellFormed, Children, Outcome, Expected;
    RenameCases(store, op);
  }

  lemma RenameCases(store: Store, op: FsOp)
    requires op.Rename?
    requires op.src in store ==> (Children(store, op.src) == {} <==> store[op.src].kind == File || store[op.src].childCount == 0)
    ensures Outcome(store, op) == Expected(store, op)
  {
    hide Children;
  }

  /** Whatever the store, the parents are looked at before the paths themselves. */
  lemma ParentsFirst(store: Store, op: FsOp)
    requires !op.Stat?
    requires if op.Rename? then op.src != op.dst && op.src.Child? && op.dst.Child? else op.path.Child?
    ensures var parents := if op.Rename? then {op.src.dir, op.dst.dir} else {op.path.dir};
      && ((exists p :: p in parents && p !in store) ==> Outcome(store, op) == NotFound)
      && (parents <= store.Keys && (exists p :: p in parents && IsFile(store, p)) ==> Outcome(store, op) == NotDirectory)
  {
  }

  /** What was just created is a file and what was just made is a directory: the matching
  removal succeeds and restores the store, the other one is refused, and only below a
  directory can something be created. */
  lemma UndoAdd(store: Store, op: FsOp, name: string)
    requires WellFormed(store) && Room(store, 1)
    requires (op.Create? || op.Mkdir?) && op.path.Child? && Outcome(store, op) == Ok
    ensures var p, after := op.path, Step(store, op);
      && Outcome(after, if op.Create? then Unlink(p) else Rmdir(p)) == Ok
      && Step(after, if op.Create? then Unlink(p) else Rmdir(p)) == store
      && Outcome(after, Rmdir(p)) == (if op.Create? then NotDirectory else Ok)
      && Outcome(after, Unlink(p)) == (if op.Create? then Ok else Invalid)
      && Outcome(after, Create(Child(p, name))) == (if op.Create? then NotDirectory else Ok)
  {
    var p, after := op.path, Step(store, op);
    AddEffect(store, op);
    CountBound(store, p.dir);
    assert EntryOk(store, p.dir);
    assert Child(p, name) !in store by {
      assert Child(p, name) in store ==> EntryOk(store, Child(p, name));
    }
    hide WellFormed, Step, Children;
    AddedAnswers(after, p, name);
    UndoStore(store, op);
  }

  lemma AddedAnswers(after: Store, p: Key, name: string)
    requires p.Child? && p.dir in after && after[p.dir].kind == Directory && p in after && after[p].childCount == 0
    requires Child(p, name) !in after
    ensures Outcome(after, Rmdir(p)) == if after[p].kind == File then NotDirectory else Ok
    ensures Outcome(after, Unlink(p)) == if after[p].kind == File then Ok else Invalid
    ensures Outcome(after, Create(Child(p, name))) == if after[p].kind == File then NotDirectory else Ok
  {
  }

  lemma UndoStore(store: Store, op: FsOp)
    requires (op.Create? || op.Mkdir?) && op.path.Child? && Outcome(store, op) == Ok
    requires op.path.dir in store && store[op.path.dir].childCount < U64_MAX
    requires var undo := if op.Create? then Unlink(op.path) else Rmdir(op.path); Outcome(Step(store, op), undo) == Ok
    ensures var undo := if op.Create? then Unlink(op.path) else Rmdir(op.path); Step(Step(store, op), undo) == store
  {
    var undo := if op.Create? then Unlink(op.path) else Rmdir(op.path);
    AddEffect(store, op);
    DropEffect(Step(store, op), undo);
    hide Step, Outcome;
    var back := Step(Step(store, op), undo);
    forall k ensures Val(back, k) == Val(store, k) {
    }
    StoreExt(back, store);
  }

  // ---------------------------------------------------------------- footprints

  /** An operation that is refused whatever the store holds. */
  predicate Hopeless(op: FsOp) {
    match op
    case Stat(_) => false
    case Mkdir(_) => false
    case Rename(src, dst) => src == dst || src.Root? || dst.Root?
    case _ => op.path.Root?
  }

  lemma HopelessIsInvalid(store: Store, op: FsOp)
    requires Hopeless(op)
    ensures Outcome(store, op) == Invalid
    ensures ReadSet(op) == WriteSet(op) == if op.Rename? then {op.src, op.dst} else {op.path}
  {
  }

  /** A store on which the operation gets as far as it can. */
  function Fitting(op: FsOp): Store {
    var dir, file := Inode(Directory, 0), Inode(File, 0);
    match op
    case Rename(src, dst) => if src.Root? || dst.Root? then map[] else map[src := file][src.dir := dir][dst.dir := dir]
    case Unlink(p) => if p.Root? then map[] else map[p := file][p.dir := dir]
    case Rmdir(p) => if p.Root? then map[] else map[p := dir][p.dir := dir]
    case Stat(p) => map[]
    case _ => if op.path.Root? then map[] else map[op.path.dir := dir]
  }

  lemma OwnParent(k: Key)
    requires k.Child?
    ensures k.dir != k
  {
    AncestorDepth(k, k);
  }

  function Toggled(store: Store, k: Key): Store {
    if k in store then store - {k} else store[k := Inode(File, 0)]
  }

  lemma OtherReadMatters(op: FsOp, k: Key)
    requires !Hopeless(op) && k in ReadSet(op) && !op.Rename? && !op.Stat?
    ensures Outcome(Fitting(op), op) == Ok && Outcome(Toggled(Fitting(op), k), op) != Ok
  {
    if op.path.Child? {
      OwnParent(op.path);
    }
  }

  lemma MoveReadMatters(op: FsOp, k: Key)
    requires !Hopeless(op) && k in ReadSet(op) && op.Rename?
    ensures Outcome(Fitting(op), op) == if op.dst == op.src.dir then AlreadyExists else Ok
    ensures Outcome(Toggled(Fitting(op), k), op) != Outcome(Fitting(op), op)
  {
    var store := Fitting(op);
    OwnParent(op.src);
    OwnParent(op.dst);
    assert op.src in store && op.src.dir in store && op.dst.dir in store && (op.dst in store <==> op.dst == op.src.dir);
    assert store[op.src.dir] == store[op.dst.dir] == Inode(Directory, 0) && store[op.src].childCount == 0;
    MoveAnswers(store, op);
    MoveAnswers(Toggled(store, k), op);
    hide Outcome, Fitting;
  }

  lemma MoveAnswers(store: Store, op: FsOp)
    requires !Hopeless(op) && op.Rename? && forall k | k in store :: store[k].childCount == 0
    requires op.src.dir in store ==> store[op.src.dir].kind == Directory
    requires op.dst.dir in store ==> store[op.dst.dir].kind == Directory
    ensures Outcome(store, op) ==
            if op.src.dir !in store || op.dst.dir !in store || op.src !in store then NotFound
            else if op.dst in store then AlreadyExists else Ok
  {
  }

  /** No key is read in vain: for each one there are two stores that differ there alone and on
  which the operation answers differently. Whoever may change anything locks all it reads. */
  lemma EveryReadMatters(op: FsOp, k: Key) returns (a: Store, b: Store)
    requires !Hopeless(op) && k in ReadSet(op)
    ensures (forall j | j != k :: Val(a, j) == Val(b, j)) && Outcome(a, op) != Outcome(b, op)
    ensures WriteSet(op) == if op.Stat? then {} else ReadSet(op)
  {
    a := Fitting(op);
    b := Toggled(a, k);
    if op.Rename? {
      MoveReadMatters(op, k);
    } else if !op.Stat? {
      OtherReadMatters(op, k);
    } else {
      StatReads(op);
    }
    hide Outcome, Fitting, ReadSet;
  }

  lemma StatReads(op: FsOp)
    requires op.Stat?
    ensures ReadSet(op) == {op.path}
    ensures Outcome(Fitting(op), op) != Outcome(Toggled(Fitting(op), op.path), op)
  {
  }

  // ---------------------------------------------------------------- sequences

  predicate NoSelfNesting(ops: seq<FsOp>) {
    forall i | 0 <= i < |ops| :: !SelfNesting(ops[i])
  }

  /** Every sequence of operations without a self-nesting rename keeps the namespace. */
  lemma {:induction false} SerialKeepsNamespace(store: Store, ops: seq<FsOp>)
    requires WellFormed(store) && Room(store, |ops|) && NoSelfNesting(ops)
    ensures WellFormed(Serial(store, ops)) && |Serial(store, ops)| <= |store| + |ops|
  {
    if ops == [] {
    } else {
      var front := ops[..|ops| - 1];
      SerialKeepsNamespace(store, front);
      StepKeepsNamespace(Serial(store, front), ops[|ops| - 1]);
      StepSize(Serial(store, front), ops[|ops| - 1]);
    }
  }

  /** In a well-formed store the saturating decrement never saturates, and a removed
  directory leaves no orphan. */
  lemma DecrementNeverSaturates(store: Store, op: FsOp)
    requires WellFormed(store) && Outcome(store, op) == Ok && (op.Unlink? || op.Rmdir? || op.Rename?)
    ensures var gone := if op.Rename? then op.src else op.path;
      && gone.Child? && gone.dir in store && store[gone.dir].childCount >= 1
      && Children(store, gone) == {}
  {
    if op.Rename? {
      RenameEffect(store, op);
    } else {
      DropEffect(store, op);
    }
    var gone := if op.Rename? then op.src else op.path;
    Counted(store, gone);
    Uncounted(store, gone);
  }
}
