/** The success-path check of the semantic scheduler's condition phase, compared with the
execution it is meant to predict. Batch plans never enter that phase, because the effect
prefix always covers the condition prefix. */
module ConditionCheck {
  import opened Model
  import opened Executor

  function Seen(view: Reads, k: Key): Option<Inode> {
    if k in view && view[k].Present? then Some(view[k].inode) else None
  }

  predicate IsDirectory(inode: Option<Inode>) {
    inode.Some? && inode.value.kind == Directory
  }

  predicate CheckCreateLike(path: Key, view: Reads) {
    if path.Root? then path in view && view[path].Missing?
    else IsDirectory(Seen(view, path.dir)) && Seen(view, path).None?
  }

  predicate CheckUnlink(path: Key, view: Reads) {
    path.Child? && IsDirectory(Seen(view, path.dir)) && Seen(view, path).Some? && Seen(view, path).value.kind == File
  }

  predicate CheckRmdir(path: Key, view: Reads) {
    && path.Child? && IsDirectory(Seen(view, path.dir)) && IsDirectory(Seen(view, path))
    && Seen(view, path).value.childCount == 0
  }

  predicate CheckRename(src: Key, dst: Key, view: Reads) {
    && src != dst && src.Child? && dst.Child? && !StrictAncestor(src, dst)
    && IsDirectory(Seen(view, src.dir)) && IsDirectory(Seen(view, dst.dir))
    && Seen(view, src).Some? && Seen(view, dst).None?
    && (Seen(view, src).value.kind == File || Seen(view, src).value.childCount == 0)
  }

  predicate CheckSuccessPath(op: FsOp, view: Reads) {
    match op
    case Create(path) => CheckCreateLike(path, view)
    case Mkdir(path) => CheckCreateLike(path, view)
    case Unlink(path) => CheckUnlink(path, view)
    case Rmdir(path) => CheckRmdir(path, view)
    case Rename(src, dst) => CheckRename(src, dst, view)
    case Stat(path) => Seen(view, path).Some?
  }

  /** On full reads the check predicts success exactly, with two exceptions: it accepts
  creating a missing root file, which execution refuses, and it refuses every rename below
  its own source, which execution may accept. */
  lemma CheckMatchesExecution(op: FsOp, view: Reads)
    requires view.Keys == ReadSet(op)
    ensures CheckSuccessPath(op, view) <==>
      if op.Create? && op.path.Root? then view[Root].Missing?
      else Execute(op, view).result == Ok && !(op.Rename? && StrictAncestor(op.src, op.dst))
  {
    if op.Rename? {
      RenameMatches(op.src, op.dst, view);
    } else {
      OtherMatches(op, view);
    }
  }

  lemma OtherMatches(op: FsOp, view: Reads)
    requires view.Keys == ReadSet(op) && !op.Rename?
    ensures CheckSuccessPath(op, view) <==>
      if op.Create? && op.path.Root? then view[Root].Missing? else Execute(op, view).result == Ok
  {
    assert op.path in view;
    assert op.path.Child? && !op.Stat? ==> op.path.dir in view;
  }

  lemma RenameMatches(src: Key, dst: Key, view: Reads)
    requires view.Keys == ReadSet(Rename(src, dst))
    ensures CheckRename(src, dst, view) <==>
            Execute(Rename(src, dst), view).result == Ok && !StrictAncestor(src, dst)
  {
    if src != dst && src.Child? && dst.Child? {
      assert src in view && dst in view && src.dir in view && dst.dir in view;
    }
  }
}
