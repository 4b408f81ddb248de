/** Path strings and key chains. The source keeps a key as its path string and finds parents
and ancestors by searching and comparing characters; here every valid string is shown to be
one chain of segments, on which those searches are the structural ones. */
module Paths {
  import opened Model
  import opened SemanticTables

  predicate HasSlash(s: string) {
    '/' in s
  }

  predicate ValidName(name: string) {
    name != "" && name != "." && name != ".." && !HasSlash(name)
  }

  predicate ValidKey(k: Key) {
    k.Child? ==> ValidName(k.name) && ValidKey(k.dir)
  }

  /** The string a child's path begins with. */
  function Prefix(k: Key): string {
    if k.Root? then "" else Prefix(k.dir) + "/" + k.name
  }

  function Render(k: Key): string {
    if k.Root? then "/" else Prefix(k)
  }

  // ---------------------------------------------------------------- the order of keys

  /** Strings compare character by character; a prefix comes first. */
  predicate StringLeq(a: string, b: string) {
    a == "" || (b != "" && (a[0] < b[0] || (a[0] == b[0] && StringLeq(a[1..], b[1..]))))
  }

  lemma {:induction false} StringTotal(a: string, b: string)
    ensures StringLeq(a, b) || StringLeq(b, a)
  {
    if a == "" || b == "" {
    } else {
      StringTotal(a[1..], b[1..]);
    }
  }

  lemma {:induction false} StringTransitive(a: string, b: string, c: string)
    requires StringLeq(a, b) && StringLeq(b, c)
    ensures StringLeq(a, c)
  {
    if a == "" {
    } else {
      if a[0] == b[0] == c[0] {
        StringTransitive(a[1..], b[1..], c[1..]);
      }
    }
  }

  lemma StringLeqCons(h: char, a: string, b: string)
    ensures StringLeq([h] + a, [h] + b) <==> StringLeq(a, b)
  {
    assert ([h] + a)[1..] == a && ([h] + b)[1..] == b;
  }

  lemma StringDiffer(c: char, d: char, x: string, y: string)
    requires c < d
    ensures StringLeq([c] + x, [d] + y) && !StringLeq([d] + y, [c] + x)
  {
  }

  /** The order is lexicographic: what two strings begin with in common does not matter, a
  prefix comes first, and otherwise the first difference decides. */
  lemma {:induction false} StringOrder(front: string, x: string, y: string)
    ensures StringLeq(front + x, front + y) <==> StringLeq(x, y)
    ensures StringLeq("", y)
    ensures x != "" && y != "" && x[0] < y[0] ==> StringLeq(x, y) && !StringLeq(y, x)
    ensures x != "" ==> !StringLeq(x, "")
  {
    if front == "" {
      assert front + x == x && front + y == y;
      if x != "" && y != "" && x[0] < y[0] {
        StringDiffer(x[0], y[0], x[1..], y[1..]);
      }
    } else {
      StringOrder(front[1..], x, y);
      hide StringLeq;
      StringLeqCons(front[0], front[1..] + x, front[1..] + y);
      assert front + x == [front[0]] + (front[1..] + x);
      assert front + y == [front[0]] + (front[1..] + y);
    }
  }

  /** The key with which an ordered set of keys begins. */
  predicate IsFirst(keys: set<Key>, key: Key) {
    key in keys && forall k | k in keys :: StringLeq(Render(key), Render(k))
  }

  lemma {:induction false} FirstExists(keys: set<Key>)
    requires keys != {}
    ensures exists key :: IsFirst(keys, key)
    decreases keys
  {
    hide StringLeq, Render;
    var some :| some in keys;
    if keys - {some} == {} {
      StringTotal(Render(some), Render(some));
      forall k | k in keys ensures k == some {
        assert k !in keys - {some};
      }
      assert IsFirst(keys, some);
    } else {
      FirstExists(keys - {some});
      var rest :| IsFirst(keys - {some}, rest);
      StringTotal(Render(some), Render(rest));
      StringTotal(Render(some), Render(some));
      forall k | k in keys && StringLeq(Render(some), Render(rest)) ensures StringLeq(Render(some), Render(k)) {
        if k != some {
          StringTransitive(Render(some), Render(rest), Render(k));
        }
      }
      assert IsFirst(keys, if StringLeq(Render(some), Render(rest)) then some else rest);
    }
  }

  // ---------------------------------------------------------------- the string operations

  /** The position of the last slash. */
  function LastSlash(s: string): (r: Option<nat>)
    ensures r.Some? ==> r.value < |s| && s[r.value] == '/' && !HasSlash(s[r.value + 1..])
    ensures r.None? <==> !HasSlash(s)
  {
    if s == "" then None
    else if s[|s| - 1] == '/' then Some(|s| - 1)
    else
      assert s == s[..|s| - 1] + [s[|s| - 1]];
      var r := LastSlash(s[..|s| - 1]);
      assert r.Some? ==> s[r.value + 1..] == s[..|s| - 1][r.value + 1..] + [s[|s| - 1]];
      r
  }

  /** The segments between slashes. */
  function Split(s: string): (r: seq<string>)
    ensures r != []
    decreases |s|
  {
    match LastSlash(s)
    case None => [s]
    case Some(i) => Split(s[..i]) + [s[i + 1..]]
  }

  predicate ValidatePath(path: string) {
    && path != "" && path[0] == '/'
    && (path == "/" ||
        (path[|path| - 1] != '/' &&
         forall i | 1 <= i < |Split(path)| :: Split(path)[i] != "" && Split(path)[i] != "." && Split(path)[i] != ".."))
  }

  function Parent(path: string): Result<string> {
    if path == "/" then Failure(InvalidPath)
    else match LastSlash(path)
      case None => Failure(InvalidPath)
      case Some(i) => Success(if i == 0 then "/" else path[..i])
  }

  predicate IsStrictAncestor(ancestor: string, descendant: string) {
    if ancestor == "/" then descendant != "/"
    else |ancestor| < |descendant| && descendant[..|ancestor|] == ancestor && descendant[|ancestor|] == '/'
  }

  // ---------------------------------------------------------------- one segment

  lemma LastSlashIs(s: string, i: nat)
    requires i < |s| && s[i] == '/' && forall j | i < j < |s| :: s[j] != '/'
    ensures LastSlash(s) == Some(i)
  {
    hide LastSlash;
    assert s[i] in s;
    var r := LastSlash(s).value;
    forall j | r < j < |s| ensures s[j] != '/' {
      assert s[r + 1..][j - r - 1] == s[j];
    }
  }

  lemma NameAt(front: string, name: string, j: nat)
    requires |front| < j < |front| + 1 + |name|
    ensures (front + "/" + name)[j] == name[j - |front| - 1]
  {
  }

  lemma LastSlashOf(front: string, name: string)
    requires !HasSlash(name)
    ensures LastSlash(front + "/" + name) == Some(|front|)
  {
    hide LastSlash;
    var s := front + "/" + name;
    forall j | |front| < j < |s| ensures s[j] != '/' {
      NameAt(front, name, j);
    }
    LastSlashIs(s, |front|);
  }

  lemma SplitOf(front: string, name: string)
    requires !HasSlash(name)
    ensures Split(front + "/" + name) == Split(front) + [name]
  {
    LastSlashOf(front, name);
    var s := front + "/" + name;
    assert s[..|front|] == front && s[|front| + 1..] == name;
  }

  lemma Rejoin(s: string, i: nat)
    requires i < |s| && s[i] == '/'
    ensures s[..i] + "/" + s[i + 1..] == s
  {
  }

  lemma SplitWhole(name: string)
    requires !HasSlash(name)
    ensures Split(name) == [name]
  {
  }

  lemma Regroup(a: string, front: string, name: string)
    ensures a + "/" + (front + "/" + name) == a + "/" + front + "/" + name
  {
  }

  /** Splitting cuts at every slash. */
  lemma {:induction false} SplitAppend(a: string, b: string)
    ensures Split(a + "/" + b) == Split(a) + Split(b)
    decreases |b|
  {
    hide Split, LastSlash, HasSlash;
    if LastSlash(b).None? {
      SplitWhole(b);
      SplitOf(a, b);
    } else {
      var i := LastSlash(b).value;
      var front, name := b[..i], b[i + 1..];
      Rejoin(b, i);
      SplitAppend(a, front);
      SplitOf(a + "/" + front, name);
      SplitOf(front, name);
      Regroup(a, front, name);
      assert Split(a) + Split(front) + [name] == Split(a) + (Split(front) + [name]);
    }
  }

  /** An empty segment, a dot or two dots are refused anywhere behind the first slash. */
  lemma SegmentsRefused(a: string, segment: string, b: string)
    requires segment == "" || segment == "." || segment == ".."
    ensures !ValidatePath(a + "/" + segment + "/" + b)
    ensures a != "" || segment != "" ==> !ValidatePath(a + "/" + segment)
  {
    var inner, last := a + "/" + segment + "/" + b, a + "/" + segment;
    SplitOf(a, segment);
    SplitAppend(last, b);
    hide Split, LastSlash;
    assert Split(last)[|Split(a)|] == segment;
    assert Split(inner)[|Split(a)|] == segment;
    assert |inner| >= 2 && (a != "" || segment != "" ==> |last| >= 2);
  }

  // ---------------------------------------------------------------- rendering

  lemma {:induction false} PrefixShape(k: Key)
    requires ValidKey(k) && k.Child?
    ensures Prefix(k) != "" && Prefix(k)[0] == '/' && Prefix(k)[|Prefix(k)| - 1] != '/' && Prefix(k) != "/"
  {
    assert k.name[|k.name| - 1] in k.name;
    if k.dir.Root? {
    } else {
      PrefixShape(k.dir);
    }
  }

  lemma {:induction false} PrefixSegments(k: Key)
    requires ValidKey(k)
    ensures forall i | 1 <= i < |Split(Prefix(k))| :: ValidName(Split(Prefix(k))[i])
  {
    if k.Root? {
    } else {
      PrefixSegments(k.dir);
      SplitOf(Prefix(k.dir), k.name);
    }
  }

  /** Every valid chain renders to a path that validation accepts. */
  lemma RenderValid(k: Key)
    requires ValidKey(k)
    ensures ValidatePath(Render(k))
  {
    if k.Child? {
      PrefixShape(k);
      PrefixSegments(k);
    }
  }

  /** The string parent drops exactly the last segment, and fails exactly at the root. */
  lemma ParentDropsLast(k: Key)
    requires ValidKey(k)
    ensures Parent(Render(k)) == if k.Root? then Failure(InvalidPath) else Success(Render(k.dir))
  {
    if k.Child? {
      PrefixShape(k);
      LastSlashOf(Prefix(k.dir), k.name);
      if k.dir.Child? {
        PrefixShape(k.dir);
        assert Prefix(k)[..|Prefix(k.dir)|] == Prefix(k.dir);
      }
    }
  }

  // ---------------------------------------------------------------- parsing

  function Parse(path: string): Key
    decreases |path|
  {
    match LastSlash(path)
    case None => Root
    case Some(i) => if i + 1 == |path| then Root else Child(Parse(path[..i]), path[i + 1..])
  }

  lemma {:induction false} ParsePrefix(k: Key)
    requires ValidKey(k)
    ensures Parse(Prefix(k)) == k
  {
    if k.Root? {
    } else {
      LastSlashOf(Prefix(k.dir), k.name);
      assert Prefix(k)[..|Prefix(k.dir)|] == Prefix(k.dir) && Prefix(k)[|Prefix(k.dir)| + 1..] == k.name;
      ParsePrefix(k.dir);
    }
  }

  /** Parsing undoes rendering, so different valid chains render differently. */
  lemma RoundTrip(k: Key)
    requires ValidKey(k)
    ensures Parse(Render(k)) == k
  {
    ParsePrefix(k);
    assert LastSlash("/") == Some(0);
  }

  lemma {:induction false} ParsedPrefix(s: string)
    requires s == "" || s[0] == '/'
    requires forall i | 1 <= i < |Split(s)| :: Split(s)[i] != "" && Split(s)[i] != "." && Split(s)[i] != ".."
    ensures ValidKey(Parse(s)) && Prefix(Parse(s)) == s
    decreases |s|
  {
    if s == "" {
    } else {
      assert s[0] in s;
      var i := LastSlash(s).value;
      var front, name := s[..i], s[i + 1..];
      LastSegment(s, i);
      ParsedPrefix(front);
      Rejoin(s, i);
      assert Parse(s) == Child(Parse(front), name);
    }
  }

  lemma LastSegment(s: string, i: nat)
    requires LastSlash(s) == Some(i)
    requires forall j | 1 <= j < |Split(s)| :: Split(s)[j] != "" && Split(s)[j] != "." && Split(s)[j] != ".."
    ensures ValidName(s[i + 1..])
    ensures forall j | 1 <= j < |Split(s[..i])| :: Split(s[..i])[j] != "" && Split(s[..i])[j] != "." && Split(s[..i])[j] != ".."
  {
    var front, name := s[..i], s[i + 1..];
    assert Split(s) == Split(front) + [name];
    assert Split(s)[|Split(front)|] == name;
    forall j | 1 <= j < |Split(front)| ensures Split(front)[j] == Split(s)[j] {
    }
  }

  /** Validation accepts exactly the renderings of valid chains. */
  lemma ValidatedIsRendered(path: string)
    ensures ValidatePath(path) <==> ValidKey(Parse(path)) && Render(Parse(path)) == path
  {
    assert LastSlash("/") == Some(0);
    if ValidatePath(path) {
      if path != "/" {
        ParsedPrefix(path);
      }
    } else if ValidKey(Parse(path)) {
      RenderValid(Parse(path));
    }
  }

  lemma SameRendering(a: Key, b: Key)
    requires ValidKey(a) && ValidKey(b)
    ensures Render(a) == Render(b) <==> a == b
  {
    RoundTrip(a);
    RoundTrip(b);
  }

  // ---------------------------------------------------------------- ancestors

  lemma {:induction false} RootIsAncestor(b: Key)
    ensures StrictAncestor(Root, b) <==> b.Child?
  {
    if b.Root? {
    } else {
      RootIsAncestor(b.dir);
    }
  }

  lemma {:induction false} AncestorPrefix(a: Key, b: Key)
    requires ValidKey(a) && ValidKey(b) && a.Child?
    ensures IsStrictAncestor(Prefix(a), Prefix(b)) <==> StrictAncestor(a, b)
  {
    PrefixShape(a);
    if b.Root? {
    } else {
      AncestorPrefix(a, b.dir);
      var p, front, s := Prefix(a), Prefix(b.dir), Prefix(b);
      assert s == front + "/" + b.name && s[..|front|] == front;
      if |p| == |front| {
        assert s[..|p|] == front;
        ParsePrefix(a);
        ParsePrefix(b.dir);
        NotOwnAncestor(a);
      } else if |p| < |front| {
        assert s[..|p|] == front[..|p|] && s[|p|] == front[|p|];
        assert a != b.dir;
      } else {
        assert |p| < |s| ==> s[|p|] == b.name[|p| - |front| - 1];
        LongerPrefix(a, b.dir);
      }
    }
  }

  lemma {:induction false} NotOwnAncestor(a: Key)
    ensures !StrictAncestor(a, a)
  {
    AncestorDepth(a, a);
  }

  lemma {:induction false} LongerPrefix(a: Key, b: Key)
    requires |Prefix(a)| > |Prefix(b)|
    ensures !StrictAncestor(a, b) && a != b
  {
    if b.Root? {
    } else {
      LongerPrefix(a, b.dir);
    }
  }

  /** The string test is the strict segment-prefix test. */
  lemma AncestorOnStrings(a: Key, b: Key)
    requires ValidKey(a) && ValidKey(b)
    ensures IsStrictAncestor(Render(a), Render(b)) <==> StrictAncestor(a, b)
  {
    RootIsAncestor(b);
    if b.Child? {
      PrefixShape(b);
    }
    if a.Child? {
      PrefixShape(a);
      AncestorPrefix(a, b);
    }
  }

  // ---------------------------------------------------------------- conflict masks

  /** The mask of two operations other than renames, computed from their path strings. */
  function PathMask(lhs: string, rhs: string): Result<ConflictMask> {
    if lhs == "/" || rhs == "/" then Success(RootInvolved)
    else if lhs == rhs then Success(SameTarget)
    else
      var lhsParent :- Parent(lhs);
      var rhsParent :- Parent(rhs);
      Success(
        if lhs == rhsParent then LhsTargetIsRhsParent
        else if IsStrictAncestor(lhs, rhs) || IsStrictAncestor(rhs, lhs) then AncestorDescendant
        else if lhsParent == rhsParent then SameParentDifferentTarget
        else IndependentSubtree)
  }

  /** On validated paths the string computation never fails and gives the structural mask. */
  lemma MaskOnStrings(lhs: FsOp, rhs: FsOp)
    requires !lhs.Rename? && !rhs.Rename? && ValidKey(lhs.path) && ValidKey(rhs.path)
    ensures PathMask(Render(lhs.path), Render(rhs.path)) == Success(ConflictMaskOf(lhs, rhs))
  {
    var l, r := lhs.path, rhs.path;
    SameRendering(l, Root);
    SameRendering(r, Root);
    assert Render(Root) == "/" && ValidKey(Root);
    if l.Child? && r.Child? {
      BelowRoot(l, r);
      hide Render, Parent, IsStrictAncestor, StrictAncestor, ValidKey;
      assert PathMask(Render(l), Render(r)) == Success(ConflictMaskOf(lhs, rhs));
    }
  }

  lemma BelowRoot(l: Key, r: Key)
    requires ValidKey(l) && ValidKey(r) && l.Child? && r.Child?
    ensures Render(l) == Render(r) <==> l == r
    ensures Parent(Render(l)) == Success(Render(l.dir)) && Parent(Render(r)) == Success(Render(r.dir))
    ensures Render(l) == Render(r.dir) <==> l == r.dir
    ensures Render(l.dir) == Render(r.dir) <==> l.dir == r.dir
    ensures IsStrictAncestor(Render(l), Render(r)) <==> StrictAncestor(l, r)
    ensures IsStrictAncestor(Render(r), Render(l)) <==> StrictAncestor(r, l)
  {
    SameRendering(l, r);
    SameRendering(l, r.dir);
    SameRendering(l.dir, r.dir);
    ParentDropsLast(l);
    ParentDropsLast(r);
    AncestorOnStrings(l, r);
    AncestorOnStrings(r, l);
    hide Render, Parent, IsStrictAncestor, StrictAncestor;
  }
}
