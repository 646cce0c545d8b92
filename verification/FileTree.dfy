/**
 * The tree a list of slash-separated paths stands for, as a value: which nodes it has, in which order, and which of
 * them the sidebar shows.
 */
module FileTree {
  import opened Collections
  import Text

  /** A path cut at its slashes. */
  type Parts = seq<string>

  /** The order of names, localeCompare in the source. */
  type Order = (string, string) -> bool

  ghost predicate StrictTotal(less: Order)
  {
    (forall a, b, c :: less(a, b) && less(b, c) ==> less(a, c)) && (forall a :: !less(a, a)) &&
    (forall a, b :: a == b || less(a, b) || less(b, a))
  }

  datatype Tree = Node(name: string, path: string, isDir: bool, children: seq<Tree>)

  /** No path is a directory of another one. */
  ghost predicate PrefixFree(s: set<Parts>)
  {
    forall p, q :: p in s && q in s ==> !(p < q)
  }

  ghost predicate SlashFree(s: set<Parts>)
  {
    forall q, n :: q in s && n in q ==> Text.Free(n, '/')
  }

  /** Some path of s is p or lies below p. */
  ghost predicate IsNode(s: set<Parts>, p: Parts)
  {
    p != [] && exists q :: q in s && p <= q
  }

  ghost predicate IsDirIn(s: set<Parts>, p: Parts)
  {
    exists q :: q in s && p < q
  }

  function Slashed(p: Parts): string
  {
    Text.Join(p, '/')
  }

  /** Directories first, then by name. */
  predicate Precedes(less: Order, aDir: bool, a: string, bDir: bool, b: string)
  {
    if aDir != bDir then aDir else less(a, b)
  }

  ghost predicate NamePrecedes(less: Order, s: set<Parts>, p: Parts, a: string, b: string)
  {
    Precedes(less, IsDirIn(s, p + [a]), a, IsDirIn(s, p + [b]), b)
  }

  /** names lists, once each and in order, what lies directly below p. */
  ghost predicate Level(less: Order, s: set<Parts>, p: Parts, names: seq<string>)
  {
    NoDup(names) && (forall n :: n in names <==> IsNode(s, p + [n])) &&
    (forall i, j :: 0 <= i < j < |names| ==> NamePrecedes(less, s, p, names[i], names[j]))
  }

  function Names(f: seq<Tree>): (names: seq<string>)
    ensures |names| == |f| && forall i :: 0 <= i < |f| ==> names[i] == f[i].name
  {
    seq(|f|, i requires 0 <= i < |f| => f[i].name)
  }

  /** f is the tree of the paths in s that lie below p. */
  ghost predicate IsForest(less: Order, s: set<Parts>, p: Parts, f: seq<Tree>)
    decreases f
  {
    Level(less, s, p, Names(f)) &&
    forall i :: 0 <= i < |f| ==>
      NodeFits(s, p + [f[i].name], f[i]) && IsForest(less, s, p + [f[i].name], f[i].children)
  }

  ghost predicate NodeFits(s: set<Parts>, k: Parts, t: Tree)
  {
    t.path == Slashed(k) && t.isDir == IsDirIn(s, k)
  }

  // ----- canonical form

  lemma {:induction false} SortedSame<T>(a: seq<T>, b: seq<T>, lt: (T, T) -> bool)
    requires forall i, j :: 0 <= i < j < |a| ==> lt(a[i], a[j])
    requires forall i, j :: 0 <= i < j < |b| ==> lt(b[i], b[j])
    requires forall x, y :: x in a && y in a ==> !(lt(x, y) && lt(y, x))
    requires forall x :: x in a <==> x in b
    ensures a == b
  {
    assert b != [] ==> b[0] in b;
    if a == [] {
    } else {
      assert a[0] in b && b[0] in a;
      assert a[0] == b[0];
      forall x ensures x in a[1..] <==> x in b[1..] {
        assert x in a[1..] ==> x in a && lt(a[0], x);
        assert x in b[1..] ==> x in b && lt(b[0], x);
        assert x in a && x != a[0] ==> x in a[1..];
        assert x in b && x != b[0] ==> x in b[1..];
      }
      SortedSame(a[1..], b[1..], lt);
      assert a == [a[0]] + a[1..] && b == [b[0]] + b[1..];
    }
  }

  lemma LevelUnique(less: Order, s: set<Parts>, p: Parts, a: seq<string>, b: seq<string>)
    requires StrictTotal(less) && Level(less, s, p, a) && Level(less, s, p, b)
    ensures a == b
  {
    SortedSame(a, b, (x, y) => NamePrecedes(less, s, p, x, y));
  }

  /** A set of paths has only one tree: the canonical form, whatever list the paths came in. */
  lemma {:induction false} ForestUnique(less: Order, s: set<Parts>, p: Parts, f: seq<Tree>, g: seq<Tree>)
    requires StrictTotal(less) && IsForest(less, s, p, f) && IsForest(less, s, p, g)
    ensures f == g
    decreases f
  {
    LevelUnique(less, s, p, Names(f), Names(g));
    assert |Names(f)| == |Names(g)|;
    forall i | 0 <= i < |f| ensures f[i] == g[i] {
      assert Names(f)[i] == Names(g)[i];
      ForestUnique(less, s, p + [f[i].name], f[i].children, g[i].children);
    }
  }

  /** Directories come first, and within directories and within files the names ascend; so on every level. */
  ghost predicate DirsFirst(less: Order, f: seq<Tree>)
    decreases f
  {
    (forall i, j :: 0 <= i < j < |f| ==>
       (f[i].isDir || !f[j].isDir) && (f[i].isDir == f[j].isDir ==> less(f[i].name, f[j].name))) &&
    forall i :: 0 <= i < |f| ==> DirsFirst(less, f[i].children)
  }

  lemma {:induction false} ForestOrdered(less: Order, s: set<Parts>, p: Parts, f: seq<Tree>)
    requires IsForest(less, s, p, f)
    ensures DirsFirst(less, f)
    decreases f
  {
    var names := Names(f);
    forall i, j | 0 <= i < j < |f|
      ensures (f[i].isDir || !f[j].isDir) && (f[i].isDir == f[j].isDir ==> less(f[i].name, f[j].name))
    {
      assert NamePrecedes(less, s, p, names[i], names[j]);
      assert NodeFits(s, p + [names[i]], f[i]) && NodeFits(s, p + [names[j]], f[j]);
    }
    forall i | 0 <= i < |f| ensures DirsFirst(less, f[i].children) {
      ForestOrdered(less, s, p + [f[i].name], f[i].children);
    }
  }

  // ----- which nodes there are

  ghost predicate HasNode(f: seq<Tree>, path: string, isDir: bool)
    decreases f
  {
    exists i :: 0 <= i < |f| && ((f[i].path == path && f[i].isDir == isDir) || HasNode(f[i].children, path, isDir))
  }

  /** A node's path is its ancestors' names joined by slashes; the nodes are prefixes of the paths. */
  lemma {:induction false} NodeIsPrefix(less: Order, s: set<Parts>, p: Parts, f: seq<Tree>, path: string, isDir: bool)
    returns (k: Parts)
    requires IsForest(less, s, p, f) && HasNode(f, path, isDir)
    ensures p < k && IsNode(s, k) && path == Slashed(k) && isDir == IsDirIn(s, k)
    decreases f
  {
    hide IsNode, IsDirIn, Slashed, Level;
    var i :| 0 <= i < |f| && ((f[i].path == path && f[i].isDir == isDir) || HasNode(f[i].children, path, isDir));
    ChildFits(less, s, p, f, i);
    k := p + [f[i].name];
    if f[i].path != path || f[i].isDir != isDir {
      k := NodeIsPrefix(less, s, k, f[i].children, path, isDir);
    }
  }

  /** And every nonempty prefix of a path is a node. */
  lemma {:induction false} PrefixIsNode(less: Order, s: set<Parts>, p: Parts, f: seq<Tree>, k: Parts)
    requires IsForest(less, s, p, f) && p < k && IsNode(s, k)
    ensures HasNode(f, Slashed(k), IsDirIn(s, k))
    decreases f
  {
    var i := ChildOn(less, s, p, f, k);
    var m := p + [f[i].name];
    assert NodeFits(s, m, f[i]);
    if m != k {
      PrefixIsNode(less, s, m, f[i].children, k);
    }
  }

  /** The child through which k lies. */
  lemma ChildOn(less: Order, s: set<Parts>, p: Parts, f: seq<Tree>, k: Parts) returns (i: nat)
    requires IsForest(less, s, p, f) && p < k && IsNode(s, k)
    ensures i < |f| && p + [f[i].name] <= k && f[i].name == k[|p|]
  {
    var n := k[|p|];
    assert p + [n] <= k;
    var q :| q in s && k <= q;
    assert p + [n] <= q;
    assert n in Names(f);
    i :| 0 <= i < |f| && f[i].name == n;
  }

  ghost predicate FilesAre(f: seq<Tree>, s: set<Parts>)
  {
    forall path :: HasNode(f, path, false) <==> exists q :: q in s && path == Slashed(q)
  }

  lemma FilesOfPrefixFree(less: Order, s: set<Parts>, f: seq<Tree>)
    requires IsForest(less, s, [], f) && [] !in s && PrefixFree(s)
    ensures FilesAre(f, s)
  {
    forall path ensures HasNode(f, path, false) <==> exists q :: q in s && path == Slashed(q) {
      if HasNode(f, path, false) {
        var k := NodeIsPrefix(less, s, [], f, path, false);
        var q :| q in s && k <= q;
        assert k == q;
      }
      if q :| q in s && path == Slashed(q) {
        assert IsNode(s, q);
        PrefixIsNode(less, s, [], f, q);
      }
    }
  }

  /** The files of the tree are the given paths, exactly when none of these is a directory of another. */
  lemma FilesAreThePaths(less: Order, s: set<Parts>, f: seq<Tree>)
    requires IsForest(less, s, [], f) && SlashFree(s) && [] !in s
    ensures FilesAre(f, s) <==> PrefixFree(s)
  {
    if PrefixFree(s) {
      FilesOfPrefixFree(less, s, f);
    }
    if FilesAre(f, s) {
      forall p, q | p in s && q in s ensures !(p < q) {
        assert HasNode(f, Slashed(p), false);
        var k := NodeIsPrefix(less, s, [], f, Slashed(p), false);
        SamePath(s, p, k);
      }
    }
  }

  lemma SamePath(s: set<Parts>, k: Parts, m: Parts)
    requires SlashFree(s) && (k in s || IsNode(s, k)) && IsNode(s, m) && k != [] && Slashed(k) == Slashed(m)
    ensures k == m
  {
    assert IsNode(s, k) by { if k in s { assert k <= k; } }
    NodePartsFree(s, k);
    NodePartsFree(s, m);
    Text.JoinInjective(k, m, '/');
  }

  lemma NodePartsFree(s: set<Parts>, k: Parts)
    requires SlashFree(s) && IsNode(s, k)
    ensures forall i :: 0 <= i < |k| ==> Text.Free(k[i], '/')
  {
    var q :| q in s && k <= q;
    forall i | 0 <= i < |k| ensures Text.Free(k[i], '/') {
      assert k[i] == q[i] && q[i] in q;
    }
  }

  // ----- what the sidebar shows

  /**
   * The paths shown, top to bottom: a file that the search filters out is left out, a directory's children are shown
   * when it is expanded.
   */
  function Rendered(f: seq<Tree>, open: string -> bool, filteredOut: string -> bool): seq<string>
    decreases f
  {
    if f == [] then []
    else RenderedNode(f[0], open, filteredOut) + Rendered(f[1..], open, filteredOut)
  }

  function RenderedNode(t: Tree, open: string -> bool, filteredOut: string -> bool): seq<string>
    decreases t
  {
    if filteredOut(t.path) && !t.isDir then []
    else [t.path] + if t.isDir && open(t.path) then Rendered(t.children, open, filteredOut) else []
  }

  lemma {:induction false} RenderedIn(f: seq<Tree>, open: string -> bool, filteredOut: string -> bool, x: string)
    ensures x in Rendered(f, open, filteredOut) <==>
      exists i :: 0 <= i < |f| && x in RenderedNode(f[i], open, filteredOut)
    decreases |f|
  {
    if f == [] {
    } else {
      RenderedIn(f[1..], open, filteredOut, x);
      if x in Rendered(f[1..], open, filteredOut) {
        var i :| 0 <= i < |f[1..]| && x in RenderedNode(f[1..][i], open, filteredOut);
        assert f[i + 1] == f[1..][i];
      }
      if j :| 0 <= j < |f| && x in RenderedNode(f[j], open, filteredOut) && j != 0 {
        assert f[1..][j - 1] == f[j];
      }
    }
  }

  function NothingFiltered(): string -> bool
  {
    (path: string) => false
  }

  /** Whatever is shown in a subtree is a node of it. */
  lemma {:induction false} RenderedIsNode(less: Order, s: set<Parts>, p: Parts, f: seq<Tree>, open: string -> bool,
                                          filteredOut: string -> bool, x: string) returns (k: Parts)
    requires IsForest(less, s, p, f) && x in Rendered(f, open, filteredOut)
    ensures p < k && IsNode(s, k) && x == Slashed(k)
    decreases f
  {
    hide IsNode, IsDirIn, Slashed, Level;
    RenderedIn(f, open, filteredOut, x);
    var i :| 0 <= i < |f| && x in RenderedNode(f[i], open, filteredOut);
    ChildFits(less, s, p, f, i);
    k := p + [f[i].name];
    if x != f[i].path {
      k := RenderedIsNode(less, s, k, f[i].children, open, filteredOut, x);
    }
  }

  lemma ChildFits(less: Order, s: set<Parts>, p: Parts, f: seq<Tree>, i: nat)
    requires IsForest(less, s, p, f) && i < |f|
    ensures var k := p + [f[i].name];
      IsNode(s, k) && NodeFits(s, k, f[i]) && IsForest(less, s, k, f[i].children)
  {
    assert f[i].name in Names(f);
  }

  ghost predicate Reachable(open: string -> bool, p: Parts, k: Parts)
  {
    forall i :: |p| < i < |k| ==> open(Slashed(k[..i]))
  }

  /**
   * Under any search a node is shown exactly when all its proper ancestors below p are expanded and it is not a file
   * that the search leaves out; directories stay.
   */
  lemma {:induction false} ShownIff(less: Order, s: set<Parts>, p: Parts, f: seq<Tree>, open: string -> bool,
                                    filteredOut: string -> bool, k: Parts)
    requires IsForest(less, s, p, f) && SlashFree(s) && p < k && IsNode(s, k)
    ensures Slashed(k) in Rendered(f, open, filteredOut) <==>
            Reachable(open, p, k) && (IsDirIn(s, k) || !filteredOut(Slashed(k)))
    decreases f
  {
    hide IsNode, IsDirIn, Slashed, Level;
    var i := ChildOn(less, s, p, f, k);
    var m := p + [f[i].name];
    ChildFits(less, s, p, f, i);
    RenderedIn(f, open, filteredOut, Slashed(k));
    OnlyThrough(less, s, p, f, open, filteredOut, k, i);
    if m != k {
      DirAbove(s, m, k);
      ShownIff(less, s, m, f[i].children, open, filteredOut, k);
      ReachableThrough(open, p, m, k);
      if Slashed(k) == Slashed(m) { SamePath(s, k, m); }
    }
  }

  lemma ReachableThrough(open: string -> bool, p: Parts, m: Parts, k: Parts)
    requires p < m < k && |m| == |p| + 1
    ensures Reachable(open, p, k) <==> open(Slashed(m)) && Reachable(open, m, k)
  {
    hide Slashed;
    assert k[..|m|] == m;
  }

  lemma DirAbove(s: set<Parts>, m: Parts, k: Parts)
    requires m != [] && m < k && IsNode(s, k)
    ensures IsNode(s, m) && IsDirIn(s, m)
  {
    var q :| q in s && k <= q;
    assert m < q && m <= q;
  }

  /** A node shows up in the rendering of no other child than the one it lies under. */
  lemma OnlyThrough(less: Order, s: set<Parts>, p: Parts, f: seq<Tree>, open: string -> bool,
                    filteredOut: string -> bool, k: Parts, i: nat)
    requires IsForest(less, s, p, f) && SlashFree(s) && p < k && IsNode(s, k)
    requires i < |f| && f[i].name == k[|p|]
    ensures forall j :: 0 <= j < |f| && Slashed(k) in RenderedNode(f[j], open, filteredOut) ==>
      f[j].name == k[|p|] && f[j] == f[i]
  {
    forall j | 0 <= j < |f| && Slashed(k) in RenderedNode(f[j], open, filteredOut)
      ensures f[j].name == k[|p|] && f[j] == f[i]
    {
      var n := p + [f[j].name];
      assert f[j].name in Names(f) && NodeFits(s, n, f[j]) && IsNode(s, n);
      if Slashed(k) == f[j].path {
        SamePath(s, k, n);
      } else {
        var m := RenderedIsNode(less, s, n, f[j].children, open, filteredOut, Slashed(k));
        SamePath(s, k, m);
      }
      NamesDiffer(less, s, p, f, i, j);
    }
  }

  lemma NamesDiffer(less: Order, s: set<Parts>, p: Parts, f: seq<Tree>, i: nat, j: nat)
    requires IsForest(less, s, p, f) && i < |f| && j < |f| && f[i].name == f[j].name
    ensures f[i] == f[j]
  {
  }

  lemma {:induction false} ConcatOnce(f: seq<Tree>, open: string -> bool, filteredOut: string -> bool, i: nat)
    requires i <= |f|
    requires forall j :: 0 <= j < |f| ==> NoDup(RenderedNode(f[j], open, filteredOut))
    requires forall j, k, x :: 0 <= j < k < |f| && x in RenderedNode(f[j], open, filteredOut) ==>
      x !in RenderedNode(f[k], open, filteredOut)
    ensures NoDup(Rendered(f[i..], open, filteredOut))
    decreases |f| - i
  {
    if i < |f| {
      ConcatOnce(f, open, filteredOut, i + 1);
      var a, b := RenderedNode(f[i], open, filteredOut), Rendered(f[i + 1..], open, filteredOut);
      assert f[i..][1..] == f[i + 1..];
      forall x | x in a ensures x !in b {
        RenderedIn(f[i + 1..], open, filteredOut, x);
      }
      OnceAppended(a, b);
    }
  }

  lemma OnceAppended(a: seq<string>, b: seq<string>)
    requires NoDup(a) && NoDup(b) && forall x :: x in a ==> x !in b
    ensures NoDup(a + b)
  {
    var c := a + b;
    forall i, j | 0 <= i < j < |c| ensures c[i] != c[j] {
      if i < |a| <= j { assert c[i] in a && c[j] in b; }
    }
  }

  /** No path is shown twice, so each node has a path of its own. */
  lemma {:induction false} EachOnce(less: Order, s: set<Parts>, p: Parts, f: seq<Tree>, open: string -> bool,
                                    filteredOut: string -> bool)
    requires IsForest(less, s, p, f) && SlashFree(s)
    ensures NoDup(Rendered(f, open, filteredOut))
    decreases f
  {
    hide IsNode, IsDirIn, Slashed, Level, Rendered;
    forall j | 0 <= j < |f| ensures NoDup(RenderedNode(f[j], open, filteredOut)) {
      var m := p + [f[j].name];
      ChildFits(less, s, p, f, j);
      var below := Rendered(f[j].children, open, filteredOut);
      EachOnce(less, s, m, f[j].children, open, filteredOut);
      if f[j].path in below {
        var k := RenderedIsNode(less, s, m, f[j].children, open, filteredOut, f[j].path);
        SamePath(s, m, k);
      }
      OnceAppended([f[j].path], below);
    }
    forall j, k, x | 0 <= j < k < |f| && x in RenderedNode(f[j], open, filteredOut)
      ensures x !in RenderedNode(f[k], open, filteredOut)
    {
      Apart(less, s, p, f, open, filteredOut, j, k, x);
    }
    ConcatOnce(f, open, filteredOut, 0);
    assert f[0..] == f;
  }

  lemma Apart(less: Order, s: set<Parts>, p: Parts, f: seq<Tree>, open: string -> bool, filteredOut: string -> bool,
              j: nat, k: nat, x: string)
    requires IsForest(less, s, p, f) && SlashFree(s) && j < k < |f|
    requires x in RenderedNode(f[j], open, filteredOut)
    ensures x !in RenderedNode(f[k], open, filteredOut)
  {
    hide IsNode, IsDirIn, Slashed;
    RenderedIn(f, open, filteredOut, x);
    var m := RenderedIsNode(less, s, p, f, open, filteredOut, x);
    var i := ChildOn(less, s, p, f, m);
    OnlyThrough(less, s, p, f, open, filteredOut, m, i);
    assert Names(f)[j] != Names(f)[k];
  }

  /** Somewhere in list x comes before y. */
  ghost predicate ComesBefore(list: seq<string>, x: string, y: string)
  {
    exists a, b :: 0 <= a < b < |list| && list[a] == x && list[b] == y
  }

  /** What belongs to an earlier sibling is shown above what belongs to a later one. */
  lemma {:induction false} SiblingsInOrder(f: seq<Tree>, open: string -> bool, filteredOut: string -> bool, i: nat,
                                           j: nat, x: string, y: string)
    requires i < j < |f| && x in Rendered([f[i]], open, filteredOut) && y in Rendered([f[j]], open, filteredOut)
    ensures ComesBefore(Rendered(f, open, filteredOut), x, y)
  {
    hide RenderedNode;
    var first, rest := RenderedNode(f[0], open, filteredOut), Rendered(f[1..], open, filteredOut);
    var all := Rendered(f, open, filteredOut);
    OneRendered(f[i], open, filteredOut);
    OneRendered(f[j], open, filteredOut);
    if i == 0 {
      assert f[1..][j - 1] == f[j];
      RenderedIn(f[1..], open, filteredOut, y);
      var a :| 0 <= a < |first| && first[a] == x;
      var b :| 0 <= b < |rest| && rest[b] == y;
      assert all[a] == x && all[|first| + b] == y;
    } else {
      SiblingsInOrder(f[1..], open, filteredOut, i - 1, j - 1, x, y);
      var a, b :| 0 <= a < b < |rest| && rest[a] == x && rest[b] == y;
      assert all[|first| + a] == x && all[|first| + b] == y;
    }
  }

  lemma OneRendered(t: Tree, open: string -> bool, filteredOut: string -> bool)
    ensures Rendered([t], open, filteredOut) == RenderedNode(t, open, filteredOut)
  {
    hide RenderedNode;
    assert Rendered([t][1..], open, filteredOut) == [];
  }

  /** A directory is shown above all that is shown of its children, which is what they show by themselves. */
  lemma ParentOnTop(t: Tree, open: string -> bool, filteredOut: string -> bool)
    requires t.isDir
    ensures Rendered([t], open, filteredOut) ==
            if open(t.path) then [t.path] + Rendered(t.children, open, filteredOut) else [t.path]
  {
    OneRendered(t, open, filteredOut);
  }

  // ----- restoring a session

  /** The folder paths that restoring a session expands. */
  function Ancestors(file: Parts): set<string>
  {
    set i | 0 < i < |file| :: Slashed(file[..i])
  }

  /** In the tree of the paths, with an empty search, the restored session shows its last viewed file. */
  lemma RestoredFileShown(less: Order, paths: seq<string>, f: seq<Tree>, file: string, open: string -> bool)
    requires IsForest(less, PathSet(paths), [], f) && file in paths
    requires forall folder :: folder in Ancestors(Text.Split(file, '/')) ==> open(folder)
    ensures file in Rendered(f, open, NothingFiltered())
  {
    var k := Text.Split(file, '/');
    PathSetFree(paths);
    assert k in PathSet(paths) && k <= k;
    assert IsNode(PathSet(paths), k);
    ShownIff(less, PathSet(paths), [], f, open, NothingFiltered(), k);
    Text.JoinSplit(file, '/');
  }

  function PathSet(paths: seq<string>): set<Parts>
  {
    set path | path in paths :: Text.Split(path, '/')
  }

  lemma PathSetFree(paths: seq<string>)
    ensures SlashFree(PathSet(paths)) && [] !in PathSet(paths)
  {
    forall q, n | q in PathSet(paths) && n in q ensures Text.Free(n, '/') {
      var path :| path in paths && q == Text.Split(path, '/');
      Text.SplitFree(path, '/');
    }
  }
}
