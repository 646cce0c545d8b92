/**
 * The builder itself: nodes on the heap whose child lists grow as paths are inserted and are then sorted in place.
 * A ghost map from part sequences to nodes says which node stands where; [] is the holder of the root list.
 */
module TreeBuilder {
  import opened Collections
  import opened FileTree

  class TreeNode {
    const name: string
    const path: string
    const isDir: bool
    var children: seq<TreeNode>

    constructor (name: string, path: string, isDir: bool)
      ensures this.name == name && this.path == path && this.isDir == isDir && children == []
    {
      this.name, this.path, this.isDir, this.children := name, path, isDir, [];
    }
  }

  type Nodes = map<Parts, TreeNode>

  function Parent(p: Parts): Parts
    requires p != []
  {
    p[..|p| - 1]
  }

  /** Distinct nodes in distinct places, each place's parent present and a directory, names and paths as placed. */
  ghost predicate Placed(nodes: Nodes)
  {
    [] in nodes && nodes[[]].isDir &&
    (forall p, q :: p in nodes && q in nodes && nodes[p] == nodes[q] ==> p == q) &&
    (forall p :: p in nodes && p != [] ==>
       Parent(p) in nodes && nodes[Parent(p)].isDir &&
       nodes[p].name == p[|p| - 1] && nodes[p].path == Slashed(p))
  }

  /** As the child list at p, list holds the nodes placed directly below p, once each. */
  ghost predicate Linked(nodes: Nodes, p: Parts, list: seq<TreeNode>)
  {
    NoDup(list) &&
    (forall c :: c in list ==> p + [c.name] in nodes && nodes[p + [c.name]] == c) &&
    (forall n :: p + [n] in nodes ==> nodes[p + [n]] in list)
  }

  ghost predicate Valid(nodes: Nodes)
    reads nodes.Values
  {
    Placed(nodes) && forall p :: p in nodes ==> Linked(nodes, p, nodes[p].children)
  }

  /** The places are the prefixes of the paths in done, the files are the paths themselves. */
  ghost predicate Holds(nodes: Nodes, done: set<Parts>)
  {
    (forall p :: p in nodes <==> p == [] || IsNode(done, p)) &&
    (forall p :: p in nodes ==> (nodes[p].isDir <==> p !in done))
  }

  ghost predicate Within(p: Parts, q: Parts, i: nat)
    requires i <= |q|
  {
    p <= q[..i]
  }

  /** While q is being inserted: besides the places of done, the first i prefixes of q are there. */
  ghost predicate HoldsPart(nodes: Nodes, done: set<Parts>, q: Parts, i: nat)
    requires i <= |q|
  {
    (forall p :: p in nodes <==> p == [] || IsNode(done, p) || Within(p, q, i)) &&
    (forall p :: p in nodes ==> (nodes[p].isDir <==> p !in done && (p != q || i < |q|)))
  }

  /** currentLevel.find(node => node.name === part) */
  method FindChild(level: TreeNode, part: string) returns (i: int)
    ensures i == -1 ==> forall c :: c in level.children ==> c.name != part
    ensures i != -1 ==> 0 <= i < |level.children| && level.children[i].name == part
  {
    i := 0;
    while i < |level.children|
      invariant 0 <= i <= |level.children|
      invariant forall j :: 0 <= j < i ==> level.children[j].name != part
    {
      if level.children[i].name == part { return; }
      i := i + 1;
    }
    i := -1;
  }

  // ----- hanging a new node c at place k

  lemma NewPlaced(nodes: Nodes, k: Parts, c: TreeNode)
    requires Placed(nodes) && k != [] && k !in nodes && c !in nodes.Values
    requires Parent(k) in nodes && nodes[Parent(k)].isDir && c.name == k[|k| - 1] && c.path == Slashed(k)
    ensures Placed(nodes[k := c])
  {
    hide Slashed;
  }

  lemma NewLinked(nodes: Nodes, k: Parts, c: TreeNode, p: Parts, list: seq<TreeNode>)
    requires Placed(nodes) && k != [] && k !in nodes && c.name == k[|k| - 1] && c !in nodes.Values
    requires p in nodes && Linked(nodes, p, list)
    ensures Linked(nodes[k := c], p, if p == Parent(k) then list + [c] else list)
  {
    hide Slashed, Placed;
    assert forall x :: x in list ==> x in nodes.Values && p + [x.name] != k;
    assert p == Parent(k) ==> p + [c.name] == k;
    assert forall n :: p + [n] == k ==> p == Parent(k);
  }

  lemma NewLeafLinked(nodes: Nodes, k: Parts, c: TreeNode)
    requires Placed(nodes) && k != [] && k !in nodes
    ensures Linked(nodes[k := c], k, [])
  {
    hide Slashed;
    forall n ensures k + [n] !in nodes[k := c] {
      assert Parent(k + [n]) == k;
    }
  }

  // ----- bookkeeping of what is inserted

  lemma HoldsStart(nodes: Nodes, done: set<Parts>, q: Parts)
    requires Holds(nodes, done) && q != []
    ensures HoldsPart(nodes, done, q, 0)
  {
  }

  /** The next prefix of q is present after step i, as a directory unless it is q itself. */
  lemma HoldsNext(nodes: Nodes, done: set<Parts>, q: Parts, i: nat, more: Nodes)
    requires i < |q| && HoldsPart(nodes, done, q, i) && PrefixFree(done + {q})
    requires if q[..i + 1] in nodes then more == nodes
             else more.Keys == nodes.Keys + {q[..i + 1]} && (forall p :: p in nodes ==> more[p] == nodes[p]) &&
                  (more[q[..i + 1]].isDir <==> i + 1 < |q|)
    ensures HoldsPart(more, done, q, i + 1)
    ensures q[..i + 1] in more && (more[q[..i + 1]].isDir <==> i + 1 < |q|)
  {
    var k := q[..i + 1];
    assert k <= q;
    forall p ensures Within(p, q, i + 1) <==> Within(p, q, i) || p == k {
      assert p <= k && p != k ==> p == k[..|p|] == q[..i][..|p|];
      assert p <= q[..i] ==> p == q[..i][..|p|] == k[..|p|];
    }
    if k in done { assert k in done + {q} && q in done + {q} && !(k < q); }
    if k == q && k in nodes {
      assert !Within(k, q, i);
      var r :| r in done && k <= r;
      assert r in done + {q} && q in done + {q} && !(q < r);
      assert r == q;
    }
  }

  lemma HoldsEnd(nodes: Nodes, done: set<Parts>, q: Parts)
    requires HoldsPart(nodes, done, q, |q|)
    ensures Holds(nodes, done + {q})
  {
    assert q[..|q|] == q;
    assert forall p :: Within(p, q, |q|) <==> p <= q;
    forall p ensures IsNode(done + {q}, p) <==> IsNode(done, p) || (p != [] && p <= q) {
      if IsNode(done, p) {
        var r :| r in done && p <= r;
        assert r in done + {q};
      }
      if p != [] && p <= q { assert q in done + {q}; }
    }
  }

  lemma RootPlaced(nodes: Nodes)
    requires Placed(nodes)
    ensures [] in nodes && nodes[[]].isDir
  {
  }

  /** The child list answers whether place k = p + [part] is taken, and by whom. */
  lemma LookUp(nodes: Nodes, p: Parts, list: seq<TreeNode>, part: string, k: Parts)
    requires Placed(nodes) && Linked(nodes, p, list) && k == p + [part]
    ensures (forall c :: c in list ==> c.name != part) ==> k !in nodes
    ensures forall c :: c in list && c.name == part ==> k in nodes && nodes[k] == c
  {
    hide Slashed;
  }

  method InsertPath(top: TreeNode, path: string, ghost nodes: Nodes, ghost done: set<Parts>)
    returns (ghost more: Nodes)
    requires Valid(nodes) && nodes[[]] == top && Holds(nodes, done)
    requires PrefixFree(done + {Text.Split(path, '/')})
    modifies nodes.Values
    ensures Valid(more) && more[[]] == top && Holds(more, done + {Text.Split(path, '/')})
    ensures fresh(more.Values - nodes.Values)
  {
    hide IsNode, PrefixFree, Slashed, Placed, Linked, HoldsPart;
    var parts := Text.Split(path, '/');
    var level := top;
    more := nodes;
    HoldsStart(nodes, done, parts);
    RootPlaced(nodes);
    for index := 0 to |parts|
      invariant [] in more && more[[]] == top && Valid(more) && HoldsPart(more, done, parts, index)
      invariant parts[..index] in more && (index < |parts| ==> more[parts[..index]] == level && level.isDir)
      invariant fresh(more.Values - nodes.Values)
    {
      var part := parts[index];
      var isLast := index == |parts| - 1;
      var currentPath := Slashed(parts[..index + 1]);
      ghost var k := parts[..index + 1];
      assert k == parts[..index] + [part] && Parent(k) == parts[..index];
      ghost var before := more;
      var existing: TreeNode;
      var i := FindChild(level, part);
      LookUp(more, parts[..index], level.children, part, k);
      if i == -1 {
        existing, more := HangNode(level, part, currentPath, !isLast, more, k);
      } else {
        existing := level.children[i];
      }
      HoldsNext(before, done, parts, index, more);
      if !isLast && existing.isDir {
        level := existing;
      }
    }
    HoldsEnd(more, done, parts);
  }

  method HangNode(level: TreeNode, part: string, path: string, isDir: bool, ghost nodes: Nodes, ghost k: Parts)
    returns (c: TreeNode, ghost more: Nodes)
    requires Valid(nodes) && k != [] && k !in nodes && Parent(k) in nodes && nodes[Parent(k)] == level && level.isDir
    requires part == k[|k| - 1] && path == Slashed(k)
    modifies level
    ensures fresh(c) && more == nodes[k := c] && Valid(more) && c.isDir == isDir
  {
    hide Slashed, Placed, Linked;
    c := new TreeNode(part, path, isDir);
    level.children := level.children + [c];
    more := nodes[k := c];
    NewPlaced(nodes, k, c);
    NewLeafLinked(nodes, k, c);
    forall p | p in nodes ensures Linked(more, p, more[p].children) {
      NewLinked(nodes, k, c, p, old(nodes[p].children));
      OnlyOne(nodes, p, Parent(k));
    }
  }

  lemma OnlyOne(nodes: Nodes, p: Parts, q: Parts)
    requires Placed(nodes) && p in nodes && q in nodes
    ensures nodes[p] == nodes[q] ==> p == q
  {
  }

  // ----- sorting in place

  predicate Comes(less: Order, a: TreeNode, b: TreeNode)
  {
    Precedes(less, a.isDir, a.name, b.isDir, b.name)
  }

  ghost predicate InOrder(less: Order, list: seq<TreeNode>)
  {
    forall i, j :: 0 <= i < j < |list| ==> Comes(less, list[i], list[j])
  }

  /** Directories before files, and ascending names among each of them. */
  ghost predicate Listed(less: Order, list: seq<TreeNode>)
  {
    forall i, j :: 0 <= i < j < |list| ==>
      (list[i].isDir || !list[j].isDir) && (list[i].isDir == list[j].isDir ==> less(list[i].name, list[j].name))
  }

  lemma OrderMeans(less: Order, list: seq<TreeNode>)
    requires InOrder(less, list)
    ensures Listed(less, list)
  {
  }

  function InsertNode(less: Order, c: TreeNode, list: seq<TreeNode>): seq<TreeNode>
  {
    if list == [] || Comes(less, c, list[0]) then [c] + list else [list[0]] + InsertNode(less, c, list[1..])
  }

  /** nodes.sort: with distinct names any correct sort gives the same list. */
  function SortNodes(less: Order, list: seq<TreeNode>): seq<TreeNode>
  {
    if list == [] then [] else InsertNode(less, list[0], SortNodes(less, list[1..]))
  }

  lemma ComesTotal(less: Order, a: TreeNode, b: TreeNode, c: TreeNode)
    requires StrictTotal(less)
    ensures Comes(less, a, b) && Comes(less, b, c) ==> Comes(less, a, c)
    ensures a.name != b.name ==> Comes(less, a, b) || Comes(less, b, a)
  {
  }

  ghost predicate NamesApart(list: seq<TreeNode>)
  {
    forall i, j :: 0 <= i < j < |list| ==> list[i].name != list[j].name
  }

  lemma {:induction false} InsertNodeElems(less: Order, c: TreeNode, list: seq<TreeNode>)
    ensures Elems(InsertNode(less, c, list)) == Elems(list) + {c}
  {
    hide Comes;
    if list == [] || Comes(less, c, list[0]) {
      assert Elems([c] + list) == {c} + Elems(list);
    } else {
      var rest := InsertNode(less, c, list[1..]);
      InsertNodeElems(less, c, list[1..]);
      assert Elems(list) == {list[0]} + Elems(list[1..]);
      assert Elems([list[0]] + rest) == {list[0]} + Elems(rest);
    }
  }

  lemma {:induction false} InsertNodeOrders(less: Order, c: TreeNode, list: seq<TreeNode>)
    requires StrictTotal(less) && InOrder(less, list) && NamesApart(list)
    requires forall j :: 0 <= j < |list| ==> list[j].name != c.name
    ensures InOrder(less, InsertNode(less, c, list)) && NamesApart(InsertNode(less, c, list))
  {
    hide StrictTotal, Comes;
    if list == [] {
    } else if Comes(less, c, list[0]) {
      forall j | 0 <= j < |list| ensures Comes(less, c, list[j]) {
        ComesTotal(less, c, list[0], list[j]);
      }
    } else {
      var rest := InsertNode(less, c, list[1..]);
      InsertNodeOrders(less, c, list[1..]);
      InsertNodeElems(less, c, list[1..]);
      ComesTotal(less, c, list[0], c);
      forall j | 0 <= j < |rest| ensures Comes(less, list[0], rest[j]) && list[0].name != rest[j].name {
        assert rest[j] in Elems(rest);
        if rest[j] != c {
          var i :| 0 <= i < |list[1..]| && list[1..][i] == rest[j];
          assert list[i + 1] == rest[j];
        }
      }
    }
  }

  lemma {:induction false} SortNodesOrders(less: Order, list: seq<TreeNode>)
    requires StrictTotal(less) && NamesApart(list)
    ensures InOrder(less, SortNodes(less, list)) && NamesApart(SortNodes(less, list))
    ensures Elems(SortNodes(less, list)) == Elems(list)
  {
    hide StrictTotal, Comes;
    if list == [] {
    } else {
      var rest := SortNodes(less, list[1..]);
      SortNodesOrders(less, list[1..]);
      forall j | 0 <= j < |rest| ensures rest[j].name != list[0].name {
        assert rest[j] in Elems(rest) && Elems(rest) == Elems(list[1..]);
        var i :| 0 <= i < |list[1..]| && list[1..][i] == rest[j];
        assert list[i + 1] == rest[j];
      }
      assert Elems(list) == {list[0]} + Elems(list[1..]);
      InsertNodeOrders(less, list[0], rest);
      InsertNodeElems(less, list[0], rest);
    }
  }

  lemma LinkedApart(nodes: Nodes, p: Parts, list: seq<TreeNode>)
    requires Linked(nodes, p, list)
    ensures NamesApart(list)
  {
  }

  lemma LinkedSame(nodes: Nodes, p: Parts, list: seq<TreeNode>, sorted: seq<TreeNode>)
    requires Linked(nodes, p, list) && NamesApart(sorted) && Elems(sorted) == Elems(list)
    ensures Linked(nodes, p, sorted)
  {
    assert forall c :: c in sorted ==> c in Elems(sorted);
    assert forall n :: p + [n] in nodes ==> nodes[p + [n]] in Elems(list);
  }

  /** One of the first i children has this name. */
  ghost predicate Among(list: seq<TreeNode>, i: nat, name: string)
  {
    exists j :: 0 <= j < i && j < |list| && list[j].name == name
  }

  ghost predicate Bounded(nodes: Nodes, depth: nat)
  {
    forall p :: p in nodes ==> |p| <= depth
  }

  /** Nothing lies below a file. */
  lemma {:induction false} FilesAreBare(nodes: Nodes, p: Parts, k: Parts)
    requires Placed(nodes) && p in nodes && !nodes[p].isDir && k in nodes
    ensures !(p < k)
    decreases |k|
  {
    if p < k {
      if Parent(k) == p {
        assert false;
      } else {
        assert p < Parent(k) by { assert Parent(k)[..|p|] == k[..|p|]; }
        FilesAreBare(nodes, p, Parent(k));
      }
    }
  }

  lemma FileList(nodes: Nodes, p: Parts, list: seq<TreeNode>)
    requires Placed(nodes) && p in nodes && !nodes[p].isDir && Linked(nodes, p, list)
    ensures list == []
  {
    if list != [] {
      assert list[0] in list;
      FilesAreBare(nodes, p, p + [list[0].name]);
    }
  }

  /** Every place on the way to a place is one. */
  lemma {:induction false} WayThere(nodes: Nodes, p: Parts, k: Parts)
    requires Placed(nodes) && k in nodes && p < k
    ensures k[..|p| + 1] in nodes && k[..|p| + 1] == p + [k[|p|]]
    decreases |k|
  {
    hide Placed;
    NextPart(p, k);
    if |k| == |p| + 1 {
      assert k[..|p| + 1] == k;
    } else {
      ParentPlaced(nodes, k);
      WayThere(nodes, p, Parent(k));
    }
  }

  lemma NextPart(p: Parts, k: Parts)
    requires p < k
    ensures k[..|p| + 1] == p + [k[|p|]]
    ensures |k| > |p| + 1 ==> p < Parent(k) && Parent(k)[..|p| + 1] == k[..|p| + 1]
  {
    if |k| > |p| + 1 { assert Parent(k)[..|p|] == k[..|p|]; }
  }

  lemma ParentPlaced(nodes: Nodes, k: Parts)
    requires Placed(nodes) && k in nodes && k != []
    ensures Parent(k) in nodes
  {
    hide Slashed;
  }

  method SortTree(less: Order, node: TreeNode, ghost p: Parts, ghost nodes: Nodes, ghost depth: nat)
    requires StrictTotal(less) && Valid(nodes) && Bounded(nodes, depth) && p in nodes && nodes[p] == node
    modifies nodes.Values
    ensures Valid(nodes)
    ensures forall k :: k in nodes && p <= k ==> InOrder(less, nodes[k].children) && Listed(less, nodes[k].children)
    ensures forall k :: k in nodes && !(p <= k) ==> nodes[k].children == old(nodes[k].children)
    decreases depth - |p|
  {
    hide StrictTotal, InOrder, Slashed, Linked, Among, Placed;
    SortLevel(less, node, p, nodes);
    var list := node.children;
    forall k | k in nodes && k != p ensures nodes[k].children == old(nodes[k].children) {
      OnlyOne(nodes, k, p);
    }
    assert forall name :: !Among(list, 0, name) by { AmongNone(list); }
    for i := 0 to |list|
      invariant Valid(nodes) && node.children == list && InOrder(less, list)
      invariant forall k :: k in nodes && p < k && Among(list, i, k[|p|]) ==> InOrder(less, nodes[k].children)
      invariant forall k :: k in nodes && !(p <= k) ==> nodes[k].children == old(nodes[k].children)
    {
      var child := list[i];
      ghost var q := p + [child.name];
      ChildPlace(nodes, p, list, i);
      ghost var before := Lists(nodes);
      assert forall k :: k in nodes && p < k && Among(list, i, k[|p|]) ==> InOrder(less, before[k]);
      if child.isDir {
        SortTree(less, child, q, nodes, depth);
        assert !(q <= p) && nodes[p] == node;
      } else {
        FileInOrder(less, nodes, q);
        forall k | k in nodes && q <= k ensures k == q { FilesAreBare(nodes, q, k); Itself(q, k); }
      }
      OneMoreSorted(less, nodes, before, Lists(nodes), p, list, i);
    }
    forall k | k in nodes && p <= k ensures InOrder(less, nodes[k].children) {
      if k != p { AllAmong(nodes, p, list, k); }
    }
    forall k | k in nodes && p <= k ensures Listed(less, nodes[k].children) {
      OrderMeans(less, nodes[k].children);
    }
  }

  lemma Itself(q: Parts, k: Parts)
    requires q <= k && !(q < k)
    ensures k == q
  {
    assert q == k[..|q|];
  }

  /** After the subtree of the i-th child is sorted and the rest left alone, the first i + 1 subtrees are sorted. */
  lemma OneMoreSorted(less: Order, nodes: Nodes, before: ChildLists, after: ChildLists, p: Parts, list: seq<TreeNode>,
                      i: nat)
    requires i < |list| && before.Keys == after.Keys == nodes.Keys
    requires forall k :: k in nodes && p < k && Among(list, i, k[|p|]) ==> InOrder(less, before[k])
    requires forall k :: k in nodes && p + [list[i].name] <= k ==> InOrder(less, after[k])
    requires forall k :: k in nodes && !(p + [list[i].name] <= k) ==> after[k] == before[k]
    ensures forall k :: k in nodes && p < k && Among(list, i + 1, k[|p|]) ==> InOrder(less, after[k])
  {
    hide InOrder, Among;
    forall k | k in nodes && p < k && Among(list, i + 1, k[|p|]) ensures InOrder(less, after[k]) {
      AmongNext(list, i, k[|p|]);
      Onward(p, list[i].name, k);
    }
  }

  /** node.children.sort(...) on one level. */
  method SortLevel(less: Order, node: TreeNode, ghost p: Parts, ghost nodes: Nodes)
    requires StrictTotal(less) && Valid(nodes) && p in nodes && nodes[p] == node
    modifies node
    ensures Valid(nodes) && InOrder(less, node.children)
  {
    hide StrictTotal, InOrder, Slashed, Linked, Placed;
    LinkedApart(nodes, p, node.children);
    SortNodesOrders(less, node.children);
    LinkedSame(nodes, p, node.children, SortNodes(less, node.children));
    node.children := SortNodes(less, node.children);
    forall k | k in nodes ensures Linked(nodes, k, nodes[k].children) {
      OnlyOne(nodes, k, p);
    }
  }

  lemma ChildPlace(nodes: Nodes, p: Parts, list: seq<TreeNode>, i: nat)
    requires Linked(nodes, p, list) && i < |list|
    ensures p + [list[i].name] in nodes && nodes[p + [list[i].name]] == list[i]
  {
    assert list[i] in list;
  }

  lemma FileInOrder(less: Order, nodes: Nodes, q: Parts)
    requires Valid(nodes) && q in nodes && !nodes[q].isDir
    ensures InOrder(less, nodes[q].children)
  {
    FileList(nodes, q, nodes[q].children);
  }

  lemma AmongNone(list: seq<TreeNode>)
    ensures forall name :: !Among(list, 0, name)
  {
  }

  lemma AmongNext(list: seq<TreeNode>, i: nat, name: string)
    requires i < |list|
    ensures Among(list, i + 1, name) <==> Among(list, i, name) || name == list[i].name
  {
  }

  lemma Onward(p: Parts, name: string, k: Parts)
    requires p < k
    ensures p + [name] <= k <==> k[|p|] == name
  {
  }

  lemma AllAmong(nodes: Nodes, p: Parts, list: seq<TreeNode>, k: Parts)
    requires Placed(nodes) && Linked(nodes, p, list) && k in nodes && p < k
    ensures Among(list, |list|, k[|p|])
  {
    hide Slashed;
    WayThere(nodes, p, k);
    var c := nodes[p + [k[|p|]]];
    var j :| 0 <= j < |list| && list[j] == c;
    assert (p + [k[|p|]])[|p|] == k[|p|];
  }

  // ----- the tree as a value

  type ChildLists = map<Parts, seq<TreeNode>>

  /** All child lists at this moment, by place. */
  ghost function Lists(nodes: Nodes): ChildLists
    reads nodes.Values
  {
    map p | p in nodes :: nodes[p].children
  }

  /** The forest that the child lists describe below p. */
  ghost function Reify(lists: ChildLists, p: Parts, depth: nat): seq<Tree>
    decreases depth + 1 - |p|
  {
    if p !in lists || |p| > depth then []
    else
      seq(|lists[p]|, i requires 0 <= i < |lists[p]| =>
        var c := lists[p][i];
        Node(c.name, c.path, c.isDir, Reify(lists, p + [c.name], depth)))
  }

  lemma DirOfNode(done: set<Parts>, k: Parts)
    requires PrefixFree(done) && IsNode(done, k)
    ensures IsDirIn(done, k) <==> k !in done
  {
    var q :| q in done && k <= q;
    if k !in done {
      assert k == q[..|k|] && q == q[..|q|];
      assert k < q;
    }
  }

  lemma LevelOf(less: Order, nodes: Nodes, done: set<Parts>, p: Parts, list: seq<TreeNode>, names: seq<string>)
    requires Placed(nodes) && Linked(nodes, p, list) && Holds(nodes, done) && PrefixFree(done) && InOrder(less, list)
    requires |names| == |list| && forall i :: 0 <= i < |list| ==> names[i] == list[i].name
    ensures Level(less, done, p, names)
  {
    hide Slashed, IsNode, PrefixFree, IsDirIn, NamePrecedes;
    LinkedApart(nodes, p, list);
    forall n ensures n in names <==> IsNode(done, p + [n]) {
      if IsNode(done, p + [n]) {
        var j :| 0 <= j < |list| && list[j] == nodes[p + [n]];
        assert (p + [n])[|p|] == n && names[j] == n;
      }
      if n in names {
        var j :| 0 <= j < |names| && names[j] == n;
        assert list[j] in list;
      }
    }
    LevelOrder(less, nodes, done, p, list, names);
  }

  lemma LevelOrder(less: Order, nodes: Nodes, done: set<Parts>, p: Parts, list: seq<TreeNode>, names: seq<string>)
    requires Placed(nodes) && Linked(nodes, p, list) && Holds(nodes, done) && PrefixFree(done) && InOrder(less, list)
    requires |names| == |list| && forall i :: 0 <= i < |list| ==> names[i] == list[i].name
    ensures forall i, j :: 0 <= i < j < |names| ==> NamePrecedes(less, done, p, names[i], names[j])
  {
    hide Slashed, IsNode, PrefixFree, IsDirIn, Precedes, Placed;
    forall i, j | 0 <= i < j < |names| ensures NamePrecedes(less, done, p, names[i], names[j]) {
      ListedDir(nodes, done, p, list, i);
      ListedDir(nodes, done, p, list, j);
      assert Comes(less, list[i], list[j]);
    }
  }

  /** A listed node is a directory exactly if its place is one. */
  lemma ListedDir(nodes: Nodes, done: set<Parts>, p: Parts, list: seq<TreeNode>, i: nat)
    requires Placed(nodes) && Linked(nodes, p, list) && Holds(nodes, done) && PrefixFree(done) && i < |list|
    ensures list[i].isDir <==> IsDirIn(done, p + [list[i].name])
  {
    hide Slashed, IsNode, PrefixFree, IsDirIn;
    assert list[i] in list;
    DirOfNode(done, p + [list[i].name]);
  }

  lemma {:induction false} ReifyIsForest(less: Order, nodes: Nodes, lists: ChildLists, done: set<Parts>, p: Parts,
                                         depth: nat)
    requires Placed(nodes) && Bounded(nodes, depth) && p in nodes && Holds(nodes, done) && PrefixFree(done)
    requires lists.Keys == nodes.Keys
    requires forall k :: k in nodes ==> Linked(nodes, k, lists[k]) && InOrder(less, lists[k])
    ensures IsForest(less, done, p, Reify(lists, p, depth))
    decreases depth - |p|
  {
    hide Slashed, IsNode, PrefixFree, IsDirIn, InOrder, Level, Linked;
    var f := Reify(lists, p, depth);
    LevelOf(less, nodes, done, p, lists[p], Names(f));
    forall i | 0 <= i < |f|
      ensures NodeFits(done, p + [f[i].name], f[i]) && IsForest(less, done, p + [f[i].name], f[i].children)
    {
      var k := p + [f[i].name];
      ChildPlace(nodes, p, lists[p], i);
      DirOfNode(done, k);
      ReifyIsForest(less, nodes, lists, done, k, depth);
    }
  }

  // ----- buildTree

  /** No file is a directory of another, so the listed paths are prefix-free: the result is the path set's tree. */
  method BuildTree(less: Order, paths: seq<string>) returns (root: TreeNode, ghost nodes: Nodes, ghost depth: nat)
    requires StrictTotal(less) && PrefixFree(PathSet(paths))
    ensures Valid(nodes) && Bounded(nodes, depth) && [] in nodes && nodes[[]] == root
    ensures IsForest(less, PathSet(paths), [], Reify(Lists(nodes), [], depth))
    ensures DirsFirst(less, Reify(Lists(nodes), [], depth))
    ensures forall k :: k in nodes ==> Listed(less, nodes[k].children)
  {
    hide Slashed, IsNode, PrefixFree, StrictTotal, InOrder, IsForest, Linked, Listed, DirsFirst;
    root := new TreeNode("", "", true);
    nodes := map[[] := root];
    EmptyTree(root, nodes);
    for i := 0 to |paths|
      invariant [] in nodes && nodes[[]] == root && Valid(nodes) && Holds(nodes, PathSet(paths[..i]))
      invariant fresh(nodes.Values)
    {
      NextPath(paths, i);
      nodes := InsertPath(root, paths[i], nodes, PathSet(paths[..i]));
    }
    assert paths[..|paths|] == paths;
    depth := DepthOf(nodes.Keys);
    SortTree(less, root, [], nodes, depth);
    ReifyIsForest(less, nodes, Lists(nodes), PathSet(paths), [], depth);
    ForestOrdered(less, PathSet(paths), [], Reify(Lists(nodes), [], depth));
  }

  lemma EmptyTree(root: TreeNode, nodes: Nodes)
    requires root.isDir && nodes == map[[] := root] && root.children == []
    ensures Valid(nodes) && Holds(nodes, PathSet([]))
  {
    hide Slashed;
  }

  lemma NextPath(paths: seq<string>, i: nat)
    requires i < |paths| && PrefixFree(PathSet(paths))
    ensures PathSet(paths[..i + 1]) == PathSet(paths[..i]) + {Text.Split(paths[i], '/')}
    ensures PrefixFree(PathSet(paths[..i]) + {Text.Split(paths[i], '/')})
  {
    assert paths[..i + 1] == paths[..i] + [paths[i]];
    forall q | q in PathSet(paths[..i + 1]) ensures q in PathSet(paths) {
      var path :| path in paths[..i + 1] && q == Text.Split(path, '/');
      assert path in paths;
    }
    var less := PathSet(paths[..i]) + {Text.Split(paths[i], '/')};
    forall p, q | p in less && q in less ensures !(p < q) {
      assert p in PathSet(paths) && q in PathSet(paths);
    }
  }

  lemma DepthOf(places: set<Parts>) returns (depth: nat)
    ensures forall p :: p in places ==> |p| <= depth
    decreases places
  {
    depth := 0;
    if places != {} {
      var p :| p in places;
      var rest := DepthOf(places - {p});
      depth := if |p| > rest then |p| else rest;
    }
  }

  /** The sorted tree is the same for every order and repetition of the paths. */
  lemma SameTree(less: Order, paths: seq<string>, others: seq<string>, f: seq<Tree>, g: seq<Tree>)
    requires StrictTotal(less) && Elems(paths) == Elems(others)
    requires IsForest(less, PathSet(paths), [], f) && IsForest(less, PathSet(others), [], g)
    ensures f == g
  {
    hide IsForest, StrictTotal;
    assert forall path :: path in paths <==> path in Elems(paths);
    assert forall path :: path in others <==> path in Elems(others);
    assert PathSet(paths) == PathSet(others);
    ForestUnique(less, PathSet(paths), [], f, g);
  }

  /** after is before with the folders expanded. */
  ghost predicate Expands(before: map<string, bool>, after: map<string, bool>, folders: set<string>)
  {
    after.Keys == before.Keys + folders &&
    forall folder :: folder in after ==> after[folder] == if folder in folders then true else before[folder]
  }

  /** newExpanded[folderPath] = true for each folder on the way to the file; nothing else changes. */
  method ExpandAncestors(expanded: map<string, bool>, file: string) returns (newExpanded: map<string, bool>)
    ensures Expands(expanded, newExpanded, Ancestors(Text.Split(file, '/')))
  {
    hide Slashed;
    var parts := Text.Split(file, '/');
    newExpanded := expanded;
    for i := 0 to |parts| - 1
      invariant Expands(expanded, newExpanded, AncestorsUpTo(parts, i))
    {
      AncestorsGrow(parts, i);
      newExpanded := newExpanded[Slashed(parts[..i + 1]) := true];
    }
    AncestorsComplete(parts);
  }

  function AncestorsUpTo(parts: Parts, n: nat): set<string>
    requires n < |parts|
  {
    set i | 0 < i <= n :: Slashed(parts[..i])
  }

  lemma AncestorsGrow(parts: Parts, i: nat)
    requires i + 1 < |parts|
    ensures AncestorsUpTo(parts, i + 1) == AncestorsUpTo(parts, i) + {Slashed(parts[..i + 1])}
  {
    hide Slashed;
  }

  lemma AncestorsComplete(parts: Parts)
    requires parts != []
    ensures AncestorsUpTo(parts, |parts| - 1) == Ancestors(parts)
  {
    hide Slashed;
  }
}
