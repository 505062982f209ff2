/** The node tree of fs/ramfs.c: children in singly linked lists, vnode shells counted in
    vn_live, and a node's storage freed when it is orphaned and its last shell is gone. */
module RamTree {
  import opened Bytes
  import opened Errno
  import opened Limits
  import opened Seqs
  import opened Wrappers


  /** Nodes are numbered by allocation; freed marks storage given back. */
  datatype Node = Node(name: seq<byte>, dir: bool, sibling: Option<nat>, first: Option<nat>, parent: Option<nat>,
                       orphan: bool, vnLive: nat, freed: bool)

  /** The nodes (0 is the root), the children of each in list order, and the live vnode shells. */
  datatype St = St(nodes: seq<Node>, kids: seq<seq<nat>>, shells: multiset<nat>)

  function Root(): Node { Node([], true, None, None, None, false, 1, false) }

  function Mounted(): St { St([Root()], [[]], multiset{0}) }

  // ---- the invariant ------------------------------------------------------------------------

  function Link(xs: seq<nat>, i: nat): Option<nat> { if i < |xs| then Some(xs[i]) else None }

  /** xs is exactly the list threaded from the directory's first child. */
  ghost predicate Threaded(nodes: seq<Node>, d: nat, xs: seq<nat>)
    requires d < |nodes|
  {
    && (forall i :: 0 <= i < |xs| ==> xs[i] < |nodes|)
    && nodes[d].first == Link(xs, 0)
    && forall i :: 0 <= i < |xs| ==> nodes[xs[i]].sibling == Link(xs, i + 1)
  }

  ghost predicate NamesApart(nodes: seq<Node>, xs: seq<nat>) {
    forall i, j :: 0 <= i < j < |xs| && xs[i] < |nodes| && xs[j] < |nodes| ==> nodes[xs[i]].name != nodes[xs[j]].name
  }

  ghost predicate Members(nodes: seq<Node>, d: nat, xs: seq<nat>) {
    forall n: nat :: n in xs <==> n < |nodes| && nodes[n].parent == Some(d)
  }

  /** Directory d's list: every child once, each with its own name. */
  ghost predicate ListOk(st: St, d: nat)
    requires |st.kids| == |st.nodes| && d < |st.nodes|
  {
    Threaded(st.nodes, d, st.kids[d]) && Distinct(st.kids[d]) && NamesApart(st.nodes, st.kids[d]) && Members(st.nodes, d, st.kids[d])
  }

  /** vn_live counts the shells; storage is freed exactly when orphaned with none; a parent is
      older than its children. */
  ghost predicate NodeOk(st: St, n: nat)
    requires n < |st.nodes|
  {
    var x := st.nodes[n];
    && x.vnLive == st.shells[n] && (x.freed <==> x.orphan && x.vnLive == 0)
    && (x.orphan ==> x.parent == None) && (x.parent.Some? ==> x.parent.value < n)
  }

  ghost predicate Inv(st: St) {
    && |st.kids| == |st.nodes| && |st.nodes| > 0 && !st.nodes[0].orphan && st.nodes[0].parent == None
    && (forall d: nat :: d < |st.nodes| ==> ListOk(st, d))
    && (forall n: nat :: n < |st.nodes| ==> NodeOk(st, n))
    && forall n :: n in st.shells ==> n < |st.nodes|
  }

  lemma MountedInv()
    ensures Inv(Mounted())
  {
  }

  // ---- the operations ---------------------------------------------------------------------------

  /** shell_make */
  function Shelled(st: St, n: nat): St
    requires n < |st.nodes|
  {
    st.(nodes := st.nodes[n := st.nodes[n].(vnLive := st.nodes[n].vnLive + 1)], shells := st.shells[n := st.shells[n] + 1])
  }

  /** ramfs_create's new node, first in its directory, without a shell yet. */
  function Linked(st: St, d: nat, name: seq<byte>, dir: bool): St
    requires d < |st.nodes| && |st.kids| == |st.nodes|
  {
    var n := |st.nodes|;
    var x := Node(name, dir, st.nodes[d].first, None, Some(d), false, 0, false);
    St(st.nodes[d := st.nodes[d].(first := Some(n))] + [x], st.kids[d := [n] + st.kids[d]] + [[]], st.shells)
  }

  function Without(xs: seq<nat>, i: nat): seq<nat>
    requires i < |xs|
  {
    xs[..i] + xs[i + 1..]
  }

  /** ramfs_unlink of child i of d: bypass it, orphan it, free it if it has no shell. */
  function Unlinked(st: St, d: nat, i: nat): St
    requires d < |st.nodes| && |st.kids| == |st.nodes| && i < |st.kids[d]|
    requires forall k :: 0 <= k < |st.kids[d]| ==> st.kids[d][k] < |st.nodes|
  {
    var c := st.kids[d][i];
    var x := st.nodes[c];
    var nodes1 := if i == 0 then st.nodes[d := st.nodes[d].(first := x.sibling)]
                  else st.nodes[st.kids[d][i - 1] := st.nodes[st.kids[d][i - 1]].(sibling := x.sibling)];
    var y := nodes1[c].(sibling := None, parent := None, orphan := true, freed := x.freed || x.vnLive == 0);
    St(nodes1[c := y], st.kids[d := Without(st.kids[d], i)], st.shells)
  }

  /** ramfs_destroy: one shell of n goes.  Without a shell the unsigned count would wrap. */
  function Dropped(st: St, n: nat): St
    requires n < |st.nodes|
  {
    var x := st.nodes[n];
    var left := if x.vnLive > 0 then x.vnLive - 1 else TWO32 - 1;
    st.(nodes := st.nodes[n := x.(vnLive := left, freed := x.freed || (left == 0 && x.orphan))],
        shells := st.shells - multiset{n})
  }

  // ---- they keep the invariant ----------------------------------------------------------------------

  /** Only vn_live and freed differ. */
  ghost predicate SameTree(st: St, t: St) {
    && |t.nodes| == |st.nodes| && t.kids == st.kids
    && forall n :: 0 <= n < |st.nodes| ==> t.nodes[n] == st.nodes[n].(vnLive := t.nodes[n].vnLive, freed := t.nodes[n].freed)
  }

  lemma SameLists(st: St, t: St, d: nat)
    requires |st.kids| == |st.nodes| && d < |st.nodes| && ListOk(st, d) && SameTree(st, t)
    ensures ListOk(t, d)
  {
    var xs := st.kids[d];
    forall i | 0 <= i < |xs| ensures t.nodes[xs[i]].name == st.nodes[xs[i]].name && t.nodes[xs[i]].sibling == st.nodes[xs[i]].sibling {}
  }

  lemma ShellKeeps(st: St, n: nat)
    requires Inv(st) && n < |st.nodes| && !st.nodes[n].orphan
    ensures Inv(Shelled(st, n))
  {
    var t := Shelled(st, n);
    forall d: nat | d < |t.nodes| ensures ListOk(t, d) { SameLists(st, t, d); }
    hide ListOk;
    forall m: nat | m < |t.nodes| ensures NodeOk(t, m) { assert NodeOk(st, m); }
  }

  /** A shell dies; the node is freed exactly when it was the last one of an orphan. */
  lemma DropKeeps(st: St, n: nat)
    requires Inv(st) && n in st.shells
    ensures n < |st.nodes| && st.nodes[n].vnLive > 0 && !st.nodes[n].freed && Inv(Dropped(st, n))
    ensures Dropped(st, n).nodes[n].freed <==> st.nodes[n].orphan && st.shells[n] == 1
  {
    assert NodeOk(st, n);
    var t := Dropped(st, n);
    forall d: nat | d < |t.nodes| ensures ListOk(t, d) { SameLists(st, t, d); }
    hide ListOk;
    forall m: nat | m < |t.nodes| ensures NodeOk(t, m) { assert NodeOk(st, m); }
  }

  /** Node m after ramfs_create's linking, field by field. */
  ghost predicate LinkedNode(st: St, t: St, d: nat, m: nat)
    requires d < |st.nodes| && m < |st.nodes| < |t.nodes|
  {
    t.nodes[m] == if m == d then st.nodes[m].(first := Some(|st.nodes|)) else st.nodes[m]
  }

  lemma LinkFields(st: St, d: nat, name: seq<byte>, dir: bool)
    requires d < |st.nodes| && |st.kids| == |st.nodes|
    ensures var t, n := Linked(st, d, name, dir), |st.nodes|;
      && |t.nodes| == |t.kids| == n + 1 && t.shells == st.shells
      && t.nodes[n] == Node(name, dir, st.nodes[d].first, None, Some(d), false, 0, false)
      && t.kids[d] == [n] + st.kids[d] && t.kids[n] == [] && (forall e :: 0 <= e < n && e != d ==> t.kids[e] == st.kids[e])
      && forall m: nat :: m < n ==> LinkedNode(st, t, d, m)
  {
  }

  lemma LinkThread(st: St, t: St, d: nat)
    requires d < |st.nodes| && |st.kids| == |st.nodes| && Threaded(st.nodes, d, st.kids[d]) && d !in st.kids[d]
    requires |t.nodes| == |st.nodes| + 1 && t.nodes[|st.nodes|].sibling == st.nodes[d].first
    requires forall m: nat :: m < |st.nodes| ==> LinkedNode(st, t, d, m)
    ensures Threaded(t.nodes, d, [|st.nodes|] + st.kids[d])
  {
    var xs, n := st.kids[d], |st.nodes|;
    var ys := [n] + xs;
    assert LinkedNode(st, t, d, d);
    forall i | 0 <= i < |ys| ensures ys[i] < |t.nodes| && t.nodes[ys[i]].sibling == Link(ys, i + 1) {
      if i > 0 {
        assert ys[i] == xs[i - 1] && xs[i - 1] in xs && LinkedNode(st, t, d, xs[i - 1]);
      }
    }
  }

  /** Names on the list stay apart. */
  lemma LinkNames(st: St, t: St, d: nat)
    requires d < |st.nodes| && |st.kids| == |st.nodes| && |t.nodes| == |st.nodes| + 1
    requires Distinct(st.kids[d]) && NamesApart(st.nodes, st.kids[d])
    requires forall k :: 0 <= k < |st.kids[d]| ==> st.kids[d][k] < |st.nodes| && st.nodes[st.kids[d][k]].name != t.nodes[|st.nodes|].name
    requires forall m: nat :: m < |st.nodes| ==> LinkedNode(st, t, d, m)
    ensures Distinct([|st.nodes|] + st.kids[d]) && NamesApart(t.nodes, [|st.nodes|] + st.kids[d])
  {
    var xs, n := st.kids[d], |st.nodes|;
    var ys := [n] + xs;
    forall k | 0 <= k < |xs| ensures t.nodes[xs[k]].name == st.nodes[xs[k]].name && ys[k + 1] == xs[k] {
      assert LinkedNode(st, t, d, xs[k]);
    }
    forall i, j | 0 <= i < j < |ys| && ys[i] < |t.nodes| && ys[j] < |t.nodes| ensures ys[i] != ys[j] && t.nodes[ys[i]].name != t.nodes[ys[j]].name {
      assert ys[j] == xs[j - 1];
      if i > 0 { assert ys[i] == xs[i - 1]; }
    }
  }

  lemma LinkMembers(st: St, t: St, d: nat, e: nat)
    requires d < |st.nodes| && e < |st.nodes| && |st.kids| == |st.nodes| && |t.nodes| == |st.nodes| + 1 && t.nodes[|st.nodes|].parent == Some(d)
    requires Members(st.nodes, e, st.kids[e])
    requires forall m: nat :: m < |st.nodes| ==> LinkedNode(st, t, d, m)
    ensures Members(t.nodes, e, if e == d then [|st.nodes|] + st.kids[e] else st.kids[e])
  {
    var ys := if e == d then [|st.nodes|] + st.kids[e] else st.kids[e];
    forall m: nat ensures m in ys <==> m < |t.nodes| && t.nodes[m].parent == Some(e) {
      if m < |st.nodes| { assert LinkedNode(st, t, d, m); }
    }
  }

  /** Lists whose nodes keep sibling and name stay in order. */
  lemma ListKept(st: St, t: St, e: nat)
    requires e < |st.nodes| <= |t.nodes| && |st.kids| == |st.nodes| && |t.kids| == |t.nodes| && t.kids[e] == st.kids[e] && ListOk(st, e)
    requires t.nodes[e].first == st.nodes[e].first && Members(t.nodes, e, t.kids[e])
    requires forall k :: 0 <= k < |st.kids[e]| ==>
      st.kids[e][k] < |st.nodes| && t.nodes[st.kids[e][k]].sibling == st.nodes[st.kids[e][k]].sibling && t.nodes[st.kids[e][k]].name == st.nodes[st.kids[e][k]].name
    ensures ListOk(t, e)
  {
    hide Members;
    assert Distinct(t.kids[e]);
  }

  lemma LinkOwn(st: St, d: nat, name: seq<byte>, dir: bool)
    requires |st.kids| == |st.nodes| && d < |st.nodes| && ListOk(st, d) && d !in st.kids[d]
    requires forall k :: 0 <= k < |st.kids[d]| ==> st.kids[d][k] < |st.nodes| && st.nodes[st.kids[d][k]].name != name
    ensures ListOk(Linked(st, d, name, dir), d)
  {
    var t := Linked(st, d, name, dir);
    LinkFields(st, d, name, dir);
    hide Linked, LinkedNode, Threaded;
    LinkThread(st, t, d);
    LinkNames(st, t, d);
    LinkMembers(st, t, d, d);
  }

  lemma LinkOther(st: St, d: nat, name: seq<byte>, dir: bool, e: nat)
    requires |st.kids| == |st.nodes| && d < |st.nodes| && e < |st.nodes| && e != d && ListOk(st, e)
    ensures ListOk(Linked(st, d, name, dir), e)
  {
    var t := Linked(st, d, name, dir);
    var xs := st.kids[e];
    LinkFields(st, d, name, dir);
    hide Linked;
    LinkMembers(st, t, d, e);
    assert LinkedNode(st, t, d, e);
    forall i | 0 <= i < |xs| ensures xs[i] < |st.nodes| && t.nodes[xs[i]].sibling == st.nodes[xs[i]].sibling && t.nodes[xs[i]].name == st.nodes[xs[i]].name {
      assert xs[i] in xs && LinkedNode(st, t, d, xs[i]);
    }
    hide Threaded, Members, LinkedNode;
    ListKept(st, t, e);
  }

  lemma LinkNew(st: St, d: nat, name: seq<byte>, dir: bool)
    requires |st.kids| == |st.nodes| && d < |st.nodes| && forall m: nat :: m < |st.nodes| ==> NodeOk(st, m)
    ensures ListOk(Linked(st, d, name, dir), |st.nodes|)
  {
    var t, n := Linked(st, d, name, dir), |st.nodes|;
    LinkFields(st, d, name, dir);
    hide Linked;
    forall m: nat | m < |t.nodes| ensures t.nodes[m].parent != Some(n) {
      if m < n { assert NodeOk(st, m) && LinkedNode(st, t, d, m); }
    }
  }

  lemma LinkNodes(st: St, d: nat, name: seq<byte>, dir: bool)
    requires |st.kids| == |st.nodes| && d < |st.nodes| && |st.nodes| !in st.shells && forall m: nat :: m < |st.nodes| ==> NodeOk(st, m)
    ensures forall m: nat :: m < |st.nodes| + 1 ==> NodeOk(Linked(st, d, name, dir), m)
  {
    var t := Linked(st, d, name, dir);
    LinkFields(st, d, name, dir);
    hide Linked;
    forall m: nat | m < |st.nodes| + 1 ensures NodeOk(t, m) {
      if m < |st.nodes| { assert NodeOk(st, m) && LinkedNode(st, t, d, m); }
    }
  }

  /** What the invariant says about one directory. */
  lemma AboutDir(st: St, d: nat)
    requires Inv(st) && d < |st.nodes|
    ensures |st.kids| == |st.nodes| && ListOk(st, d) && NodeOk(st, d) && d !in st.kids[d]
    ensures forall k :: 0 <= k < |st.kids[d]| ==> st.kids[d][k] < |st.nodes|
  {
    assert ListOk(st, d) && NodeOk(st, d);
    hide Distinct, NamesApart;
  }

  lemma AboutNodes(st: St)
    requires Inv(st)
    ensures (forall m: nat :: m < |st.nodes| ==> NodeOk(st, m)) && forall n :: n in st.shells ==> n < |st.nodes|
    ensures |st.nodes| > 0 && !st.nodes[0].orphan && st.nodes[0].parent == None && |st.kids| == |st.nodes|
    ensures forall m: nat :: m < |st.nodes| ==> ListOk(st, m)
  {
  }

  /** Creating a name that is not there yet keeps sibling names apart. */
  lemma LinkKeeps(st: St, d: nat, name: seq<byte>, dir: bool)
    requires Inv(st) && d < |st.nodes|
    requires forall k :: 0 <= k < |st.kids[d]| ==> st.kids[d][k] < |st.nodes| && st.nodes[st.kids[d][k]].name != name
    ensures Inv(Linked(st, d, name, dir))
  {
    var t, n := Linked(st, d, name, dir), |st.nodes|;
    AboutDir(st, d);
    AboutNodes(st);
    hide ListOk, NodeOk, Linked;
    LinkNew(st, d, name, dir);
    LinkOwn(st, d, name, dir);
    LinkNodes(st, d, name, dir);
    LinkFields(st, d, name, dir);
    forall e: nat | e < n && e != d ensures ListOk(t, e) { LinkOther(st, d, name, dir, e); }
    assert LinkedNode(st, t, d, 0);
  }

  // ---- unlinking ------------------------------------------------------------------------------------

  /** Node m after child c of d was unlinked; p is the child before it, if any. */
  ghost predicate UnlinkedNode(st: St, t: St, d: nat, p: Option<nat>, c: nat, m: nat)
    requires c < |st.nodes| && m < |st.nodes| == |t.nodes|
  {
    var x, y := st.nodes[m], t.nodes[m];
    && y.name == x.name && y.dir == x.dir && y.vnLive == x.vnLive
    && y.parent == (if m == c then None else x.parent)
    && y.sibling == (if m == c then None else if p == Some(m) then st.nodes[c].sibling else x.sibling)
    && y.first == (if p == None && m == d then st.nodes[c].sibling else x.first)
    && y.orphan == (m == c || x.orphan) && y.freed == (x.freed || (m == c && x.vnLive == 0))
  }

  function Before(xs: seq<nat>, i: nat): Option<nat>
    requires i < |xs|
  {
    if i == 0 then None else Some(xs[i - 1])
  }

  lemma UnlinkFields(st: St, d: nat, i: nat)
    requires d < |st.nodes| && |st.kids| == |st.nodes| && i < |st.kids[d]| && d !in st.kids[d] && Distinct(st.kids[d])
    requires forall k :: 0 <= k < |st.kids[d]| ==> st.kids[d][k] < |st.nodes|
    ensures var t, c, p := Unlinked(st, d, i), st.kids[d][i], Before(st.kids[d], i);
      && |t.nodes| == |t.kids| == |st.nodes| && t.shells == st.shells && t.kids[d] == Without(st.kids[d], i)
      && (forall e :: 0 <= e < |st.nodes| && e != d ==> t.kids[e] == st.kids[e])
      && forall m: nat :: m < |st.nodes| ==> UnlinkedNode(st, t, d, p, c, m)
  {
    assert st.kids[d][i] in st.kids[d];
    if i > 0 { assert st.kids[d][i - 1] in st.kids[d]; }
  }

  lemma WithoutHas(xs: seq<nat>, i: nat)
    requires Distinct(xs) && i < |xs|
    ensures forall n :: n in Without(xs, i) <==> n in xs && n != xs[i]
    ensures Distinct(Without(xs, i))
  {
    var ys := Without(xs, i);
    forall k | 0 <= k < |ys| ensures ys[k] == xs[if k < i then k else k + 1] {}
    forall n | n in xs && n != xs[i] ensures n in ys {
      var k :| 0 <= k < |xs| && xs[k] == n;
      assert ys[if k < i then k else k - 1] == n;
    }
  }

  /** Bypassing child i leaves the rest of the list threaded. */
  lemma UnlinkThread(st: St, t: St, d: nat, i: nat)
    requires d < |st.nodes| && |st.kids| == |st.nodes| == |t.nodes| && i < |st.kids[d]| && d !in st.kids[d]
    requires Threaded(st.nodes, d, st.kids[d]) && Distinct(st.kids[d])
    requires forall m: nat :: m < |st.nodes| ==> UnlinkedNode(st, t, d, Before(st.kids[d], i), st.kids[d][i], m)
    ensures Threaded(t.nodes, d, Without(st.kids[d], i))
  {
    var xs := st.kids[d];
    var ys := Without(xs, i);
    assert UnlinkedNode(st, t, d, Before(xs, i), xs[i], d);
    assert xs[i] in xs;
    forall k | 0 <= k < |ys| ensures ys[k] < |t.nodes| && t.nodes[ys[k]].sibling == Link(ys, k + 1) {
      var j := if k < i then k else k + 1;
      assert ys[k] == xs[j] && xs[j] != xs[i];
      assert UnlinkedNode(st, t, d, Before(xs, i), xs[i], xs[j]);
      if i > 0 && j != i - 1 { assert xs[j] != xs[i - 1]; }
    }
  }

  lemma UnlinkNames(st: St, t: St, d: nat, i: nat)
    requires d < |st.nodes| && |st.kids| == |st.nodes| == |t.nodes| && i < |st.kids[d]| && NamesApart(st.nodes, st.kids[d])
    requires forall m: nat :: m < |st.nodes| ==> t.nodes[m].name == st.nodes[m].name
    ensures NamesApart(t.nodes, Without(st.kids[d], i))
  {
    var xs := st.kids[d];
    var ys := Without(xs, i);
    forall k | 0 <= k < |ys| ensures ys[k] == xs[if k < i then k else k + 1] {}
  }

  lemma UnlinkMembers(st: St, t: St, d: nat, p: Option<nat>, c: nat, e: nat)
    requires e < |st.nodes| == |t.nodes| == |st.kids| && c < |st.nodes| && Members(st.nodes, e, st.kids[e])
    requires forall m: nat :: m < |st.nodes| ==> UnlinkedNode(st, t, d, p, c, m)
    ensures forall m: nat :: m < |t.nodes| && t.nodes[m].parent == Some(e) <==> m in st.kids[e] && m != c
  {
    forall m: nat ensures m < |t.nodes| && t.nodes[m].parent == Some(e) <==> m in st.kids[e] && m != c {
      if m < |st.nodes| { assert UnlinkedNode(st, t, d, p, c, m); }
    }
  }

  lemma UnlinkOwn(st: St, d: nat, i: nat)
    requires |st.kids| == |st.nodes| && d < |st.nodes| && ListOk(st, d) && d !in st.kids[d] && i < |st.kids[d]|
    requires forall k :: 0 <= k < |st.kids[d]| ==> st.kids[d][k] < |st.nodes|
    ensures ListOk(Unlinked(st, d, i), d)
  {
    var t, xs := Unlinked(st, d, i), st.kids[d];
    UnlinkFields(st, d, i);
    hide Unlinked, Without, Threaded, NamesApart;
    UnlinkThread(st, t, d, i);
    WithoutHas(xs, i);
    UnlinkMembers(st, t, d, Before(xs, i), xs[i], d);
    hide Distinct;
    forall m: nat | m < |st.nodes| ensures t.nodes[m].name == st.nodes[m].name { assert UnlinkedNode(st, t, d, Before(xs, i), xs[i], m); }
    hide UnlinkedNode;
    UnlinkNames(st, t, d, i);
  }

  lemma UnlinkOther(st: St, d: nat, i: nat, e: nat)
    requires |st.kids| == |st.nodes| && d < |st.nodes| && ListOk(st, d) && i < |st.kids[d]| && d !in st.kids[d]
    requires forall k :: 0 <= k < |st.kids[d]| ==> st.kids[d][k] < |st.nodes|
    requires e < |st.nodes| && e != d && ListOk(st, e)
    ensures ListOk(Unlinked(st, d, i), e)
  {
    var t, xs := Unlinked(st, d, i), st.kids[e];
    var p, c := Before(st.kids[d], i), st.kids[d][i];
    UnlinkFields(st, d, i);
    hide Unlinked, Threaded, NamesApart, Distinct;
    assert c in st.kids[d] && (p.Some? ==> p.value in st.kids[d]);
    forall m: nat | m in xs ensures m < |st.nodes| && m != c && p != Some(m) {
      assert st.nodes[m].parent == Some(e);
    }
    UnlinkMembers(st, t, d, p, c, e);
    assert UnlinkedNode(st, t, d, p, c, e);
    forall k | 0 <= k < |xs|
      ensures xs[k] < |st.nodes| && t.nodes[xs[k]].sibling == st.nodes[xs[k]].sibling && t.nodes[xs[k]].name == st.nodes[xs[k]].name
    {
      assert xs[k] in xs && UnlinkedNode(st, t, d, p, c, xs[k]);
    }
    assert Members(t.nodes, e, t.kids[e]);
    hide Members, UnlinkedNode;
    ListKept(st, t, e);
  }

  lemma UnlinkNodes(st: St, t: St, d: nat, p: Option<nat>, c: nat)
    requires |t.nodes| == |st.nodes| && c < |st.nodes| && t.shells == st.shells && forall m: nat :: m < |st.nodes| ==> NodeOk(st, m)
    requires forall m: nat :: m < |st.nodes| ==> UnlinkedNode(st, t, d, p, c, m)
    ensures forall m: nat :: m < |st.nodes| ==> NodeOk(t, m)
  {
    forall m: nat | m < |st.nodes| ensures NodeOk(t, m) { assert NodeOk(st, m) && UnlinkedNode(st, t, d, p, c, m); }
  }

  /** Unlinking detaches exactly that child; its storage goes at once exactly when it has no shell. */
  lemma UnlinkKeeps(st: St, d: nat, i: nat)
    requires Inv(st) && d < |st.nodes| && i < |st.kids[d]|
    ensures forall k :: 0 <= k < |st.kids[d]| ==> st.kids[d][k] < |st.nodes|
    ensures Inv(Unlinked(st, d, i))
    ensures var c := st.kids[d][i]; var t := Unlinked(st, d, i);
      && !st.nodes[c].freed && !st.nodes[c].orphan && t.nodes[c].orphan && t.kids[d] == Without(st.kids[d], i)
      && (t.nodes[c].freed <==> c !in st.shells)
  {
    AboutDir(st, d);
    AboutNodes(st);
    var c, t, p := st.kids[d][i], Unlinked(st, d, i), Before(st.kids[d], i);
    ChildFacts(st, d, i);
    hide Inv, ListOk, NodeOk, Unlinked, Before;
    UnlinkOwn(st, d, i);
    forall e: nat | e < |st.nodes| && e != d ensures ListOk(t, e) { UnlinkOther(st, d, i, e); }
    UnlinkFields(st, d, i);
    UnlinkNodes(st, t, d, p, c);
    assert UnlinkedNode(st, t, d, p, c, 0) && UnlinkedNode(st, t, d, p, c, c);
    hide UnlinkedNode;
    Conclude(st, t);
  }

  lemma ChildFacts(st: St, d: nat, i: nat)
    requires |st.kids| == |st.nodes| && d < |st.nodes| && ListOk(st, d) && i < |st.kids[d]| && st.kids[d][i] < |st.nodes| && NodeOk(st, st.kids[d][i])
    ensures var x := st.nodes[st.kids[d][i]]; x.parent == Some(d) && !x.orphan && !x.freed && x.vnLive == st.shells[st.kids[d][i]]
  {
    assert st.kids[d][i] in st.kids[d];
    hide Distinct, NamesApart, Threaded;
  }

  lemma InDir(st: St, d: nat, i: nat)
    requires Inv(st) && d < |st.nodes| && i < |st.kids[d]|
    ensures st.kids[d][i] < |st.nodes| && !st.nodes[st.kids[d][i]].orphan && st.kids[d][i] in st.kids[d]
  {
    AboutDir(st, d);
    AboutNodes(st);
    ChildFacts(st, d, i);
  }

  lemma Conclude(st: St, t: St)
    requires |t.kids| == |t.nodes| > 0 && !t.nodes[0].orphan && t.nodes[0].parent == None
    requires (forall d: nat :: d < |t.nodes| ==> ListOk(t, d)) && forall n: nat :: n < |t.nodes| ==> NodeOk(t, n)
    requires t.shells == st.shells && |t.nodes| == |st.nodes| && forall n :: n in st.shells ==> n < |st.nodes|
    ensures Inv(t)
  {
  }

  // ---- runs --------------------------------------------------------------------------------------------

  datatype Event = ShellEv(n: nat) | LinkEv(d: nat, name: seq<byte>, dir: bool) | UnlinkEv(d: nat, i: nat) | DropEv(n: nat)

  /** Every number names a node: all a step needs to be defined. */
  predicate Known(st: St) {
    && |st.kids| == |st.nodes|
    && (forall d, k :: 0 <= d < |st.kids| && 0 <= k < |st.kids[d]| ==> st.kids[d][k] < |st.nodes|)
    && forall n :: n in st.shells ==> n < |st.nodes|
  }

  /** Calls come through a live shell of the directory, name a child once, and drop shells they hold. */
  predicate Enabled(st: St, e: Event) {
    Known(st) &&
    match e
    case ShellEv(n) => n < |st.nodes| && !st.nodes[n].orphan
    case LinkEv(d, name, dir) =>
      d in st.shells && forall k :: 0 <= k < |st.kids[d]| ==> st.nodes[st.kids[d][k]].name != name
    case UnlinkEv(d, i) => d in st.shells && i < |st.kids[d]|
    case DropEv(n) => n in st.shells
  }

  function Next(st: St, e: Event): St
    requires Enabled(st, e)
  {
    match e
    case ShellEv(n) => Shelled(st, n)
    case LinkEv(d, name, dir) => Linked(st, d, name, dir)
    case UnlinkEv(d, i) => Unlinked(st, d, i)
    case DropEv(n) => Dropped(st, n)
  }

  lemma StepKeeps(st: St, e: Event)
    requires Inv(st) && Enabled(st, e)
    ensures Inv(Next(st, e))
  {
    hide Inv, Shelled, Linked, Unlinked, Dropped;
    match e
    case ShellEv(n) => ShellKeeps(st, n);
    case LinkEv(d, name, dir) => LinkKeeps(st, d, name, dir);
    case UnlinkEv(d, i) => UnlinkKeeps(st, d, i);
    case DropEv(n) => DropKeeps(st, n);
  }

  /** A freed node is never touched again, and a node is freed only when it is an orphan without a shell. */
  lemma FreedOnce(st: St, e: Event, n: nat)
    requires Inv(st) && Enabled(st, e) && n < |st.nodes|
    ensures n < |Next(st, e).nodes|
    ensures st.nodes[n].freed ==> Next(st, e).nodes[n] == st.nodes[n]
    ensures !st.nodes[n].freed && Next(st, e).nodes[n].freed ==> Next(st, e).nodes[n].orphan && n !in Next(st, e).shells
  {
    AboutNodes(st);
    assert NodeOk(st, n);
    match e
    case ShellEv(m) =>
    case LinkEv(d, name, dir) =>
      LinkFields(st, d, name, dir);
      assert NodeOk(st, d) && LinkedNode(st, Linked(st, d, name, dir), d, n);
    case UnlinkEv(d, i) =>
      AboutDir(st, d);
      ChildFacts(st, d, i);
      UnlinkFields(st, d, i);
      var p, c, t := Before(st.kids[d], i), st.kids[d][i], Unlinked(st, d, i);
      assert UnlinkedNode(st, t, d, p, c, n) && NodeOk(t, n) by { UnlinkKeeps(st, d, i); AboutNodes(t); }
      if i > 0 { ChildFacts(st, d, i - 1); }
      hide Inv, ListOk, Unlinked;
    case DropEv(m) => DropKeeps(st, m);
  }

  ghost predicate Run(trace: seq<St>, events: seq<Event>) {
    && |trace| == |events| + 1 && trace[0] == Mounted()
    && forall i :: 0 <= i < |events| ==> Enabled(trace[i], events[i]) && trace[i + 1] == Next(trace[i], events[i])
  }

  lemma {:induction false} RunKeeps(trace: seq<St>, events: seq<Event>, i: nat)
    requires Run(trace, events) && i < |trace|
    ensures Inv(trace[i])
    decreases i
  {
    if i == 0 {
      MountedInv();
    } else {
      RunKeeps(trace, events, i - 1);
      StepKeeps(trace[i - 1], events[i - 1]);
    }
  }

  /** In every run: vn_live is the number of live shells, storage is freed exactly for orphans
      without shells, and sibling names are distinct. */
  lemma RunSafe(trace: seq<St>, events: seq<Event>, i: nat)
    requires Run(trace, events) && i < |trace|
    ensures var st := trace[i];
      && |st.kids| == |st.nodes|
      && (forall n: nat :: n < |st.nodes| ==>
            st.nodes[n].vnLive == st.shells[n] && (st.nodes[n].freed <==> st.nodes[n].orphan && n !in st.shells))
      && (forall d: nat :: d < |st.nodes| ==> Threaded(st.nodes, d, st.kids[d]) && NamesApart(st.nodes, st.kids[d]))
  {
    RunKeeps(trace, events, i);
    var st := trace[i];
    AboutNodes(st);
    hide Inv, Run, Threaded, NamesApart, Members, Distinct;
    forall n: nat | n < |st.nodes| ensures st.nodes[n].vnLive == st.shells[n] && (st.nodes[n].freed <==> st.nodes[n].orphan && n !in st.shells) {
      assert NodeOk(st, n);
    }
    forall d: nat | d < |st.nodes| ensures Threaded(st.nodes, d, st.kids[d]) && NamesApart(st.nodes, st.kids[d]) { assert ListOk(st, d); }
  }

  /** Directory d has a child of that name. */
  predicate Taken(st: St, d: nat, name: seq<byte>)
    requires d < |st.kids|
  {
    exists k :: 0 <= k < |st.kids[d]| && st.kids[d][k] < |st.nodes| && st.nodes[st.kids[d][k]].name == name
  }

  // ---- the code ------------------------------------------------------------------------------------------------

  class RamFs {
    var nodes: seq<Node>
    ghost var kids: seq<seq<nat>>
    ghost var shells: multiset<nat>

    ghost function Now(): St
      reads this
    {
      St(nodes, kids, shells)
    }

    constructor ()
      ensures Now() == Mounted()
    {
      nodes, kids, shells := [Root()], [[]], multiset{0};
    }

    /** find_child: the position in the list tells which child it is. */
    method FindChild(d: nat, name: seq<byte>) returns (c: Option<nat>, prev: Option<nat>, ghost i: nat)
      requires Inv(Now()) && d < |nodes|
      ensures d < |kids| && (c.None? <==> !Taken(Now(), d, name))
      ensures forall k :: 0 <= k < |kids[d]| ==> kids[d][k] < |nodes|
      ensures c.Some? ==> i < |kids[d]| && c.value == kids[d][i] < |nodes| && nodes[c.value].name == name && prev == Before(kids[d], i)
    {
      AboutDir(Now(), d);
      hide Inv, NodeOk, NamesApart, Members, Distinct;
      c, prev, i := nodes[d].first, None, 0;
      ghost var xs := kids[d];
      while c.Some?
        invariant i <= |xs| && c == Link(xs, i) && prev == (if i == 0 then None else Some(xs[i - 1]))
        invariant forall k :: 0 <= k < i ==> nodes[xs[k]].name != name
        decreases |xs| - i
      {
        if nodes[c.value].name == name { return; }
        prev := c;
        c := nodes[c.value].sibling;
        i := i + 1;
      }
    }

    /** ramfs_lookup; without memory for a shell the call still reports success, and no shell */
    method Lookup(d: nat, name: seq<byte>, room: bool) returns (r: int, out: Option<nat>)
      requires Inv(Now()) && d < |nodes| && d in shells
      modifies this
      ensures Inv(Now()) && kids == old(kids)
      ensures r == 0 || r == ENOENT
      ensures r == ENOENT <==> name == [] || !Taken(old(Now()), d, name)
      ensures out.Some? <==> r == 0 && room
      ensures out.Some? ==> r == 0 && out.value in kids[d] && out.value < |old(nodes)| && old(nodes)[out.value].name == name
      ensures out.Some? ==> Now() == Shelled(old(Now()), out.value)
      ensures out.None? ==> Now() == old(Now())
    {
      if name == [] { return ENOENT, None; }
      ghost var i;
      var c, prev;
      c, prev, i := FindChild(d, name);
      if c.None? { return ENOENT, None; }
      if !room { return 0, None; }
      InDir(Now(), d, i);
      hide Inv, Taken;
      ShellMake(c.value);
      return 0, c;
    }

    /** shell_make with memory for the shell */
    method ShellMake(n: nat)
      requires Inv(Now()) && n < |nodes| && !nodes[n].orphan
      modifies this`nodes, this`shells
      ensures n < |old(nodes)| && Inv(Now()) && Now() == Shelled(old(Now()), n)
    {
      ShellKeeps(Now(), n);
      hide Inv;
      nodes := nodes[n := nodes[n].(vnLive := nodes[n].vnLive + 1)];
      shells := shells[n := shells[n] + 1];
    }

    /** ramfs_create */
    method Create(d: nat, name: seq<byte>, dir: bool, nodeRoom: bool, shellRoom: bool) returns (r: int)
      requires Inv(Now()) && d < |nodes| && d in shells
      modifies this
      ensures Inv(Now())
      ensures r == ENAMETOOLONG <==> |name| >= VFS_NAME_MAX
      ensures r == EEXIST <==> |name| < VFS_NAME_MAX && nodeRoom && Taken(old(Now()), d, name)
      ensures r == ENAMETOOLONG || r == EEXIST || !nodeRoom ==> Now() == old(Now()) && r < 0
      ensures r == ENOMEM <==> |name| < VFS_NAME_MAX && (!nodeRoom || (!shellRoom && !Taken(old(Now()), d, name)))
      ensures r == 0 ==> Now() == Shelled(Linked(old(Now()), d, name, dir), |old(nodes)|)
      ensures r == ENOMEM && nodeRoom ==> Now() == Linked(old(Now()), d, name, dir)
      ensures r == 0 || r == ENAMETOOLONG || r == EEXIST || r == ENOMEM
    {
      if |name| >= VFS_NAME_MAX { return ENAMETOOLONG; }
      if !nodeRoom { return ENOMEM; }
      ghost var i;
      var c, prev;
      c, prev, i := FindChild(d, name);
      AboutDir(Now(), d);
      if c.Some? { return EEXIST; }
      LinkKeeps(Now(), d, name, dir);
      ghost var linked := Linked(Now(), d, name, dir);
      var n := |nodes|;
      LinkFields(Now(), d, name, dir);
      hide Inv, LinkedNode;
      var x := Node(name, dir, nodes[d].first, None, Some(d), false, 0, false);
      nodes := nodes[d := nodes[d].(first := Some(n))] + [x];
      kids := kids[d := [n] + kids[d]] + [[]];
      if !shellRoom { return ENOMEM; }
      ShellMake(n);
      r := 0;
    }

    /** ramfs_unlink: walk to the child keeping the link that points at it, then take it out. */
    method Unlink(d: nat, name: seq<byte>) returns (r: int, ghost i: nat)
      requires Inv(Now()) && d < |nodes| && d in shells
      modifies this
      ensures Inv(Now()) && (r == 0 || r == ENOENT || r == ENOTEMPTY)
      ensures r == ENOENT <==> !Taken(old(Now()), d, name)
      ensures r != 0 ==> Now() == old(Now())
      ensures r != ENOENT ==> i < |old(kids)[d]| && old(kids)[d][i] < |old(nodes)| && old(nodes)[old(kids)[d][i]].name == name
      ensures r == ENOTEMPTY <==> Taken(old(Now()), d, name) &&
                                  (var c := old(kids)[d][i]; old(nodes)[c].dir && c < |old(kids)| && old(kids)[c] != [])
      ensures forall k :: 0 <= k < |old(kids)[d]| ==> old(kids)[d][k] < |old(nodes)|
      ensures r == 0 ==> i < |old(kids)[d]| && Now() == Unlinked(old(Now()), d, i)
    {
      var c, prev;
      c, prev, i := FindChild(d, name);
      AboutDir(Now(), d);
      if c.None? { return ENOENT, i; }
      ghost var st := Now();
      AboutDir(st, c.value);
      UnlinkKeeps(st, d, i);
      hide Inv, NodeOk, NamesApart, Members, Distinct;
      var x := nodes[c.value];
      if x.dir && x.first.Some? { return ENOTEMPTY, i; }
      if prev.None? {
        nodes := nodes[d := nodes[d].(first := x.sibling)];
      } else {
        nodes := nodes[prev.value := nodes[prev.value].(sibling := x.sibling)];
      }
      var y := nodes[c.value].(sibling := None, parent := None, orphan := true);
      if y.vnLive == 0 { y := y.(freed := true); }
      nodes := nodes[c.value := y];
      kids := kids[d := Without(kids[d], i)];
      r := 0;
    }

    /** ramfs_destroy */
    method Destroy(n: nat)
      requires Inv(Now()) && n in shells
      modifies this
      ensures Inv(Now()) && n < |old(nodes)| && old(nodes)[n].vnLive > 0 && Now() == Dropped(old(Now()), n)
    {
      DropKeeps(Now(), n);
      hide Inv;
      var x := nodes[n].(vnLive := nodes[n].vnLive - 1);
      if x.vnLive == 0 && x.orphan { x := x.(freed := true); }
      nodes := nodes[n := x];
      shells := shells - multiset{n};
    }
  }
}
