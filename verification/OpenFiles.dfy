/** Open files of fs/vfs.c: vnode and file reference counts across fd tables, fork and exit.
    A hold is a reference somebody outside the tables still owes a close for. */
module OpenFiles {
  import opened Errno
  import opened Limits
  import opened Wrappers

  const PROC_FD_MAX: nat := 16

  datatype File = File(vn: nat, refs: nat, live: bool)

  type Table = t: seq<Option<nat>> | |t| == PROC_FD_MAX witness seq(16, _ => None)

  function NoFiles(): Table { seq(PROC_FD_MAX, _ => None) }

  /** Files and vnodes are numbered by allocation and never reused.  A process without a table has
      None; `gone` has a vnode once for each time it was destroyed. */
  datatype St = St(files: seq<File>, tables: seq<Option<Table>>, holds: multiset<nat>,
                   vnRefs: seq<nat>, vnHolds: multiset<nat>, gone: multiset<nat>)

  const INIT: St := St([], [], multiset{}, [], multiset{}, multiset{})

  // ---- the operations -----------------------------------------------------------------------

  /** Every number names a file or a vnode: all a step needs to be defined. */
  ghost predicate Known(st: St) {
    && (forall f :: 0 <= f < |st.files| ==> st.files[f].vn < |st.vnRefs|)
    && (forall p, i :: 0 <= p < |st.tables| && st.tables[p].Some? && 0 <= i < PROC_FD_MAX && st.tables[p].value[i].Some? ==>
          st.tables[p].value[i].value < |st.files|)
    && (forall f :: f in st.holds ==> f < |st.files|) && (forall v :: v in st.vnHolds ==> v < |st.vnRefs|)
  }

  /** vn_unref; at zero the vnode is destroyed */
  function VnDrop(st: St, v: nat): St {
    if v < |st.vnRefs| && st.vnRefs[v] > 0 then
      var st1 := st.(vnRefs := st.vnRefs[v := st.vnRefs[v] - 1]);
      if st.vnRefs[v] == 1 then st1.(gone := st.gone[v := st.gone[v] + 1]) else st1
    else st
  }

  /** file_close without the hold it consumes */
  function Drop(st: St, f: nat): (r: St)
    ensures r.tables == st.tables && |r.files| == |st.files|
  {
    if f < |st.files| && st.files[f].refs > 0 then
      var o := st.files[f];
      var st1 := st.(files := st.files[f := File(o.vn, o.refs - 1, o.live && o.refs > 1)]);
      if o.refs == 1 then VnDrop(st1, o.vn) else st1
    else st
  }

  function Close(st: St, f: nat): St {
    Drop(st.(holds := st.holds - multiset{f}), f)
  }

  function SetSlot(st: St, p: nat, fd: nat, x: Option<nat>): St
    requires p < |st.tables| && st.tables[p].Some? && fd < PROC_FD_MAX
  {
    st.(tables := st.tables[p := Some(st.tables[p].value[fd := x])])
  }

  function Ref(st: St, f: nat): St
    requires f < |st.files|
  {
    st.(files := st.files[f := st.files[f].(refs := st.files[f].refs + 1)])
  }

  /** vfs_fd_put */
  function Put(st: St, p: nat, fd: nat): (r: St)
    requires p < |st.tables| && st.tables[p].Some? && fd < PROC_FD_MAX
    ensures |r.files| == |st.files| && |r.tables| == |st.tables| && r.tables[p].Some?
    ensures forall i :: 0 <= i < PROC_FD_MAX ==> r.tables[p].value[i] == if i == fd then None else st.tables[p].value[i]
    ensures forall q :: 0 <= q < |st.tables| && q != p ==> r.tables[q] == st.tables[q]
  {
    var x := st.tables[p].value[fd];
    if x.None? then st else Drop(SetSlot(st, p, fd, None), x.value)
  }

  // ---- the invariant --------------------------------------------------------------------------

  predicate SlotIs(t: Option<Table>, i: nat, f: nat) { t.Some? && i < PROC_FD_MAX && t.value[i] == Some(f) }

  /** The fd slots naming file f. */
  ghost function Naming(st: St, f: nat): set<(nat, nat)> {
    set p: nat, i: nat | p < |st.tables| && i < PROC_FD_MAX && SlotIs(st.tables[p], i, f) :: (p, i)
  }

  /** The live files on vnode v. */
  ghost function FilesOn(st: St, v: nat): set<nat> {
    set f: nat | f < |st.files| && st.files[f].live && st.files[f].vn == v
  }

  /** refs counts the slots and the holds, and a file lives exactly while it is referenced. */
  ghost predicate RefsOk(st: St) {
    forall f :: 0 <= f < |st.files| ==> st.files[f].refs == |Naming(st, f)| + st.holds[f] && (st.files[f].live <==> st.files[f].refs > 0)
  }

  ghost predicate VnOk(st: St) {
    forall v :: 0 <= v < |st.vnRefs| ==> st.vnRefs[v] == |FilesOn(st, v)| + st.vnHolds[v]
  }

  /** A vnode is destroyed once, when its last reference goes. */
  ghost predicate GoneOk(st: St) {
    && (forall v :: v in st.gone ==> v < |st.vnRefs|)
    && forall v :: 0 <= v < |st.vnRefs| ==> st.gone[v] == if st.vnRefs[v] == 0 then 1 else 0
  }

  ghost predicate Inv(st: St) { Known(st) && RefsOk(st) && VnOk(st) && GoneOk(st) }

  // ---- counting ---------------------------------------------------------------------------------

  /** Every slot but one is as it was. */
  ghost predicate OneSlotDiffers(st: St, t: St, p: nat, i: nat) {
    && |t.tables| == |st.tables| && p < |st.tables| && i < PROC_FD_MAX && st.tables[p].Some? && t.tables[p].Some?
    && (forall q :: 0 <= q < |st.tables| && q != p ==> t.tables[q] == st.tables[q])
    && (forall j :: 0 <= j < PROC_FD_MAX && j != i ==> t.tables[p].value[j] == st.tables[p].value[j])
  }

  lemma OtherSlots(st: St, t: St, p: nat, i: nat, f: nat)
    requires OneSlotDiffers(st, t, p, i)
    ensures forall q: nat, j: nat :: q < |st.tables| && j < PROC_FD_MAX && (q != p || j != i) ==> (SlotIs(t.tables[q], j, f) <==> SlotIs(st.tables[q], j, f))
  {
  }

  lemma OneSlotCount(st: St, t: St, p: nat, i: nat, f: nat)
    requires OneSlotDiffers(st, t, p, i)
    ensures |Naming(t, f)| + Bit(SlotIs(st.tables[p], i, f)) == |Naming(st, f)| + Bit(SlotIs(t.tables[p], i, f))
  {
    OtherSlots(st, t, p, i, f);
    hide OneSlotDiffers, SlotIs;
    assert |t.tables| == |st.tables| && p < |st.tables| && i < PROC_FD_MAX;
    var a, b := Naming(st, f), Naming(t, f);
    assert a - {(p, i)} == b - {(p, i)};
    WithOrWithout(a, (p, i));
    WithOrWithout(b, (p, i));
  }

  lemma WithOrWithout(a: set<(nat, nat)>, x: (nat, nat))
    ensures |a| == |a - {x}| + Bit(x in a)
  {
    assert a == if x in a then (a - {x}) + {x} else a - {x};
  }

  lemma SameNaming(st: St, t: St, f: nat)
    requires t.tables == st.tables
    ensures Naming(t, f) == Naming(st, f)
  {
  }

  lemma SameFilesOn(st: St, t: St, v: nat)
    requires |t.files| == |st.files| && forall f :: 0 <= f < |st.files| ==> t.files[f].live == st.files[f].live && t.files[f].vn == st.files[f].vn
    ensures FilesOn(t, v) == FilesOn(st, v)
  {
  }

  // ---- dropping a reference -----------------------------------------------------------------------

  /** The invariant but for one reference to f that nobody accounts for. */
  ghost predicate OneOver(st: St, f: nat) {
    && Known(st) && VnOk(st) && GoneOk(st) && f < |st.files|
    && forall g :: 0 <= g < |st.files| ==> st.files[g].refs == |Naming(st, g)| + st.holds[g] + Bit(g == f) && (st.files[g].live <==> st.files[g].refs > 0)
  }

  /** file_close of an unaccounted reference restores the invariant; at zero, and only then, the
      file is freed and exactly one reference of its vnode goes. */
  lemma DropKeeps(st: St, f: nat)
    requires OneOver(st, f)
    ensures Inv(Drop(st, f))
    ensures var t := Drop(st, f); var v := st.files[f].vn;
      if st.files[f].refs == 1 then !t.files[f].live && st.vnRefs[v] > 0 && t.vnRefs == st.vnRefs[v := st.vnRefs[v] - 1]
      else t.files[f].live && t.vnRefs == st.vnRefs && t.gone == st.gone
  {
    hide Naming, FilesOn;
    var t := Drop(st, f);
    assert st.files[f].refs > 0;
    forall g | 0 <= g < |t.files| ensures t.files[g].refs == |Naming(t, g)| + t.holds[g] && (t.files[g].live <==> t.files[g].refs > 0) {
      SameNaming(st, t, g);
    }
    DropVnode(st, f);
  }

  lemma DropVnode(st: St, f: nat)
    requires Known(st) && VnOk(st) && f < |st.files| && st.files[f].live && st.files[f].refs > 0
    ensures VnOk(Drop(st, f)) && st.vnRefs[st.files[f].vn] > 0
  {
    var t, v := Drop(st, f), st.files[f].vn;
    assert f in FilesOn(st, v);
    forall w | 0 <= w < |t.vnRefs| ensures t.vnRefs[w] == |FilesOn(t, w)| + t.vnHolds[w] {
      if st.files[f].refs == 1 && w == v {
        assert FilesOn(t, w) == FilesOn(st, w) - {f};
      } else {
        assert FilesOn(t, w) == FilesOn(st, w);
      }
    }
  }

  lemma CloseKeeps(st: St, f: nat)
    requires Inv(st) && f in st.holds
    ensures f < |st.files| && Inv(Close(st, f))
  {
    CloseOver(st, f);
    DropKeeps(st.(holds := st.holds - multiset{f}), f);
  }

  lemma PutKeeps(st: St, p: nat, fd: nat)
    requires Inv(st) && p < |st.tables| && st.tables[p].Some? && fd < PROC_FD_MAX
    ensures Inv(Put(st, p, fd))
  {
    PutOver(st, p, fd);
    var x := st.tables[p].value[fd];
    if x.Some? { DropKeeps(SetSlot(st, p, fd, None), x.value); }
  }

  // ---- vnodes and new files --------------------------------------------------------------------------

  /** A file system hands out a vnode holding one reference. */
  ghost function NewVnode(st: St): St {
    st.(vnRefs := st.vnRefs + [1], vnHolds := st.vnHolds[|st.vnRefs| := st.vnHolds[|st.vnRefs|] + 1])
  }

  ghost function VnRef(st: St, v: nat): St
    requires v < |st.vnRefs|
  {
    st.(vnRefs := st.vnRefs[v := st.vnRefs[v] + 1], vnHolds := st.vnHolds[v := st.vnHolds[v] + 1])
  }

  ghost function VnUnref(st: St, v: nat): St
    requires v < |st.vnRefs|
  {
    VnDrop(st, v).(vnHolds := st.vnHolds - multiset{v})
  }

  /** file_alloc takes over one vnode reference and returns one hold on a new file. */
  ghost function Alloc(st: St, v: nat): St
    requires v < |st.vnRefs|
  {
    var f := |st.files|;
    st.(files := st.files + [File(v, 1, true)], holds := st.holds[f := st.holds[f] + 1], vnHolds := st.vnHolds - multiset{v})
  }

  lemma NewVnodeKeeps(st: St)
    requires Inv(st)
    ensures Inv(NewVnode(st))
  {
    var t, n := NewVnode(st), |st.vnRefs|;
    forall f | 0 <= f < |st.files| ensures t.files[f].refs == |Naming(t, f)| + t.holds[f] { SameNaming(st, t, f); }
    assert FilesOn(t, n) == {};
    forall v | 0 <= v < n ensures t.vnRefs[v] == |FilesOn(t, v)| + t.vnHolds[v] { SameFilesOn(st, t, v); }
  }

  lemma VnRefKeeps(st: St, v: nat)
    requires Inv(st) && v < |st.vnRefs| && st.vnRefs[v] > 0
    ensures Inv(VnRef(st, v))
  {
    var t := VnRef(st, v);
    forall f | 0 <= f < |st.files| ensures t.files[f].refs == |Naming(t, f)| + t.holds[f] { SameNaming(st, t, f); }
    forall w | 0 <= w < |st.vnRefs| ensures t.vnRefs[w] == |FilesOn(t, w)| + t.vnHolds[w] { SameFilesOn(st, t, w); }
  }

  lemma VnUnrefKeeps(st: St, v: nat)
    requires Inv(st) && v in st.vnHolds
    ensures v < |st.vnRefs| && Inv(VnUnref(st, v))
  {
    var t := VnUnref(st, v);
    forall f | 0 <= f < |st.files| ensures t.files[f].refs == |Naming(t, f)| + t.holds[f] { SameNaming(st, t, f); }
    forall w | 0 <= w < |st.vnRefs| ensures t.vnRefs[w] == |FilesOn(t, w)| + t.vnHolds[w] { SameFilesOn(st, t, w); }
  }

  lemma AllocKeeps(st: St, v: nat)
    requires Inv(st) && v in st.vnHolds
    ensures v < |st.vnRefs| && Inv(Alloc(st, v))
  {
    var t, n := Alloc(st, v), |st.files|;
    hide VnOk;
    forall f | 0 <= f < |t.files| ensures t.files[f].refs == |Naming(t, f)| + t.holds[f] && (t.files[f].live <==> t.files[f].refs > 0) {
      SameNaming(st, t, f);
      if f == n { assert Naming(st, n) == {}; }
    }
    AllocVnode(st, v);
  }

  lemma AllocVnode(st: St, v: nat)
    requires Known(st) && VnOk(st) && v in st.vnHolds && v < |st.vnRefs|
    ensures VnOk(Alloc(st, v))
  {
    var t, n := Alloc(st, v), |st.files|;
    forall w | 0 <= w < |t.vnRefs| ensures t.vnRefs[w] == |FilesOn(t, w)| + t.vnHolds[w] {
      if w == v {
        assert FilesOn(t, w) == FilesOn(st, w) + {n};
      } else {
        assert FilesOn(t, w) == FilesOn(st, w);
      }
    }
  }

  lemma StillGone(st: St, t: St)
    requires GoneOk(st) && t.vnRefs == st.vnRefs && t.gone == st.gone
    ensures GoneOk(t)
  {
  }

  // ---- slots --------------------------------------------------------------------------------------------

  /** vfs_fd_install into a free slot: the caller's hold becomes the slot's reference. */
  ghost function Install(st: St, p: nat, fd: nat, f: nat): St
    requires p < |st.tables| && st.tables[p].Some? && fd < PROC_FD_MAX
  {
    SetSlot(st, p, fd, Some(f)).(holds := st.holds - multiset{f})
  }

  /** vfs_fd_get of an open slot */
  ghost function Get(st: St, f: nat): St
    requires f < |st.files|
  {
    Ref(st, f).(holds := st.holds[f := st.holds[f] + 1])
  }

  lemma InstallKeeps(st: St, p: nat, fd: nat, f: nat)
    requires Inv(st) && p < |st.tables| && st.tables[p].Some? && fd < PROC_FD_MAX && st.tables[p].value[fd].None? && f in st.holds
    ensures Inv(Install(st, p, fd, f))
  {
    hide Naming, FilesOn, GoneOk;
    var t := Install(st, p, fd, f);
    assert GoneOk(t) by { StillGone(st, t); }
    forall g | 0 <= g < |st.files| ensures t.files[g].refs == |Naming(t, g)| + t.holds[g] { OneSlotCount(st, t, p, fd, g); }
    forall v | 0 <= v < |st.vnRefs| ensures t.vnRefs[v] == |FilesOn(t, v)| + t.vnHolds[v] { SameFilesOn(st, t, v); }
  }

  lemma LiveIfNamed(st: St, p: nat, fd: nat)
    requires Inv(st) && p < |st.tables| && st.tables[p].Some? && fd < PROC_FD_MAX && st.tables[p].value[fd].Some?
    ensures st.tables[p].value[fd].value < |st.files| && st.files[st.tables[p].value[fd].value].live
  {
    assert (p, fd) in Naming(st, st.tables[p].value[fd].value);
  }

  lemma GetKeeps(st: St, p: nat, fd: nat)
    requires Inv(st) && p < |st.tables| && st.tables[p].Some? && fd < PROC_FD_MAX && st.tables[p].value[fd].Some?
    ensures st.tables[p].value[fd].value < |st.files| && Inv(Get(st, st.tables[p].value[fd].value))
  {
    var f := st.tables[p].value[fd].value;
    LiveIfNamed(st, p, fd);
    hide Naming, FilesOn;
    var t := Get(st, f);
    forall g | 0 <= g < |st.files| ensures t.files[g].refs == |Naming(t, g)| + t.holds[g] && (t.files[g].live <==> t.files[g].refs > 0) {
      SameNaming(st, t, g);
    }
    forall v | 0 <= v < |st.vnRefs| ensures t.vnRefs[v] == |FilesOn(t, v)| + t.vnHolds[v] { SameFilesOn(st, t, v); }
  }

  // ---- processes ------------------------------------------------------------------------------------------

  /** A process joins without a table, or an empty table is made for one that has none. */
  function Spawned(st: St): St { st.(tables := st.tables + [None]) }

  function WithTable(st: St, p: nat): St
    requires p < |st.tables|
  {
    st.(tables := st.tables[p := Some(NoFiles())])
  }

  lemma SpawnKeeps(st: St)
    requires Inv(st)
    ensures Inv(Spawned(st)) && |Spawned(st).tables| == |st.tables| + 1 && Spawned(st).tables[|st.tables|] == None
  {
    var t := Spawned(st);
    forall f | 0 <= f < |st.files| ensures t.files[f].refs == |Naming(t, f)| + t.holds[f] { assert Naming(t, f) == Naming(st, f); }
    forall v | 0 <= v < |st.vnRefs| ensures t.vnRefs[v] == |FilesOn(t, v)| + t.vnHolds[v] { SameFilesOn(st, t, v); }
  }

  lemma TableKeeps(st: St, p: nat)
    requires Inv(st) && p < |st.tables| && (st.tables[p].None? || st.tables[p].value == NoFiles())
    ensures Inv(WithTable(st, p)) && Inv(st.(tables := st.tables[p := None]))
  {
    var t, u := WithTable(st, p), st.(tables := st.tables[p := None]);
    forall f | 0 <= f < |st.files| ensures t.files[f].refs == |Naming(t, f)| + t.holds[f] && u.files[f].refs == |Naming(u, f)| + u.holds[f] {
      assert Naming(t, f) == Naming(st, f);
      assert Naming(u, f) == Naming(st, f);
    }
    forall v | 0 <= v < |st.vnRefs| ensures t.vnRefs[v] == |FilesOn(t, v)| + t.vnHolds[v] && u.vnRefs[v] == |FilesOn(u, v)| + u.vnHolds[v] {
      SameFilesOn(st, t, v);
      SameFilesOn(st, u, v);
    }
  }

  /** vfs_proc_fds_inherit after the first k slots: the child's copies share the parent's files. */
  function Inherited(st: St, c: nat, p: nat, k: nat): (r: St)
    requires c < |st.tables| && p < |st.tables| && c != p && st.tables[p].Some? && k <= PROC_FD_MAX
    ensures |r.tables| == |st.tables| && r.tables[c].Some? && r.tables[p] == st.tables[p] && |r.files| == |st.files|
    decreases k
  {
    if k == 0 then WithTable(st, c)
    else
      var t, x := Inherited(st, c, p, k - 1), st.tables[p].value[k - 1];
      if x.None? || x.value >= |st.files| then t else Ref(SetSlot(t, c, k - 1, x), x.value)
  }

  /** vfs_proc_fds_release after the first k slots. */
  function Released(st: St, p: nat, k: nat): (r: St)
    requires p < |st.tables| && st.tables[p].Some? && k <= PROC_FD_MAX
    ensures |r.tables| == |st.tables| && r.tables[p].Some?
    decreases k
  {
    if k == 0 then st else Put(Released(st, p, k - 1), p, k - 1)
  }

  /** The first k slots of process p are closed, everything else in the tables is as it was. */
  ghost predicate ClosedUpTo(st: St, t: St, p: nat, k: nat) {
    && Inv(t) && p < |st.tables| && st.tables[p].Some? && |t.tables| == |st.tables| && t.tables[p].Some?
    && (forall i :: 0 <= i < PROC_FD_MAX ==> t.tables[p].value[i] == if i < k then None else st.tables[p].value[i])
    && (forall q :: 0 <= q < |st.tables| && q != p ==> t.tables[q] == st.tables[q])
  }

  lemma ClosedMore(st: St, t: St, p: nat, k: nat)
    requires ClosedUpTo(st, t, p, k) && k < PROC_FD_MAX
    ensures ClosedUpTo(st, Put(t, p, k), p, k + 1)
  {
    PutKeeps(t, p, k);
    hide Inv, Put;
  }

  lemma {:induction false} ReleaseCloses(st: St, p: nat, k: nat)
    requires Inv(st) && p < |st.tables| && st.tables[p].Some? && k <= PROC_FD_MAX
    ensures ClosedUpTo(st, Released(st, p, k), p, k)
    decreases k
  {
    hide Inv, Put;
    if k > 0 {
      ReleaseCloses(st, p, k - 1);
      hide ClosedUpTo;
      ClosedMore(st, Released(st, p, k - 1), p, k - 1);
    }
  }

  /** After vfs_proc_fds_release the process has no table and every count is right without it. */
  lemma ReleaseKeeps(st: St, p: nat)
    requires Inv(st) && p < |st.tables| && st.tables[p].Some?
    ensures var t := Released(st, p, PROC_FD_MAX);
      Inv(t.(tables := t.tables[p := None])) && forall q :: 0 <= q < |st.tables| && q != p ==> t.tables[q] == st.tables[q]
  {
    ReleaseCloses(st, p, PROC_FD_MAX);
    var t := Released(st, p, PROC_FD_MAX);
    assert t.tables[p].value == NoFiles();
    TableKeeps(t, p);
  }

  /** The child has the parent's first k slots; every file has one more reference for each. */
  ghost predicate SharedUpTo(st: St, t: St, c: nat, p: nat, k: nat) {
    && Inv(t) && c < |st.tables| && p < |st.tables| && c != p && st.tables[p].Some? && |t.tables| == |st.tables| && t.tables[c].Some?
    && |t.files| == |st.files| && t.holds == st.holds && t.vnRefs == st.vnRefs && t.vnHolds == st.vnHolds
    && (forall q :: 0 <= q < |st.tables| && q != c ==> t.tables[q] == st.tables[q])
    && (forall i :: 0 <= i < PROC_FD_MAX ==> t.tables[c].value[i] == if i < k then st.tables[p].value[i] else None)
  }

  lemma RefSlotKeeps(t: St, c: nat, k: nat, p: nat)
    requires Inv(t) && c < |t.tables| && p < |t.tables| && t.tables[c].Some? && t.tables[p].Some? && k < PROC_FD_MAX
    requires t.tables[p].value[k].Some? && t.tables[c].value[k].None? && c != p
    ensures t.tables[p].value[k].value < |t.files|
    ensures Inv(Ref(SetSlot(t, c, k, t.tables[p].value[k]), t.tables[p].value[k].value))
  {
    var x := t.tables[p].value[k];
    LiveIfNamed(t, p, k);
    hide Naming, FilesOn;
    var u := Ref(SetSlot(t, c, k, x), x.value);
    forall g | 0 <= g < |t.files| ensures u.files[g].refs == |Naming(u, g)| + u.holds[g] && (u.files[g].live <==> u.files[g].refs > 0) {
      OneSlotCount(t, u, c, k, g);
    }
    forall v | 0 <= v < |t.vnRefs| ensures u.vnRefs[v] == |FilesOn(u, v)| + u.vnHolds[v] { SameFilesOn(t, u, v); }
  }

  lemma ShareSlot(st: St, t: St, c: nat, p: nat, k: nat)
    requires SharedUpTo(st, t, c, p, k) && k < PROC_FD_MAX
    ensures var x := st.tables[p].value[k];
      SharedUpTo(st, if x.None? || x.value >= |st.files| then t else Ref(SetSlot(t, c, k, x), x.value), c, p, k + 1)
  {
    assert t.tables[p] == st.tables[p];
    if st.tables[p].value[k].Some? { RefSlotKeeps(t, c, k, p); }
    hide Inv;
  }

  lemma InheritStarts(st: St, c: nat, p: nat)
    requires Inv(st) && c < |st.tables| && p < |st.tables| && c != p && st.tables[p].Some? && st.tables[c].None?
    ensures SharedUpTo(st, WithTable(st, c), c, p, 0)
  {
    TableKeeps(st, c);
    hide Inv;
  }

  lemma {:induction false} InheritShares(st: St, c: nat, p: nat, k: nat)
    requires Inv(st) && c < |st.tables| && p < |st.tables| && c != p && st.tables[p].Some? && st.tables[c].None? && k <= PROC_FD_MAX
    ensures SharedUpTo(st, Inherited(st, c, p, k), c, p, k)
    decreases k
  {
    hide Inv, SharedUpTo;
    if k == 0 {
      InheritStarts(st, c, p);
    } else {
      InheritShares(st, c, p, k - 1);
      ShareSlot(st, Inherited(st, c, p, k - 1), c, p, k - 1);
    }
  }

  /** After a fork the child's table equals its parent's. */
  lemma InheritEquals(st: St, c: nat, p: nat)
    requires Inv(st) && c < |st.tables| && p < |st.tables| && c != p && st.tables[p].Some? && st.tables[c].None?
    ensures Inv(Inherited(st, c, p, PROC_FD_MAX)) && Inherited(st, c, p, PROC_FD_MAX).tables == st.tables[c := st.tables[p]]
  {
    InheritShares(st, c, p, PROC_FD_MAX);
    var t := Inherited(st, c, p, PROC_FD_MAX);
    assert t.tables[c].value == st.tables[p].value;
  }

  // ---- runs -------------------------------------------------------------------------------------------------

  datatype Event =
    | NewVnodeEv
    | VnRefEv(v: nat)
    | VnUnrefEv(v: nat)
    | AllocEv(v: nat)
    | CloseEv(f: nat)
    | InstallEv(p: nat, fd: nat, f: nat)
    | GetEv(p: nat, fd: nat)
    | PutEv(p: nat, fd: nat)
    | SpawnEv
    | TableEv(p: nat)
    | InheritEv(child: nat, parent: nat)
    | ReleaseEv(p: nat)

  predicate HasTable(st: St, p: nat) { p < |st.tables| && st.tables[p].Some? }

  /** Callers close only references they hold, and use vnodes they hold. */
  ghost predicate Enabled(st: St, e: Event) {
    Known(st) &&
    match e
    case NewVnodeEv => true
    case VnRefEv(v) => v < |st.vnRefs| && st.vnRefs[v] > 0
    case VnUnrefEv(v) => v in st.vnHolds
    case AllocEv(v) => v in st.vnHolds
    case CloseEv(f) => f in st.holds
    case InstallEv(p, fd, f) => HasTable(st, p) && fd < PROC_FD_MAX && st.tables[p].value[fd].None? && f in st.holds
    case GetEv(p, fd) => HasTable(st, p) && fd < PROC_FD_MAX && st.tables[p].value[fd].Some?
    case PutEv(p, fd) => HasTable(st, p) && fd < PROC_FD_MAX
    case SpawnEv => true
    case TableEv(p) => p < |st.tables| && st.tables[p].None?
    case InheritEv(c, p) => HasTable(st, p) && c < |st.tables| && c != p && st.tables[c].None?
    case ReleaseEv(p) => HasTable(st, p)
  }

  ghost function Next(st: St, e: Event): St
    requires Enabled(st, e)
  {
    match e
    case NewVnodeEv => NewVnode(st)
    case VnRefEv(v) => VnRef(st, v)
    case VnUnrefEv(v) => VnUnref(st, v)
    case AllocEv(v) => Alloc(st, v)
    case CloseEv(f) => Close(st, f)
    case InstallEv(p, fd, f) => Install(st, p, fd, f)
    case GetEv(p, fd) => Get(st, st.tables[p].value[fd].value)
    case PutEv(p, fd) => Put(st, p, fd)
    case SpawnEv => Spawned(st)
    case TableEv(p) => WithTable(st, p)
    case InheritEv(c, p) => Inherited(st, c, p, PROC_FD_MAX)
    case ReleaseEv(p) => var t := Released(st, p, PROC_FD_MAX); t.(tables := t.tables[p := None])
  }

  lemma StepKeeps(st: St, e: Event)
    requires Inv(st) && Enabled(st, e)
    ensures Inv(Next(st, e))
  {
    hide Inv, NewVnode, VnRef, VnUnref, Alloc, Close, Install, Get, Put, Spawned, WithTable, Inherited, Released;
    match e
    case NewVnodeEv => NewVnodeKeeps(st);
    case VnRefEv(v) => VnRefKeeps(st, v);
    case VnUnrefEv(v) => VnUnrefKeeps(st, v);
    case AllocEv(v) => AllocKeeps(st, v);
    case CloseEv(f) => CloseKeeps(st, f);
    case InstallEv(p, fd, f) => InstallKeeps(st, p, fd, f);
    case GetEv(p, fd) => GetKeeps(st, p, fd);
    case PutEv(p, fd) => PutKeeps(st, p, fd);
    case SpawnEv => SpawnKeeps(st);
    case TableEv(p) => TableKeeps(st, p);
    case InheritEv(c, p) => InheritEquals(st, c, p);
    case ReleaseEv(p) => ReleaseKeeps(st, p);
  }

  ghost predicate Run(trace: seq<St>, events: seq<Event>) {
    && |trace| == |events| + 1 && trace[0] == INIT
    && forall i :: 0 <= i < |events| ==> Enabled(trace[i], events[i]) && trace[i + 1] == Next(trace[i], events[i])
  }

  lemma InitInv()
    ensures Inv(INIT)
  {
  }

  lemma {:induction false} RunKeeps(trace: seq<St>, events: seq<Event>, i: nat)
    requires Run(trace, events) && i < |trace|
    ensures Inv(trace[i])
    decreases i
  {
    hide Inv, Next, Enabled;
    if i == 0 {
      InitInv();
    } else {
      RunKeeps(trace, events, i - 1);
      StepKeeps(trace[i - 1], events[i - 1]);
    }
  }

  /** In every run a file's count is the number of slots naming it in all tables plus the holds
      outstanding, it is live exactly while that is positive, no slot or hold names a freed file,
      a vnode's count is its live files plus the holds on it, and it has been destroyed once or
      never, once exactly when that count has reached zero. */
  lemma Conserved(trace: seq<St>, events: seq<Event>, i: nat)
    requires Run(trace, events) && i < |trace|
    ensures var st := trace[i];
      && (forall f :: 0 <= f < |st.files| ==>
            st.files[f].refs == |Naming(st, f)| + st.holds[f] && (st.files[f].live <==> Naming(st, f) != {} || f in st.holds))
      && (forall v :: 0 <= v < |st.vnRefs| ==> st.vnRefs[v] == |FilesOn(st, v)| + st.vnHolds[v])
      && (forall v :: 0 <= v < |st.vnRefs| ==> st.gone[v] == if FilesOn(st, v) == {} && v !in st.vnHolds then 1 else 0)
  {
    RunKeeps(trace, events, i);
    var st := trace[i];
    forall f | 0 <= f < |st.files| ensures st.files[f].live <==> Naming(st, f) != {} || f in st.holds {
      assert Naming(st, f) != {} <==> |Naming(st, f)| > 0;
    }
    forall v | 0 <= v < |st.vnRefs| ensures st.vnRefs[v] == 0 <==> FilesOn(st, v) == {} && v !in st.vnHolds {
      assert FilesOn(st, v) != {} <==> |FilesOn(st, v)| > 0;
    }
  }

  lemma DropDead(st: St, g: nat, f: nat)
    requires f < |st.files| && st.files[f] == File(st.files[f].vn, 0, false)
    ensures Drop(st, g).files[f] == st.files[f]
  {
  }

  lemma {:induction false} ReleasedDead(st: St, p: nat, k: nat, f: nat)
    requires p < |st.tables| && st.tables[p].Some? && k <= PROC_FD_MAX
    requires f < |st.files| && st.files[f] == File(st.files[f].vn, 0, false)
    ensures |Released(st, p, k).files| == |st.files| && Released(st, p, k).files[f] == st.files[f]
    decreases k
  {
    if k > 0 {
      ReleasedDead(st, p, k - 1, f);
      var t := Released(st, p, k - 1);
      var x := t.tables[p].value[k - 1];
      if x.Some? { DropDead(SetSlot(t, p, k - 1, None), x.value, f); }
    }
  }

  lemma {:induction false} InheritedDead(st: St, c: nat, p: nat, k: nat, f: nat)
    requires Inv(st) && c < |st.tables| && p < |st.tables| && c != p && st.tables[p].Some? && k <= PROC_FD_MAX
    requires f < |st.files| && !st.files[f].live
    ensures Inherited(st, c, p, k).files[f] == st.files[f]
    decreases k
  {
    if k > 0 {
      InheritedDead(st, c, p, k - 1, f);
      if st.tables[p].value[k - 1].Some? { LiveIfNamed(st, p, k - 1); }
      hide Inv;
    }
  }

  /** A freed file stays freed, so each file is freed at most once. */
  lemma FreedOnce(st: St, e: Event, f: nat)
    requires Inv(st) && Enabled(st, e) && f < |st.files| && !st.files[f].live
    ensures f < |Next(st, e).files| && Next(st, e).files[f] == st.files[f]
  {
    assert st.files[f] == File(st.files[f].vn, 0, false);
    match e
    case CloseEv(g) => DropDead(st.(holds := st.holds - multiset{g}), g, f);
    case GetEv(p, fd) => LiveIfNamed(st, p, fd);
    case PutEv(p, fd) =>
      var x := st.tables[p].value[fd];
      if x.Some? { DropDead(SetSlot(st, p, fd, None), x.value, f); }
    case InheritEv(c, p) => InheritedDead(st, c, p, PROC_FD_MAX, f);
    case ReleaseEv(p) => ReleasedDead(st, p, PROC_FD_MAX, f);
    case _ =>
  }

  // ---- the code -----------------------------------------------------------------------------------------------

  class Vfs {
    var files: seq<File>
    var tables: seq<Option<Table>>
    var vnRefs: seq<nat>
    ghost var holds: multiset<nat>
    ghost var vnHolds: multiset<nat>
    ghost var gone: multiset<nat>

    ghost function Now(): St
      reads this
    {
      St(files, tables, holds, vnRefs, vnHolds, gone)
    }

    constructor ()
      ensures Now() == INIT
    {
      files, tables, vnRefs, holds, vnHolds, gone := [], [], [], multiset{}, multiset{}, multiset{};
    }

    /** vn_unref without the hold it consumes; the last reference destroys the vnode */
    method UnrefVnode(v: nat)
      requires v < |vnRefs| && vnRefs[v] > 0
      modifies this`vnRefs, this`gone
      ensures Now() == VnDrop(old(Now()), v)
    {
      vnRefs := vnRefs[v := vnRefs[v] - 1];
      if vnRefs[v] == 0 { gone := gone[v := gone[v] + 1]; }
    }

    /** file_close without the hold it consumes */
    method DropRef(f: nat)
      requires OneOver(Now(), f)
      modifies this`files, this`vnRefs, this`gone
      ensures Now() == Drop(old(Now()), f) && Inv(Now())
    {
      hide Naming, FilesOn;
      DropKeeps(Now(), f);
      var o := files[f];
      assert o.refs > 0;
      var left := o.refs - 1;
      files := files[f := File(o.vn, left, o.live && left > 0)];
      if left == 0 { UnrefVnode(o.vn); }
    }

    /** file_close */
    method FileClose(f: nat)
      requires Inv(Now()) && f in holds
      modifies this`files, this`vnRefs, this`gone, this`holds
      ensures Inv(Now()) && Now() == Close(old(Now()), f)
    {
      CloseOver(Now(), f);
      holds := holds - multiset{f};
      DropRef(f);
    }

    /** file_alloc; None when the heap has no room, and the caller keeps the vnode reference */
    method FileAlloc(v: nat, room: bool) returns (f: Option<nat>)
      requires Inv(Now()) && v in vnHolds
      modifies this`files, this`holds, this`vnHolds
      ensures Inv(Now()) && |vnRefs| == |old(vnRefs)|
      ensures f.Some? <==> room
      ensures f.None? ==> Now() == old(Now())
      ensures f.Some? ==> v < |vnRefs| && f.value == |old(files)| && Now() == Alloc(old(Now()), v)
    {
      if !room { return None; }
      AllocKeeps(Now(), v);
      ghost var n := |files|;
      f := Some(|files|);
      files := files + [File(v, 1, true)];
      holds := holds[n := holds[n] + 1];
      vnHolds := vnHolds - multiset{v};
    }

    /** vfs_fd_install: the lowest free slot; a full table leaves the hold with the caller. */
    method FdInstall(p: nat, f: nat) returns (fd: int)
      requires Inv(Now()) && HasTable(Now(), p) && f in holds
      modifies this`tables, this`holds
      ensures Inv(Now())
      ensures fd == EMFILE <==> forall i :: 0 <= i < PROC_FD_MAX ==> old(tables)[p].value[i].Some?
      ensures fd == EMFILE ==> Now() == old(Now())
      ensures fd != EMFILE ==> 0 <= fd < PROC_FD_MAX && old(tables)[p].value[fd].None? && (forall i :: 0 <= i < fd ==> old(tables)[p].value[i].Some?)
      ensures fd != EMFILE ==> 0 <= fd < PROC_FD_MAX && Now() == Install(old(Now()), p, fd, f)
    {
      fd := 0;
      while fd < PROC_FD_MAX
        invariant 0 <= fd <= PROC_FD_MAX && Now() == old(Now())
        invariant forall i :: 0 <= i < fd ==> tables[p].value[i].Some?
      {
        if tables[p].value[fd].None? {
          InstallKeeps(Now(), p, fd, f);
          tables := tables[p := Some(tables[p].value[fd := Some(f)])];
          holds := holds - multiset{f};
          return;
        }
        fd := fd + 1;
      }
      fd := EMFILE;
    }

    /** vfs_fd_get; the caller owes a close for what it gets */
    method FdGet(p: nat, fd: int) returns (f: Option<nat>)
      requires Inv(Now()) && HasTable(Now(), p)
      modifies this`files, this`holds
      ensures Inv(Now())
      ensures f == if 0 <= fd < PROC_FD_MAX then tables[p].value[fd] else None
      ensures f.None? ==> Now() == old(Now())
      ensures f.Some? ==> f.value < |old(files)| && Now() == Get(old(Now()), f.value)
    {
      hide Inv;
      if fd < 0 || fd >= PROC_FD_MAX { return None; }
      f := tables[p].value[fd];
      if f.Some? {
        GetKeeps(Now(), p, fd);
        files := files[f.value := files[f.value].(refs := files[f.value].refs + 1)];
        holds := holds[f.value := holds[f.value] + 1];
      }
    }

    /** vfs_fd_put */
    method FdPut(p: nat, fd: int)
      requires Inv(Now()) && HasTable(Now(), p)
      modifies this`files, this`tables, this`vnRefs, this`gone
      ensures Inv(Now()) && HasTable(Now(), p)
      ensures if 0 <= fd < PROC_FD_MAX then Now() == Put(old(Now()), p, fd) else Now() == old(Now())
    {
      if fd < 0 || fd >= PROC_FD_MAX { return; }
      var f := tables[p].value[fd];
      PutOver(Now(), p, fd);
      tables := tables[p := Some(tables[p].value[fd := None])];
      if f.Some? {
        DropRef(f.value);
      } else {
        assert Now() == old(Now()) by { assert tables[p].value == old(tables)[p].value; assert tables == old(tables); }
      }
    }

    method ShareFile(c: nat, p: nat, fd: nat)
      requires HasTable(Now(), p) && HasTable(Now(), c) && fd < PROC_FD_MAX && c != p
      modifies this`files, this`tables
      ensures var x := old(tables)[p].value[fd];
        Now() == if x.None? || x.value >= |old(files)| then old(Now()) else Ref(SetSlot(old(Now()), c, fd, x), x.value)
    {
      var x := tables[p].value[fd];
      if x.Some? && x.value < |files| {
        tables := tables[c := Some(tables[c].value[fd := x])];
        files := files[x.value := files[x.value].(refs := files[x.value].refs + 1)];
      }
    }

    /** vfs_proc_fds_inherit; without memory the child stays without a table */
    method Inherit(c: nat, p: nat, room: bool)
      requires Inv(Now()) && HasTable(Now(), p) && c < |tables| && c != p && tables[c].None?
      modifies this`files, this`tables
      ensures Inv(Now())
      ensures Now() == if room then Inherited(old(Now()), c, p, PROC_FD_MAX) else old(Now())
      ensures room ==> tables == old(tables)[c := old(tables)[p]]
    {
      if !room { return; }
      ghost var st := Now();
      InheritEquals(st, c, p);
      hide Inv, Inherited, Ref, SetSlot;
      InheritedMore(st, c, p, 0);
      var ct: Table := NoFiles();
      tables := tables[c := Some(ct)];
      var fd := 0;
      while fd < PROC_FD_MAX
        invariant 0 <= fd <= PROC_FD_MAX && Now() == Inherited(st, c, p, fd)
      {
        InheritedMore(st, c, p, fd);
        ShareFile(c, p, fd);
        fd := fd + 1;
      }
    }

    /** vfs_proc_fds_release */
    method Release(p: nat)
      requires Inv(Now()) && HasTable(Now(), p)
      modifies this`files, this`tables, this`vnRefs, this`gone
      ensures Inv(Now()) && |tables| == |old(tables)| && tables[p].None?
      ensures var t := Released(old(Now()), p, PROC_FD_MAX); Now() == t.(tables := t.tables[p := None])
    {
      hide Inv, Put, Released, Naming, FilesOn, HasTable;
      ghost var st := Now();
      HasTableIs(st, p);
      ReleasedMore(st, p, 0);
      var fd: nat := 0;
      while fd < PROC_FD_MAX
        invariant fd <= PROC_FD_MAX && Inv(Now()) && HasTable(Now(), p) && Now() == Released(st, p, fd)
      {
        ReleasedMore(st, p, fd);
        FdPut(p, fd);
        fd := fd + 1;
      }
      ReleaseKeeps(st, p);
      tables := tables[p := None];
    }
  }

  lemma InheritedMore(st: St, c: nat, p: nat, k: nat)
    requires c < |st.tables| && p < |st.tables| && c != p && st.tables[p].Some? && k < PROC_FD_MAX
    ensures Inherited(st, c, p, 0) == WithTable(st, c)
    ensures var t, x := Inherited(st, c, p, k), st.tables[p].value[k];
      Inherited(st, c, p, k + 1) == if x.None? || x.value >= |st.files| then t else Ref(SetSlot(t, c, k, x), x.value)
  {
  }

  lemma HasTableIs(st: St, p: nat)
    requires HasTable(st, p)
    ensures p < |st.tables| && st.tables[p].Some?
  {
  }

  lemma ReleasedMore(st: St, p: nat, k: nat)
    requires p < |st.tables| && st.tables[p].Some? && k < PROC_FD_MAX
    ensures Released(st, p, 0) == st && Released(st, p, k + 1) == Put(Released(st, p, k), p, k)
  {
    hide Put;
  }

  lemma CloseOver(st: St, f: nat)
    requires Inv(st) && f in st.holds
    ensures OneOver(st.(holds := st.holds - multiset{f}), f)
  {
    var u := st.(holds := st.holds - multiset{f});
    hide Naming, FilesOn;
    forall g | 0 <= g < |st.files| ensures u.files[g].refs == |Naming(u, g)| + u.holds[g] + Bit(g == f) { SameNaming(st, u, g); }
    forall v | 0 <= v < |st.vnRefs| ensures u.vnRefs[v] == |FilesOn(u, v)| + u.vnHolds[v] { SameFilesOn(st, u, v); }
  }

  lemma PutOver(st: St, p: nat, fd: nat)
    requires Inv(st) && p < |st.tables| && st.tables[p].Some? && fd < PROC_FD_MAX
    ensures st.tables[p].value[fd].Some? ==> OneOver(SetSlot(st, p, fd, None), st.tables[p].value[fd].value)
  {
    var x := st.tables[p].value[fd];
    if x.Some? {
      var u := SetSlot(st, p, fd, None);
      hide Naming, FilesOn;
      forall g | 0 <= g < |st.files| ensures u.files[g].refs == |Naming(u, g)| + u.holds[g] + Bit(g == x.value) { OneSlotCount(st, u, p, fd, g); }
      forall v | 0 <= v < |st.vnRefs| ensures u.vnRefs[v] == |FilesOn(u, v)| + u.vnHolds[v] { SameFilesOn(st, u, v); }
    }
  }
}
