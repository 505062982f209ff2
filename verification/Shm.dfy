/** Shared memory of kernel/ipc.c: reference-counted frames mapped into the SHM window of many
    processes.  States are values here; ShmCalls holds the code.  Windows are maps from page
    numbers to frames. */
module Shm {
  import opened Limits
  import opened Seqs
  import opened Wrappers

  const PAGE: nat := 4096
  const SHM_PAGE_MAX: nat := 512
  const SHM_OBJS_MAX: nat := 12
  const PROC_SHM_MAX: nat := 8
  const USER_SHM_BASE: nat := 0x0300_0000_0000
  const USER_VA_LIMIT: nat := 0x0400_0000_0000

  /** va 0 is a free slot. */
  datatype Slot = Slot(va: nat, npages: nat, id: nat)

  const FREE_SLOT: Slot := Slot(0, 0, 0)

  datatype Obj = Obj(used: bool, pages: seq<nat>, attaches: nat)

  const FREE_OBJ: Obj := Obj(false, [], 0)

  datatype Proc = Proc(slots: seq<Slot>, window: map<nat, nat>)

  /** `frames` are the physical frames the objects hold. */
  datatype St = St(objs: seq<Obj>, procs: seq<Proc>, nextOff: nat, frames: set<nat>)

  function NoSlots(): Proc { Proc(seq(PROC_SHM_MAX, _ => FREE_SLOT), map[]) }

  function Init(): St { St(seq(SHM_OBJS_MAX, _ => FREE_OBJ), [], 0, {}) }

  // ---- windows ------------------------------------------------------------------------------

  ghost function Range(base: nat, n: nat): (r: set<nat>)
    ensures forall v: nat :: v in r <==> base <= v < base + n
  {
    if n == 0 then {} else Range(base, n - 1) + {base + n - 1}
  }

  /** The window with n pages mapped from page `base` on. */
  ghost function Extended(win: map<nat, nat>, base: nat, pages: seq<nat>, n: nat): (r: map<nat, nat>)
    requires n <= |pages|
    ensures forall v: nat :: v in r <==> v in win || base <= v < base + n
    ensures forall v: nat :: v in r ==> r[v] == if base <= v < base + n then pages[v - base] else win[v]
  {
    map v: nat | v in win.Keys + Range(base, n) :: if base <= v < base + n then pages[v - base] else win[v]
  }

  predicate Unmapped(win: map<nat, nat>, base: nat, n: nat) {
    forall v: nat :: base <= v < base + n ==> v !in win
  }

  // ---- the effects of the calls ----------------------------------------------------------------

  predicate SlotNames(s: Slot, id: nat) { s.va != 0 && s.id == id }

  function FirstPage(s: Slot): nat { s.va / PAGE }

  predicate Covers(s: Slot, v: nat) { s.va != 0 && FirstPage(s) <= v < FirstPage(s) + s.npages }

  ghost predicate Sized(st: St) {
    && |st.objs| == SHM_OBJS_MAX && forall p :: 0 <= p < |st.procs| ==> |st.procs[p].slots| == PROC_SHM_MAX
  }

  /** Object id mapped at va through one more slot. */
  ghost function Attached(st: St, p: nat, slot: nat, id: nat, va: nat): (r: St)
    requires Sized(st) && p < |st.procs| && slot < PROC_SHM_MAX && id < SHM_OBJS_MAX
    ensures Sized(r)
  {
    var o, pr := st.objs[id], st.procs[p];
    st.(objs := st.objs[id := o.(attaches := o.attaches + 1)],
        procs := st.procs[p := Proc(pr.slots[slot := Slot(va, |o.pages|, id)], Extended(pr.window, va / PAGE, o.pages, |o.pages|))])
  }

  ghost function FramesOf(pages: seq<nat>): set<nat> { set f | f in pages }

  /** shm_do_detach: unmap, free the slot, drop a reference, free the object with the last one. */
  ghost function Detached(st: St, p: nat, slot: nat): (r: St)
    requires Sized(st) && p < |st.procs| && slot < PROC_SHM_MAX && st.procs[p].slots[slot].id < SHM_OBJS_MAX
    ensures Sized(r)
  {
    var pr := st.procs[p];
    var s := pr.slots[slot];
    if s.va == 0 then st
    else
      var o := st.objs[s.id];
      var left := if o.attaches > 0 then o.attaches - 1 else 0;
      var pr' := Proc(pr.slots[slot := FREE_SLOT], pr.window - Range(FirstPage(s), |o.pages|));
      if left > 0 then st.(objs := st.objs[s.id := o.(attaches := left)], procs := st.procs[p := pr'])
      else st.(objs := st.objs[s.id := FREE_OBJ], procs := st.procs[p := pr'], frames := st.frames - FramesOf(o.pages))
  }

  // ---- the invariant --------------------------------------------------------------------------------

  ghost function Naming(st: St, id: nat): set<(nat, nat)>
    requires Sized(st)
  {
    set p: nat, i: nat | p < |st.procs| && i < PROC_SHM_MAX && SlotNames(st.procs[p].slots[i], id) :: (p, i)
  }

  /** Every object's frames are its own, and together they are the frames held. */
  ghost predicate FramesOk(objs: seq<Obj>, frames: set<nat>) {
    && (forall id :: 0 <= id < |objs| ==> if objs[id].used then 1 <= |objs[id].pages| <= SHM_PAGE_MAX else objs[id] == FREE_OBJ)
    && (forall id :: 0 <= id < |objs| ==> Distinct(objs[id].pages) && FramesOf(objs[id].pages) <= frames)
    && (forall a, b :: 0 <= a < b < |objs| ==> FramesOf(objs[a].pages) !! FramesOf(objs[b].pages))
    && (forall f :: f in frames ==> exists id :: 0 <= id < |objs| && f in objs[id].pages)
  }

  predicate SlotOk(objs: seq<Obj>, s: Slot) {
    if s.va == 0 then s == FREE_SLOT
    else
      && s.id < |objs| && objs[s.id].used && s.npages == |objs[s.id].pages| && s.va % PAGE == 0
      && USER_SHM_BASE <= s.va && s.va + s.npages * PAGE <= USER_VA_LIMIT
  }

  /** No page belongs to two slots. */
  ghost predicate Apart(slots: seq<Slot>)
    requires |slots| == PROC_SHM_MAX
  {
    forall i, j, v: nat :: 0 <= i < j < PROC_SHM_MAX && Covers(slots[i], v) ==> !Covers(slots[j], v)
  }

  ghost predicate Covered(slots: seq<Slot>, v: nat) {
    exists i :: 0 <= i < |slots| && Covers(slots[i], v)
  }

  predicate MapsTo(objs: seq<Obj>, win: map<nat, nat>, s: Slot, v: nat) {
    v in win && FirstPage(s) <= v && s.id < |objs| && v - FirstPage(s) < |objs[s.id].pages| && win[v] == objs[s.id].pages[v - FirstPage(s)]
  }

  /** The window maps exactly the union of the slots' frames. */
  ghost predicate Exact(objs: seq<Obj>, slots: seq<Slot>, win: map<nat, nat>) {
    && (forall v: nat :: v in win ==> Covered(slots, v))
    && (forall i, v: nat :: 0 <= i < |slots| && Covers(slots[i], v) ==> MapsTo(objs, win, slots[i], v))
  }

  ghost predicate WindowOk(objs: seq<Obj>, pr: Proc) {
    && |pr.slots| == PROC_SHM_MAX
    && (forall i :: 0 <= i < PROC_SHM_MAX ==> SlotOk(objs, pr.slots[i]))
    && Apart(pr.slots) && Exact(objs, pr.slots, pr.window)
  }

  ghost predicate Inv(st: St) {
    && Sized(st) && FramesOk(st.objs, st.frames)
    && (forall p :: 0 <= p < |st.procs| ==> WindowOk(st.objs, st.procs[p]))
    && (forall id :: 0 <= id < SHM_OBJS_MAX ==> st.objs[id].attaches == |Naming(st, id)|)
  }

  lemma InitInv()
    ensures Inv(Init())
  {
    var st := Init();
    forall id | 0 <= id < SHM_OBJS_MAX ensures |Naming(st, id)| == 0 {
      assert Naming(st, id) == {};
    }
  }

  // ---- attaching keeps it --------------------------------------------------------------------------------

  /** What shm_attach and ipc_proc_fork check before they record a slot. */
  ghost predicate MayAttach(st: St, p: nat, slot: nat, id: nat, va: nat) {
    && Sized(st) && p < |st.procs| && slot < PROC_SHM_MAX && id < SHM_OBJS_MAX && st.objs[id].used
    && st.procs[p].slots[slot].va == 0 && va % PAGE == 0 && USER_SHM_BASE <= va
    && va + |st.objs[id].pages| * PAGE <= USER_VA_LIMIT && Unmapped(st.procs[p].window, va / PAGE, |st.objs[id].pages|)
  }

  lemma AttachApart(objs: seq<Obj>, pr: Proc, slot: nat, s: Slot)
    requires WindowOk(objs, pr) && slot < PROC_SHM_MAX
    requires Unmapped(pr.window, FirstPage(s), s.npages)
    ensures Apart(pr.slots[slot := s])
  {
    forall i, v: nat | 0 <= i < PROC_SHM_MAX && Covers(pr.slots[i], v) ensures !Covers(s, v) {
      assert MapsTo(objs, pr.window, pr.slots[i], v);
    }
  }

  lemma AttachExact(objs: seq<Obj>, pr: Proc, slot: nat, s: Slot)
    requires WindowOk(objs, pr) && slot < PROC_SHM_MAX && pr.slots[slot].va == 0 && s.va != 0
    requires s.id < |objs| && s.npages == |objs[s.id].pages|
    requires Unmapped(pr.window, FirstPage(s), s.npages)
    ensures Exact(objs, pr.slots[slot := s], Extended(pr.window, FirstPage(s), objs[s.id].pages, s.npages))
  {
    var slots := pr.slots[slot := s];
    var win := Extended(pr.window, FirstPage(s), objs[s.id].pages, s.npages);
    assert Covers(slots[slot], FirstPage(s)) || s.npages == 0;
    forall v: nat | v in win ensures Covered(slots, v) {
      if v in pr.window {
        var i :| 0 <= i < |pr.slots| && Covers(pr.slots[i], v);
        assert Covers(slots[i], v);
      } else {
        assert Covers(slots[slot], v);
      }
    }
    forall i, v: nat | 0 <= i < |slots| && Covers(slots[i], v) ensures MapsTo(objs, win, slots[i], v) {
      if i != slot { assert MapsTo(objs, pr.window, pr.slots[i], v); }
    }
  }

  lemma AttachWindow(objs: seq<Obj>, pr: Proc, slot: nat, id: nat, va: nat)
    requires WindowOk(objs, pr) && slot < PROC_SHM_MAX && id < |objs| && objs[id].used && pr.slots[slot].va == 0
    requires va % PAGE == 0 && USER_SHM_BASE <= va && va + |objs[id].pages| * PAGE <= USER_VA_LIMIT
    requires Unmapped(pr.window, va / PAGE, |objs[id].pages|)
    ensures WindowOk(objs, Proc(pr.slots[slot := Slot(va, |objs[id].pages|, id)],
                                Extended(pr.window, va / PAGE, objs[id].pages, |objs[id].pages|)))
  {
    var s := Slot(va, |objs[id].pages|, id);
    AttachApart(objs, pr, slot, s);
    AttachExact(objs, pr, slot, s);
    hide Apart, Exact;
  }

  /** Only the reference counts differ. */
  ghost predicate SamePages(objs: seq<Obj>, objs': seq<Obj>) {
    |objs'| == |objs| && forall id :: 0 <= id < |objs| ==> objs'[id].used == objs[id].used && objs'[id].pages == objs[id].pages
  }

  lemma SameWindow(objs: seq<Obj>, objs': seq<Obj>, pr: Proc)
    requires SamePages(objs, objs') && WindowOk(objs, pr)
    ensures WindowOk(objs', pr)
  {
  }

  /** Every slot but one is as it was. */
  ghost predicate OneSlotDiffers(st: St, t: St, p: nat, slot: nat)
    requires Sized(st) && Sized(t)
  {
    && |t.procs| == |st.procs| && p < |st.procs| && slot < PROC_SHM_MAX
    && forall q, i :: 0 <= q < |st.procs| && 0 <= i < PROC_SHM_MAX && (q != p || i != slot) ==> t.procs[q].slots[i] == st.procs[q].slots[i]
  }

  lemma OneSlotCount(st: St, t: St, p: nat, slot: nat, k: nat)
    requires Sized(st) && Sized(t) && OneSlotDiffers(st, t, p, slot)
    ensures |Naming(t, k)| == |Naming(st, k)| + Bit(SlotNames(t.procs[p].slots[slot], k)) - Bit(SlotNames(st.procs[p].slots[slot], k))
  {
    var a, b := Naming(st, k) - {(p, slot)}, Naming(t, k) - {(p, slot)};
    assert a == b;
    assert Naming(st, k) == if SlotNames(st.procs[p].slots[slot], k) then a + {(p, slot)} else a;
    assert Naming(t, k) == if SlotNames(t.procs[p].slots[slot], k) then b + {(p, slot)} else b;
  }

  lemma AttachCount(st: St, p: nat, slot: nat, id: nat, va: nat, k: nat)
    requires Sized(st) && p < |st.procs| && slot < PROC_SHM_MAX && id < SHM_OBJS_MAX && st.procs[p].slots[slot].va == 0 && va > 0
    ensures |Naming(Attached(st, p, slot, id, va), k)| == |Naming(st, k)| + Bit(k == id)
  {
    hide Naming, Extended;
    OneSlotCount(st, Attached(st, p, slot, id, va), p, slot, k);
  }

  lemma SameFrames(objs: seq<Obj>, objs': seq<Obj>, frames: set<nat>)
    requires SamePages(objs, objs') && FramesOk(objs, frames)
    requires forall id :: 0 <= id < |objs| && !objs[id].used ==> objs'[id] == objs[id]
    ensures FramesOk(objs', frames)
  {
    forall f | f in frames ensures exists id :: 0 <= id < |objs'| && f in objs'[id].pages {
      var id :| 0 <= id < |objs| && f in objs[id].pages;
      assert f in objs'[id].pages;
    }
  }

  lemma KeepsAttach(st: St, p: nat, slot: nat, id: nat, va: nat)
    requires Inv(st) && MayAttach(st, p, slot, id, va)
    ensures Inv(Attached(st, p, slot, id, va))
  {
    hide WindowOk, Naming, FramesOk, Extended;
    var t := Attached(st, p, slot, id, va);
    assert SamePages(st.objs, t.objs);
    forall q | 0 <= q < |t.procs| ensures WindowOk(t.objs, t.procs[q]) {
      if q == p { AttachWindow(st.objs, st.procs[p], slot, id, va); }
      SameWindow(st.objs, t.objs, t.procs[q]);
    }
    forall k | 0 <= k < SHM_OBJS_MAX ensures t.objs[k].attaches == |Naming(t, k)| {
      AttachCount(st, p, slot, id, va, k);
    }
    SameFrames(st.objs, t.objs, st.frames);
  }

  // ---- detaching keeps it -------------------------------------------------------------------------------

  lemma DetachWindow(objs: seq<Obj>, pr: Proc, slot: nat)
    requires WindowOk(objs, pr) && slot < PROC_SHM_MAX && pr.slots[slot].va != 0
    ensures pr.slots[slot].id < |objs| && pr.slots[slot].npages == |objs[pr.slots[slot].id].pages|
    ensures var s := pr.slots[slot];
      WindowOk(objs, Proc(pr.slots[slot := FREE_SLOT], pr.window - Range(FirstPage(s), s.npages)))
  {
    var s := pr.slots[slot];
    assert SlotOk(objs, s);
    var slots, win := pr.slots[slot := FREE_SLOT], pr.window - Range(FirstPage(s), s.npages);
    assert Apart(slots);
    forall v: nat | v in win ensures Covered(slots, v) {
      assert Covered(pr.slots, v);
      var i :| 0 <= i < |pr.slots| && Covers(pr.slots[i], v);
      assert i != slot;
      assert Covers(slots[i], v);
    }
    forall i, v: nat | 0 <= i < |slots| && Covers(slots[i], v) ensures MapsTo(objs, win, slots[i], v) {
      assert i != slot && Covers(pr.slots[i], v) && !Covers(s, v);
    }
  }

  /** A process without a slot on an object does not see it change. */
  lemma UnnamedWindow(objs: seq<Obj>, pr: Proc, id: nat, o: Obj)
    requires WindowOk(objs, pr) && id < |objs| && forall i :: 0 <= i < PROC_SHM_MAX ==> !SlotNames(pr.slots[i], id)
    ensures WindowOk(objs[id := o], pr)
  {
    var objs' := objs[id := o];
    forall i, v: nat | 0 <= i < |pr.slots| && Covers(pr.slots[i], v) ensures MapsTo(objs', pr.window, pr.slots[i], v) {
      assert MapsTo(objs, pr.window, pr.slots[i], v);
    }
    forall i | 0 <= i < PROC_SHM_MAX ensures SlotOk(objs', pr.slots[i]) {
      assert SlotOk(objs, pr.slots[i]);
    }
  }

  lemma FreeFrames(objs: seq<Obj>, frames: set<nat>, id: nat)
    requires FramesOk(objs, frames) && id < |objs|
    ensures FramesOk(objs[id := FREE_OBJ], frames - FramesOf(objs[id].pages))
  {
    var objs', frames' := objs[id := FREE_OBJ], frames - FramesOf(objs[id].pages);
    forall k | 0 <= k < |objs'| ensures FramesOf(objs'[k].pages) <= frames' && Distinct(objs'[k].pages) {
      if k < id { assert FramesOf(objs[k].pages) !! FramesOf(objs[id].pages); }
      if k > id { assert FramesOf(objs[id].pages) !! FramesOf(objs[k].pages); }
    }
    forall f | f in frames' ensures exists k :: 0 <= k < |objs'| && f in objs'[k].pages {
      var k :| 0 <= k < |objs| && f in objs[k].pages;
      assert k != id;
      assert f in objs'[k].pages;
    }
  }

  lemma DetachCount(st: St, p: nat, slot: nat, k: nat)
    requires Sized(st) && p < |st.procs| && slot < PROC_SHM_MAX && st.procs[p].slots[slot].id < SHM_OBJS_MAX
    requires st.procs[p].slots[slot].va != 0 && k < SHM_OBJS_MAX
    ensures |Naming(Detached(st, p, slot), k)| == |Naming(st, k)| - Bit(k == st.procs[p].slots[slot].id)
  {
    hide Naming;
    OneSlotCount(st, Detached(st, p, slot), p, slot, k);
  }

  lemma InSlot(st: St, p: nat, slot: nat)
    requires Inv(st) && p < |st.procs| && slot < PROC_SHM_MAX
    ensures SlotOk(st.objs, st.procs[p].slots[slot]) && st.procs[p].slots[slot].id < SHM_OBJS_MAX
    ensures st.procs[p].slots[slot].va != 0 ==> st.objs[st.procs[p].slots[slot].id].attaches > 0
  {
    assert WindowOk(st.objs, st.procs[p]);
    var s := st.procs[p].slots[slot];
    if s.va != 0 { assert (p, slot) in Naming(st, s.id); }
  }

  /** The last slot on an object is the only one. */
  lemma LastSlot(st: St, p: nat, slot: nat, q: nat, i: nat)
    requires Inv(st) && p < |st.procs| && slot < PROC_SHM_MAX && st.procs[p].slots[slot].va != 0
    requires st.procs[p].slots[slot].id < SHM_OBJS_MAX && st.objs[st.procs[p].slots[slot].id].attaches == 1
    requires q < |st.procs| && i < PROC_SHM_MAX && (q, i) != (p, slot)
    ensures !SlotNames(st.procs[q].slots[i], st.procs[p].slots[slot].id)
  {
    var id := st.procs[p].slots[slot].id;
    var n := Naming(st, id);
    assert (p, slot) in n;
    if SlotNames(st.procs[q].slots[i], id) {
      assert {(p, slot), (q, i)} <= n;
      SubsetSize({(p, slot), (q, i)}, n);
    }
  }

  lemma SubsetSize(a: set<(nat, nat)>, b: set<(nat, nat)>)
    requires a <= b
    ensures |a| <= |b|
  {
    assert b == a + (b - a);
  }

  lemma DetachWindows(st: St, p: nat, slot: nat, q: nat)
    requires Inv(st) && p < |st.procs| && slot < PROC_SHM_MAX && st.procs[p].slots[slot].va != 0 && q < |st.procs|
    requires st.procs[p].slots[slot].id < SHM_OBJS_MAX
    ensures WindowOk(Detached(st, p, slot).objs, Detached(st, p, slot).procs[q])
  {
    var t := Detached(st, p, slot);
    var id := st.procs[p].slots[slot].id;
    InSlot(st, p, slot);
    assert WindowOk(st.objs, st.procs[q]);
    hide Exact, Apart;
    if q == p { DetachWindow(st.objs, st.procs[p], slot); }
    if st.objs[id].attaches > 1 {
      SameWindow(st.objs, t.objs, t.procs[q]);
    } else {
      forall i | 0 <= i < PROC_SHM_MAX ensures !SlotNames(t.procs[q].slots[i], id) {
        if (q, i) != (p, slot) { LastSlot(st, p, slot, q, i); }
      }
      UnnamedWindow(st.objs, t.procs[q], id, FREE_OBJ);
    }
  }

  lemma KeepsDetach(st: St, p: nat, slot: nat)
    requires Inv(st) && p < |st.procs| && slot < PROC_SHM_MAX
    ensures st.procs[p].slots[slot].id < SHM_OBJS_MAX && Inv(Detached(st, p, slot))
  {
    InSlot(st, p, slot);
    var t, s := Detached(st, p, slot), st.procs[p].slots[slot];
    if s.va != 0 {
      hide WindowOk, Naming, FramesOk;
      forall q | 0 <= q < |t.procs| ensures WindowOk(t.objs, t.procs[q]) { DetachWindows(st, p, slot, q); }
      forall k | 0 <= k < SHM_OBJS_MAX ensures t.objs[k].attaches == |Naming(t, k)| { DetachCount(st, p, slot, k); }
      if st.objs[s.id].attaches > 1 {
        SameFrames(st.objs, t.objs, st.frames);
      } else {
        FreeFrames(st.objs, st.frames, s.id);
      }
    }
  }

  // ---- creating, forking, exiting -----------------------------------------------------------------------------

  /** shm_create: a free object gets frames nobody holds. */
  ghost function Created(st: St, id: nat, pages: seq<nat>): St
    requires Sized(st) && id < SHM_OBJS_MAX
  {
    st.(objs := st.objs[id := Obj(true, pages, 0)], frames := st.frames + FramesOf(pages))
  }

  ghost predicate FreshFrames(st: St, pages: seq<nat>) {
    1 <= |pages| <= SHM_PAGE_MAX && Distinct(pages) && FramesOf(pages) !! st.frames
  }

  lemma KeepsCreate(st: St, id: nat, pages: seq<nat>)
    requires Inv(st) && id < SHM_OBJS_MAX && !st.objs[id].used && FreshFrames(st, pages)
    ensures Inv(Created(st, id, pages))
  {
    var t := Created(st, id, pages);
    forall p | 0 <= p < |t.procs| ensures WindowOk(t.objs, t.procs[p]) {
      assert WindowOk(st.objs, st.procs[p]);
      forall i | 0 <= i < PROC_SHM_MAX ensures !SlotNames(st.procs[p].slots[i], id) {
        assert SlotOk(st.objs, st.procs[p].slots[i]);
      }
      UnnamedWindow(st.objs, st.procs[p], id, Obj(true, pages, 0));
    }
    forall k | 0 <= k < SHM_OBJS_MAX ensures t.objs[k].attaches == |Naming(t, k)| {
      assert Naming(t, k) == Naming(st, k);
    }
    hide WindowOk, Naming;
    assert FramesOf(FREE_OBJ.pages) == {};
    CreateFrames(st.objs, st.frames, id, pages);
  }

  lemma CreateFrames(objs: seq<Obj>, frames: set<nat>, id: nat, pages: seq<nat>)
    requires FramesOk(objs, frames) && id < |objs| && objs[id] == FREE_OBJ
    requires 1 <= |pages| <= SHM_PAGE_MAX && Distinct(pages) && FramesOf(pages) !! frames
    ensures FramesOk(objs[id := Obj(true, pages, 0)], frames + FramesOf(pages))
  {
    var objs', frames' := objs[id := Obj(true, pages, 0)], frames + FramesOf(pages);
    forall f | f in frames' ensures exists k :: 0 <= k < |objs'| && f in objs'[k].pages {
      if f in FramesOf(pages) {
        assert f in objs'[id].pages;
      } else {
        var k :| 0 <= k < |objs| && f in objs[k].pages;
        assert f in objs'[k].pages;
      }
    }
  }

  /** A process without attachments joins. */
  ghost function Spawned(st: St): St { st.(procs := st.procs + [NoSlots()]) }

  lemma KeepsSpawn(st: St)
    requires Inv(st)
    ensures Inv(Spawned(st))
    ensures |Spawned(st).procs| == |st.procs| + 1 && Spawned(st).procs[|st.procs|].window == map[]
  {
    var t := Spawned(st);
    forall p | 0 <= p < |t.procs| ensures WindowOk(t.objs, t.procs[p]) {
      if p < |st.procs| { assert WindowOk(st.objs, st.procs[p]); }
    }
    forall k | 0 <= k < SHM_OBJS_MAX ensures t.objs[k].attaches == |Naming(t, k)| {
      assert Naming(t, k) == Naming(st, k);
    }
  }

  /** The first k slots detached, as ipc_proc_exit and a failed fork do. */
  ghost function DetachedAll(st: St, p: nat, k: nat): (r: St)
    requires Sized(st) && p < |st.procs| && k <= PROC_SHM_MAX
    requires forall i :: 0 <= i < PROC_SHM_MAX ==> st.procs[p].slots[i].id < SHM_OBJS_MAX
    ensures Sized(r) && |r.procs| == |st.procs| && forall i :: 0 <= i < PROC_SHM_MAX ==> r.procs[p].slots[i].id < SHM_OBJS_MAX
    decreases k
  {
    if k == 0 then st else Detached(DetachedAll(st, p, k - 1), p, k - 1)
  }

  /** ipc_proc_fork after the parent's first k slots. */
  ghost function Forked(st: St, c: nat, p: nat, k: nat): (r: St)
    requires Sized(st) && c < |st.procs| && p < |st.procs| && k <= PROC_SHM_MAX
    requires forall i :: 0 <= i < PROC_SHM_MAX ==> st.procs[p].slots[i].id < SHM_OBJS_MAX
    ensures Sized(r) && |r.procs| == |st.procs|
    decreases k
  {
    if k == 0 then st
    else
      var t, s := Forked(st, c, p, k - 1), st.procs[p].slots[k - 1];
      if s.va == 0 then t else Attached(t, c, k - 1, s.id, s.va)
  }

  /** The first k slots of a, then free ones. */
  function Inherited(a: seq<Slot>, k: nat): (r: seq<Slot>)
    requires |a| == PROC_SHM_MAX && k <= PROC_SHM_MAX
    ensures |r| == PROC_SHM_MAX
  {
    a[..k] + seq(PROC_SHM_MAX - k, _ => FREE_SLOT)
  }

  /** st with the child's slots i in [lo, hi) copied from the parent: nothing but counts and the
      child differs. */
  ghost predicate Copied(st: St, t: St, c: nat, p: nat, lo: nat, hi: nat) {
    && Sized(st) && c < |st.procs| && p < |st.procs| && c != p && |t.procs| == |st.procs| && Inv(t)
    && SamePages(st.objs, t.objs) && t.frames == st.frames && t.nextOff == st.nextOff
    && (forall q :: 0 <= q < |st.procs| && q != c ==> t.procs[q] == st.procs[q])
    && (forall i :: 0 <= i < PROC_SHM_MAX ==> t.procs[c].slots[i] == if lo <= i < hi then st.procs[p].slots[i] else FREE_SLOT)
  }

  lemma SlotsKnown(st: St, p: nat)
    requires Inv(st) && p < |st.procs|
    ensures forall i :: 0 <= i < PROC_SHM_MAX ==> SlotOk(st.objs, st.procs[p].slots[i]) && st.procs[p].slots[i].id < SHM_OBJS_MAX
  {
    forall i | 0 <= i < PROC_SHM_MAX ensures SlotOk(st.objs, st.procs[p].slots[i]) && st.procs[p].slots[i].id < SHM_OBJS_MAX {
      InSlot(st, p, i);
    }
  }

  /** The parent's next slot can always be mapped in the child, page tables permitting. */
  lemma ForkMayAttach(st: St, t: St, c: nat, p: nat, k: nat)
    requires Inv(st) && Copied(st, t, c, p, 0, k) && k < PROC_SHM_MAX && st.procs[p].slots[k].va != 0
    ensures var s := st.procs[p].slots[k]; s.id < SHM_OBJS_MAX && MayAttach(t, c, k, s.id, s.va)
  {
    var s := st.procs[p].slots[k];
    InSlot(st, p, k);
    assert WindowOk(st.objs, st.procs[p]) && WindowOk(t.objs, t.procs[c]);
    forall v: nat | FirstPage(s) <= v < FirstPage(s) + s.npages ensures v !in t.procs[c].window {
      assert Covers(s, v);
      forall i | 0 <= i < PROC_SHM_MAX ensures !Covers(t.procs[c].slots[i], v) {
        assert i < k ==> t.procs[c].slots[i] == st.procs[p].slots[i];
      }
      assert !Covered(t.procs[c].slots, v);
    }
  }

  lemma AttachFrame(t: St, c: nat, k: nat, id: nat, va: nat)
    requires MayAttach(t, c, k, id, va)
    ensures var u := Attached(t, c, k, id, va);
      && SamePages(t.objs, u.objs) && u.frames == t.frames && u.nextOff == t.nextOff && |u.procs| == |t.procs|
      && (forall q :: 0 <= q < |t.procs| && q != c ==> u.procs[q] == t.procs[q])
      && u.procs[c].slots == t.procs[c].slots[k := Slot(va, |t.objs[id].pages|, id)]
  {
    hide Extended;
  }

  /** One more slot of the child holds its parent's. */
  lemma CopiedMore(st: St, t: St, u: St, c: nat, p: nat, k: nat)
    requires Copied(st, t, c, p, 0, k) && k < PROC_SHM_MAX && Sized(u) && Inv(u)
    requires SamePages(t.objs, u.objs) && u.frames == t.frames && u.nextOff == t.nextOff && |u.procs| == |t.procs|
    requires forall q :: 0 <= q < |t.procs| && q != c ==> u.procs[q] == t.procs[q]
    requires u.procs[c].slots == t.procs[c].slots[k := st.procs[p].slots[k]]
    ensures Copied(st, u, c, p, 0, k + 1)
  {
    hide WindowOk, FramesOk, Naming;
  }

  lemma ForkStep(st: St, t: St, c: nat, p: nat, k: nat)
    requires Inv(st) && Copied(st, t, c, p, 0, k) && k < PROC_SHM_MAX && st.procs[p].slots[k].id < SHM_OBJS_MAX
    ensures var s := st.procs[p].slots[k];
      Copied(st, if s.va == 0 then t else Attached(t, c, k, s.id, s.va), c, p, 0, k + 1)
  {
    var s := st.procs[p].slots[k];
    InSlot(st, p, k);
    if s.va == 0 {
      assert t.procs[c].slots[k] == FREE_SLOT == s;
      assert t.procs[c].slots == t.procs[c].slots[k := s];
      CopiedMore(st, t, t, c, p, k);
    } else {
      ForkMayAttach(st, t, c, p, k);
      KeepsAttach(t, c, k, s.id, s.va);
      AttachFrame(t, c, k, s.id, s.va);
      assert Slot(s.va, |t.objs[s.id].pages|, s.id) == s;
      var u := Attached(t, c, k, s.id, s.va);
      assert u.procs[c].slots == t.procs[c].slots[k := s];
      CopiedMore(st, t, u, c, p, k);
    }
  }

  lemma CopiedNone(st: St, c: nat, p: nat)
    requires Inv(st) && c < |st.procs| && p < |st.procs| && c != p && st.procs[c] == NoSlots()
    ensures Copied(st, st, c, p, 0, 0)
  {
  }

  lemma {:induction false} ForkCopies(st: St, c: nat, p: nat, k: nat)
    requires Inv(st) && c < |st.procs| && p < |st.procs| && c != p && st.procs[c] == NoSlots() && k <= PROC_SHM_MAX
    ensures forall i :: 0 <= i < PROC_SHM_MAX ==> st.procs[p].slots[i].id < SHM_OBJS_MAX
    ensures Copied(st, Forked(st, c, p, k), c, p, 0, k)
    decreases k
  {
    SlotsKnown(st, p);
    hide Copied;
    if k > 0 {
      ForkCopies(st, c, p, k - 1);
      ForkStep(st, Forked(st, c, p, k - 1), c, p, k - 1);
    } else {
      CopiedNone(st, c, p);
    }
  }

  /** Windows are determined by the slots. */
  lemma SameSlotsSameWindow(objs: seq<Obj>, a: Proc, b: Proc)
    requires WindowOk(objs, a) && WindowOk(objs, b) && a.slots == b.slots
    ensures a == b
  {
    forall v: nat ensures v in a.window <==> v in b.window {
      if v in a.window {
        var i :| 0 <= i < |a.slots| && Covers(a.slots[i], v);
        assert MapsTo(objs, b.window, b.slots[i], v);
      }
      if v in b.window {
        var i :| 0 <= i < |b.slots| && Covers(b.slots[i], v);
        assert MapsTo(objs, a.window, a.slots[i], v);
      }
    }
    forall v: nat | v in a.window ensures a.window[v] == b.window[v] {
      var i :| 0 <= i < |a.slots| && Covers(a.slots[i], v);
      assert MapsTo(objs, a.window, a.slots[i], v) && MapsTo(objs, b.window, b.slots[i], v);
    }
  }

  /** After a fork the child has its parent's attachments at the same addresses, on the same
      frames, and every reference count has gone up by the parent's slots. */
  lemma ForkInherits(st: St, c: nat, p: nat)
    requires Inv(st) && c < |st.procs| && p < |st.procs| && c != p && st.procs[c] == NoSlots()
    ensures forall i :: 0 <= i < PROC_SHM_MAX ==> st.procs[p].slots[i].id < SHM_OBJS_MAX
    ensures var t := Forked(st, c, p, PROC_SHM_MAX);
      Copied(st, t, c, p, 0, PROC_SHM_MAX) && t.procs[c] == st.procs[p]
  {
    ForkCopies(st, c, p, PROC_SHM_MAX);
    var t := Forked(st, c, p, PROC_SHM_MAX);
    assert WindowOk(t.objs, t.procs[c]) && WindowOk(t.objs, t.procs[p]) && t.procs[p] == st.procs[p];
    assert t.procs[c].slots == t.procs[p].slots;
    SameSlotsSameWindow(t.objs, t.procs[c], t.procs[p]);
  }

  /** Detaching a slot on an object that another slot names frees nothing. */
  lemma DetachShared(st: St, p: nat, slot: nat, q: nat, i: nat)
    requires Inv(st) && p < |st.procs| && slot < PROC_SHM_MAX && q < |st.procs| && i < PROC_SHM_MAX && (q, i) != (p, slot)
    requires st.procs[p].slots[slot].id < SHM_OBJS_MAX && st.procs[p].slots[slot].va != 0
    requires SlotNames(st.procs[q].slots[i], st.procs[p].slots[slot].id)
    ensures SamePages(st.objs, Detached(st, p, slot).objs) && Detached(st, p, slot).frames == st.frames
  {
    InSlot(st, p, slot);
    if st.objs[st.procs[p].slots[slot].id].attaches == 1 { LastSlot(st, p, slot, q, i); }
  }

  lemma UnforkStep(st: St, u: St, c: nat, p: nat, k: nat, j: nat)
    requires Inv(st) && Copied(st, u, c, p, j, k) && j < PROC_SHM_MAX && u.procs[c].slots[j].id < SHM_OBJS_MAX
    ensures Copied(st, Detached(u, c, j), c, p, j + 1, k)
  {
    KeepsDetach(u, c, j);
    var s := u.procs[c].slots[j];
    if s.va != 0 {
      assert SlotNames(u.procs[p].slots[j], s.id);
      DetachShared(u, c, j, p, j);
    } else {
      InSlot(u, c, j);
    }
    hide Inv, WindowOk;
  }

  lemma {:induction false} UnforkSteps(st: St, t: St, c: nat, p: nat, k: nat, j: nat)
    requires Inv(st) && Copied(st, t, c, p, 0, k) && k <= PROC_SHM_MAX && j <= PROC_SHM_MAX
    ensures forall i :: 0 <= i < PROC_SHM_MAX ==> t.procs[c].slots[i].id < SHM_OBJS_MAX
    ensures Copied(st, DetachedAll(t, c, j), c, p, j, k)
    decreases j
  {
    SlotsKnown(t, c);
    assert Sized(t) && c < |t.procs|;
    hide Copied, Inv;
    if j > 0 {
      UnforkSteps(st, t, c, p, k, j - 1);
      UnforkStep(st, DetachedAll(t, c, j - 1), c, p, k, j - 1);
    }
  }

  /** Counts are determined by the slots. */
  lemma SameProcsSameState(st: St, t: St)
    requires Inv(st) && Inv(t) && t.procs == st.procs && SamePages(st.objs, t.objs)
    ensures t.objs == st.objs
  {
    forall id | 0 <= id < SHM_OBJS_MAX ensures t.objs[id] == st.objs[id] {
      assert Naming(t, id) == Naming(st, id);
    }
  }

  /** A fork that fails at any slot leaves every mapping, count and frame as it was. */
  lemma FailedForkClean(st: St, c: nat, p: nat, k: nat)
    requires Inv(st) && c < |st.procs| && p < |st.procs| && c != p && st.procs[c] == NoSlots() && k <= PROC_SHM_MAX
    ensures forall i :: 0 <= i < PROC_SHM_MAX ==> st.procs[p].slots[i].id < SHM_OBJS_MAX
    ensures forall i :: 0 <= i < PROC_SHM_MAX ==> Forked(st, c, p, k).procs[c].slots[i].id < SHM_OBJS_MAX
    ensures DetachedAll(Forked(st, c, p, k), c, PROC_SHM_MAX) == st
  {
    hide DetachedAll, Forked, Naming, FramesOf, Range;
    ForkCopies(st, c, p, k);
    var t := Forked(st, c, p, k);
    UnforkSteps(st, t, c, p, k, PROC_SHM_MAX);
    var u := DetachedAll(t, c, PROC_SHM_MAX);
    assert WindowOk(u.objs, u.procs[c]) && WindowOk(st.objs, NoSlots());
    SameWindow(st.objs, u.objs, NoSlots());
    assert u.procs[c].slots == NoSlots().slots;
    SameSlotsSameWindow(u.objs, u.procs[c], NoSlots());
    assert u.procs == st.procs;
    SameProcsSameState(st, u);
  }

  /** The first k slots of process p are free, the others and every other process as in st. */
  ghost predicate FreedUpTo(st: St, t: St, p: nat, k: nat) {
    && Inv(st) && Inv(t) && p < |st.procs| && |t.procs| == |st.procs|
    && (forall i :: 0 <= i < PROC_SHM_MAX ==> t.procs[p].slots[i] == if i < k then FREE_SLOT else st.procs[p].slots[i])
    && forall q :: 0 <= q < |st.procs| && q != p ==> t.procs[q] == st.procs[q]
  }

  lemma FreedOneMore(st: St, t: St, p: nat, k: nat)
    requires FreedUpTo(st, t, p, k) && k < PROC_SHM_MAX && t.procs[p].slots[k].id < SHM_OBJS_MAX
    ensures FreedUpTo(st, Detached(t, p, k), p, k + 1)
  {
    InSlot(t, p, k);
    KeepsDetach(t, p, k);
    hide WindowOk, FramesOk, Naming;
  }

  /** A process that exits gives up every slot and keeps no mapping. */
  lemma {:induction false} KeepsDetachAll(st: St, p: nat, k: nat)
    requires Inv(st) && p < |st.procs| && k <= PROC_SHM_MAX
    ensures forall i :: 0 <= i < PROC_SHM_MAX ==> st.procs[p].slots[i].id < SHM_OBJS_MAX
    ensures FreedUpTo(st, DetachedAll(st, p, k), p, k)
    decreases k
  {
    SlotsKnown(st, p);
    if k > 0 {
      hide FreedUpTo, Inv;
      KeepsDetachAll(st, p, k - 1);
      FreedOneMore(st, DetachedAll(st, p, k - 1), p, k - 1);
    }
  }

  lemma NothingMapped(objs: seq<Obj>)
    ensures WindowOk(objs, NoSlots())
  {
  }

  lemma ExitUnmaps(st: St, p: nat)
    requires Inv(st) && p < |st.procs|
    ensures forall i :: 0 <= i < PROC_SHM_MAX ==> st.procs[p].slots[i].id < SHM_OBJS_MAX
    ensures DetachedAll(st, p, PROC_SHM_MAX).procs[p] == NoSlots()
  {
    hide FramesOk, Naming, DetachedAll, Exact, Apart;
    KeepsDetachAll(st, p, PROC_SHM_MAX);
    var t := DetachedAll(st, p, PROC_SHM_MAX);
    NothingMapped(t.objs);
    assert WindowOk(t.objs, t.procs[p]);
    assert t.procs[p].slots == NoSlots().slots;
    SameSlotsSameWindow(t.objs, t.procs[p], NoSlots());
  }

  // ---- runs ---------------------------------------------------------------------------------------------------

  datatype Event =
    | Create(oid: nat, pages: seq<nat>)
    | Attach(p: nat, slot: nat, id: nat, va: nat)
    | Detach(p: nat, slot: nat)
    | Spawn
    | Fork(child: nat, parent: nat)
    | ForkFails(child: nat, parent: nat, k: nat)
    | Exit(p: nat)
    | Reserve(off: nat)

  /** Every slot names an object: all a step needs to be defined. */
  ghost predicate Known(st: St) {
    && Sized(st)
    && forall p, i :: 0 <= p < |st.procs| && 0 <= i < PROC_SHM_MAX ==> st.procs[p].slots[i].id < SHM_OBJS_MAX
  }

  /** What the calls that succeed have checked.  Of the calls that fail, a fork undoes its first k
      slots, an attach may have moved the window allocator (Reserve), and the others do nothing. */
  ghost predicate Enabled(st: St, e: Event) {
    Known(st) &&
    match e
    case Create(id, pages) => id < SHM_OBJS_MAX && !st.objs[id].used && FreshFrames(st, pages)
    case Attach(p, slot, id, va) => MayAttach(st, p, slot, id, va)
    case Detach(p, slot) => p < |st.procs| && slot < PROC_SHM_MAX
    case Spawn => true
    case Fork(c, p) => MayFork(st, c, p)
    case ForkFails(c, p, k) => MayFork(st, c, p) && k < PROC_SHM_MAX
    case Exit(p) => p < |st.procs|
    case Reserve(off) => true
  }

  ghost predicate MayFork(st: St, c: nat, p: nat) {
    c < |st.procs| && p < |st.procs| && c != p && st.procs[c] == NoSlots()
  }

  /** A fork that gets as far as the parent's first k slots and then rolls back. */
  ghost function Unforked(st: St, c: nat, p: nat, k: nat): St
    requires Known(st) && MayFork(st, c, p) && k <= PROC_SHM_MAX
  {
    ForkedIds(st, c, p, k);
    DetachedAll(Forked(st, c, p, k), c, PROC_SHM_MAX)
  }

  lemma {:induction false} ForkedIds(st: St, c: nat, p: nat, k: nat)
    requires Known(st) && MayFork(st, c, p) && k <= PROC_SHM_MAX
    ensures forall i :: 0 <= i < PROC_SHM_MAX ==> Forked(st, c, p, k).procs[c].slots[i].id < SHM_OBJS_MAX
    decreases k
  {
    if k > 0 { ForkedIds(st, c, p, k - 1); }
  }

  ghost function Next(st: St, e: Event): St
    requires Enabled(st, e)
  {
    match e
    case Create(id, pages) => Created(st, id, pages)
    case Attach(p, slot, id, va) => Attached(st, p, slot, id, va)
    case Detach(p, slot) => Detached(st, p, slot)
    case Spawn => Spawned(st)
    case Fork(c, p) => Forked(st, c, p, PROC_SHM_MAX)
    case ForkFails(c, p, k) => Unforked(st, c, p, k)
    case Exit(p) => DetachedAll(st, p, PROC_SHM_MAX)
    case Reserve(off) => st.(nextOff := off)
  }

  lemma ReserveKeeps(st: St, off: nat)
    requires Inv(st)
    ensures Inv(st.(nextOff := off))
  {
    var t := st.(nextOff := off);
    forall id | 0 <= id < SHM_OBJS_MAX ensures t.objs[id].attaches == |Naming(t, id)| { assert Naming(t, id) == Naming(st, id); }
  }

  lemma StepKeeps(st: St, e: Event)
    requires Inv(st) && Enabled(st, e)
    ensures Inv(Next(st, e))
  {
    hide Inv, Created, Attached, Detached, Spawned, Forked, DetachedAll;
    match e
    case Create(id, pages) => KeepsCreate(st, id, pages);
    case Attach(p, slot, id, va) => KeepsAttach(st, p, slot, id, va);
    case Detach(p, slot) => KeepsDetach(st, p, slot);
    case Spawn => KeepsSpawn(st);
    case Fork(c, p) => ForkInherits(st, c, p);
    case ForkFails(c, p, k) => FailedForkClean(st, c, p, k);
    case Exit(p) => KeepsDetachAll(st, p, PROC_SHM_MAX);
    case Reserve(off) => ReserveKeeps(st, off);
  }

  ghost predicate Run(trace: seq<St>, events: seq<Event>) {
    && |trace| == |events| + 1 && trace[0] == Init()
    && forall i :: 0 <= i < |events| ==> Enabled(trace[i], events[i]) && trace[i + 1] == Next(trace[i], events[i])
  }

  lemma {:induction false} RunKeeps(trace: seq<St>, events: seq<Event>, i: nat)
    requires Run(trace, events) && i < |trace|
    ensures Inv(trace[i])
    decreases i
  {
    hide Inv, Next, Enabled;
    if i == 0 {
      InitInv();
    } else {
      RunKeeps(trace, events, i - 1);
      StepKeeps(trace[i - 1], events[i - 1]);
    }
  }

  /** In every run: counts equal the slots naming the object, windows map exactly the union of
      their slots' frames, and no mapped frame is free. */
  lemma RunSafe(trace: seq<St>, events: seq<Event>, i: nat)
    requires Run(trace, events) && i < |trace|
    ensures var st := trace[i];
      && Sized(st) && (forall id :: 0 <= id < SHM_OBJS_MAX ==> st.objs[id].attaches == |Naming(st, id)|)
      && (forall p :: 0 <= p < |st.procs| ==> Exact(st.objs, st.procs[p].slots, st.procs[p].window) && |st.procs[p].slots| == PROC_SHM_MAX && Apart(st.procs[p].slots))
      && forall p, v: nat :: 0 <= p < |st.procs| && v in st.procs[p].window ==> st.procs[p].window[v] in st.frames
  {
    RunKeeps(trace, events, i);
    var st := trace[i];
    forall p, v: nat | 0 <= p < |st.procs| && v in st.procs[p].window ensures st.procs[p].window[v] in st.frames {
      assert WindowOk(st.objs, st.procs[p]);
      assert Covered(st.procs[p].slots, v);
      var k :| 0 <= k < PROC_SHM_MAX && Covers(st.procs[p].slots[k], v);
      assert MapsTo(st.objs, st.procs[p].window, st.procs[p].slots[k], v);
      assert FramesOf(st.objs[st.procs[p].slots[k].id].pages) <= st.frames;
    }
    forall p | 0 <= p < |st.procs| ensures Exact(st.objs, st.procs[p].slots, st.procs[p].window) && |st.procs[p].slots| == PROC_SHM_MAX && Apart(st.procs[p].slots) {
      assert WindowOk(st.objs, st.procs[p]);
    }
  }

  /** An object's frames are freed exactly when its last slot goes. */
  lemma FreedExactly(st: St, p: nat, slot: nat)
    requires Inv(st) && p < |st.procs| && slot < PROC_SHM_MAX && st.procs[p].slots[slot].va != 0
    ensures st.procs[p].slots[slot].id < SHM_OBJS_MAX
    ensures var id := st.procs[p].slots[slot].id; var t := Detached(st, p, slot);
      if Naming(st, id) == {(p, slot)} then t.frames == st.frames - FramesOf(st.objs[id].pages) && t.objs[id] == FREE_OBJ
      else t.frames == st.frames && t.objs[id].used && t.objs[id].pages == st.objs[id].pages
  {
    InSlot(st, p, slot);
    var id := st.procs[p].slots[slot].id;
    var n := Naming(st, id);
    assert (p, slot) in n;
    if n != {(p, slot)} {
      var other :| other in n && other != (p, slot);
      SubsetSize({(p, slot), other}, n);
    }
  }
}
