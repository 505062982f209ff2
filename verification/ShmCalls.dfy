/** The shared-memory calls of kernel/ipc.c.  Each call is one step under ipc_lock; the frames
    the page allocator returns and the page tables it can still make are parameters. */
module ShmCalls {
  import opened Errno
  import opened Limits
  import opened Seqs
  import opened Wrappers
  import opened Shm

  /** A usable address hint: page-aligned, the whole object inside the window. */
  predicate HintOk(hint: nat, npages: nat) {
    hint % PAGE == 0 && USER_SHM_BASE <= hint && hint + npages * PAGE <= USER_VA_LIMIT
  }

  predicate FreeSlotAt(slots: seq<Slot>, i: nat) {
    i < |slots| && slots[i].va == 0 && forall k :: 0 <= k < i ==> slots[k].va != 0
  }

  /** shm_attach got as far as the hint and turned it down. */
  ghost predicate BadHint(st: St, p: nat, id: nat, hint: nat) {
    && id < |st.objs| && p < |st.procs| && st.objs[id].used && hint != 0 && !HintOk(hint, |st.objs[id].pages|)
    && exists i :: FreeSlotAt(st.procs[p].slots, i)
  }

  /** shm_attach gets as far as mapping: object, slot and hint are good. */
  ghost predicate MayMap(st: St, p: nat, id: int, hint: nat) {
    && 0 <= id < |st.objs| && p < |st.procs| && st.objs[id].used && (hint == 0 || HintOk(hint, |st.objs[id].pages|))
    && exists i :: FreeSlotAt(st.procs[p].slots, i)
  }

  /** The window is used up, a page there is mapped already, or page tables run out. */
  ghost predicate CannotMap(st: St, p: nat, id: int, hint: nat, grants: nat)
    requires 0 <= id < |st.objs| && p < |st.procs|
  {
    var n, va := |st.objs[id].pages|, if hint != 0 then hint else USER_SHM_BASE + st.nextOff;
    || (hint == 0 && va + n * PAGE >= USER_VA_LIMIT)
    || n > grants || !Unmapped(st.procs[p].window, va / PAGE, n)
  }

  lemma PageOf(va: nat, k: nat)
    ensures (va + k * PAGE) / PAGE == va / PAGE + k
    ensures (va + k * PAGE) % PAGE == va % PAGE
  {
  }

  class Ipc {
    var objs: seq<Obj>
    var procs: seq<Proc>
    var nextOff: nat
    ghost var frames: set<nat>

    ghost function Now(): St
      reads this
    {
      St(objs, procs, nextOff, frames)
    }

    constructor ()
      ensures Now() == Init()
    {
      objs := seq(SHM_OBJS_MAX, _ => FREE_OBJ);
      procs, nextOff, frames := [], 0, {};
    }

    /** shm_create; supply[i] is what the page allocator returns for page i, 0 when it has none. */
    method CreateObj(npages: nat, supply: seq<nat>) returns (r: int)
      requires Inv(Now()) && |supply| == npages
      requires forall i :: 0 <= i < npages && supply[i] != 0 ==> supply[i] !in frames && supply[i] !in supply[..i]
      modifies this
      ensures Inv(Now())
      ensures r == EINVAL <==> npages == 0 || npages > SHM_PAGE_MAX
      ensures r < 0 ==> Now() == old(Now()) && (r == EINVAL || r == ENFILE || r == ENOMEM)
      ensures r == ENFILE <==> 1 <= npages <= SHM_PAGE_MAX && forall i :: 0 <= i < SHM_OBJS_MAX ==> old(objs)[i].used
      ensures r == ENOMEM <==> 1 <= npages <= SHM_PAGE_MAX && 0 in supply && exists i :: 0 <= i < SHM_OBJS_MAX && !old(objs)[i].used
      ensures r >= 0 ==> r < SHM_OBJS_MAX && !old(objs)[r].used && FreshFrames(old(Now()), supply) && Now() == Created(old(Now()), r, supply)
    {
      hide WindowOk, Naming, FramesOk;
      if npages == 0 || npages > SHM_PAGE_MAX { return EINVAL; }
      var id := 0;
      while id < SHM_OBJS_MAX && objs[id].used
        invariant 0 <= id <= SHM_OBJS_MAX && forall k :: 0 <= k < id ==> objs[k].used
      {
        id := id + 1;
      }
      if id == SHM_OBJS_MAX { return ENFILE; }
      ghost var st := Now();
      var was := objs[id];
      var pages: seq<nat> := [];
      while |pages| < npages
        invariant |pages| <= npages && pages == supply[..|pages|] && 0 !in pages
        invariant Distinct(pages) && FramesOf(pages) !! st.frames
        invariant |objs| == |st.objs| && Now() == st.(objs := objs, frames := st.frames + FramesOf(pages))
        invariant objs == st.objs[id := if pages == [] then objs[id] else Obj(true, pages, 0)] && (pages == [] ==> objs == st.objs)
        decreases npages - |pages|
      {
        var fr := supply[|pages|];
        if fr == 0 {
          assert supply[|pages|] in supply;
          objs := objs[id := was];
          frames := frames - FramesOf(pages);
          assert Now() == st;
          return ENOMEM;
        }
        assert FramesOf(pages + [fr]) == FramesOf(pages) + {fr};
        assert supply[..|pages| + 1] == supply[..|pages|] + [supply[|pages|]];
        frames := frames + {fr};
        pages := pages + [fr];
        objs := objs[id := Obj(true, pages, 0)];
      }
      assert pages == supply;
      KeepsCreate(st, id, pages);
      r := id;
    }

    /** shm_map_range; page tables can be had for the first `grants` pages only. */
    method MapRange(p: nat, pages: seq<nat>, va: nat, grants: nat) returns (r: int)
      requires p < |procs| && va % PAGE == 0
      modifies this`procs
      ensures r == 0 <==> |pages| <= grants && Unmapped(old(procs)[p].window, va / PAGE, |pages|)
      ensures procs == if r == 0 then old(procs)[p := old(procs)[p].(window := Extended(old(procs)[p].window, va / PAGE, pages, |pages|))]
                       else old(procs)
    {
      ghost var w0 := procs[p].window;
      var done := 0;
      r := 0;
      assert Extended(w0, va / PAGE, pages, 0) == w0;
      while done < |pages| && r == 0
        invariant 0 <= done <= |pages| && (done <= grants || done == 0) && p < |procs|
        invariant procs == old(procs)[p := old(procs)[p].(window := Extended(w0, va / PAGE, pages, done))]
        invariant Unmapped(w0, va / PAGE, done)
        invariant r != 0 ==> done < |pages| && (done >= grants || va / PAGE + done in w0)
        decreases |pages| - done, r == 0
      {
        var page := (va + done * PAGE) / PAGE;
        PageOf(va, done);
        if done >= grants {
          r := -2;
        } else if page in procs[p].window {
          r := -4;
        } else {
          procs := procs[p := procs[p].(window := procs[p].window[page := pages[done]])];
          done := done + 1;
          assert procs[p].window == Extended(w0, va / PAGE, pages, done);
        }
      }
      if r != 0 { UnmapPart(p, pages, va, done, w0); }
    }

    /** The unwinding loop of shm_map_range: give back the first `n` pages, last first. */
    method UnmapPart(p: nat, pages: seq<nat>, va: nat, n: nat, ghost w0: map<nat, nat>)
      requires p < |procs| && n <= |pages| && va % PAGE == 0 && Unmapped(w0, va / PAGE, n)
      requires procs[p].window == Extended(w0, va / PAGE, pages, n)
      modifies this`procs
      ensures procs == old(procs)[p := old(procs)[p].(window := w0)]
    {
      var done := n;
      while done > 0
        invariant 0 <= done <= n && p < |procs| && Unmapped(w0, va / PAGE, done)
        invariant procs == old(procs)[p := old(procs)[p].(window := Extended(w0, va / PAGE, pages, done))]
      {
        done := done - 1;
        PageOf(va, done);
        procs := procs[p := procs[p].(window := procs[p].window - {(va + done * PAGE) / PAGE})];
        assert procs[p].window == Extended(w0, va / PAGE, pages, done);
      }
      assert Extended(w0, va / PAGE, pages, 0) == w0;
    }

    /** shm_attach.  The result is the address, or an error that leaves all but the window
        allocator as it was; that moves exactly when the call chooses the address. */
    method AttachObj(p: nat, id: int, hint: nat, grants: nat) returns (r: int, ghost slot: nat)
      requires Inv(Now()) && p < |procs| && hint < TWO64 && nextOff % PAGE == 0
      modifies this`objs, this`procs, this`nextOff
      ensures Inv(Now()) && nextOff % PAGE == 0
      ensures nextOff == old(nextOff) + if hint == 0 && MayMap(old(Now()), p, id, hint) then |old(objs)[id].pages| * PAGE else 0
      ensures r == ENOMEM <==> MayMap(old(Now()), p, id, hint) && CannotMap(old(Now()), p, id, hint, grants)
      ensures r > 0 || r == EINVAL || r == ENOENT || r == EMFILE || r == ENOMEM
      ensures r <= 0 ==> r < 0 && Now() == old(Now()).(nextOff := nextOff)
      ensures r > 0 ==> 0 <= id < SHM_OBJS_MAX && FreeSlotAt(old(procs)[p].slots, slot)
      ensures r > 0 ==> MayAttach(old(Now()), p, slot, id, r) && Now() == Attached(old(Now()), p, slot, id, r).(nextOff := nextOff)
      ensures r > 0 && hint != 0 ==> r == hint
      ensures r == EINVAL <==> id < 0 || id >= SHM_OBJS_MAX || BadHint(old(Now()), p, id, hint)
      ensures r == ENOENT <==> 0 <= id < SHM_OBJS_MAX && !old(objs)[id].used
      ensures r == EMFILE <==> 0 <= id < SHM_OBJS_MAX && old(objs)[id].used && forall i :: 0 <= i < PROC_SHM_MAX ==> old(procs)[p].slots[i].va != 0
    {
      hide WindowOk, Naming, FramesOk, Extended, Attached;
      slot := 0;
      ghost var st0 := Now();
      if id < 0 || id >= SHM_OBJS_MAX { return EINVAL, slot; }
      if !objs[id].used { return ENOENT, slot; }
      var o := objs[id];
      var i := 0;
      while i < PROC_SHM_MAX && procs[p].slots[i].va != 0
        invariant 0 <= i <= PROC_SHM_MAX && forall k :: 0 <= k < i ==> procs[p].slots[k].va != 0
      {
        i := i + 1;
      }
      if i == PROC_SHM_MAX { return EMFILE, slot; }
      slot := i;
      assert FreeSlotAt(procs[p].slots, slot);
      var va;
      var span := |o.pages| * PAGE;
      UsedPages(Now(), id);
      if hint != 0 {
        var end := (hint + span) % TWO64;
        if hint % PAGE != 0 || hint < USER_SHM_BASE || end > USER_VA_LIMIT || end < hint { return EINVAL, slot; }
        va := hint;
      } else {
        va := USER_SHM_BASE + nextOff;
        nextOff := nextOff + span;
        OffsetFree(st0, nextOff);
        if USER_SHM_BASE + nextOff >= USER_VA_LIMIT { return ENOMEM, slot; }
      }
      ghost var st := Now();
      r := MapRange(p, o.pages, va, grants);
      if r != 0 { return ENOMEM, slot; }
      assert MayAttach(st0, p, slot, id, va);
      KeepsAttach(st, p, slot, id, va);
      procs := procs[p := procs[p].(slots := procs[p].slots[i := Slot(va, |o.pages|, id)])];
      objs := objs[id := o.(attaches := o.attaches + 1)];
      AttachedIs(st, p, slot, id, va, Now());
      AttachedOff(st0, p, slot, id, va, nextOff);
      r := va;
    }

    /** shm_do_detach */
    method DoDetach(p: nat, slot: nat)
      requires Inv(Now()) && p < |procs| && slot < PROC_SHM_MAX
      modifies this`objs, this`procs, this`frames
      ensures Inv(Now())
      ensures old(procs)[p].slots[slot].id < SHM_OBJS_MAX && Now() == Detached(old(Now()), p, slot)
    {
      hide WindowOk, Naming, FramesOk, Detached;
      ghost var st := Now();
      DetachFree(st, p, slot);
      KeepsDetach(st, p, slot);
      var s := procs[p].slots[slot];
      if s.va == 0 { return; }
      var o := objs[s.id];
      ghost var w0 := procs[p].window;
      var pg := 0;
      assert w0 - Range(FirstPage(s), 0) == w0;
      while pg < |o.pages|
        invariant 0 <= pg <= |o.pages| && p < |procs| && Now() == st.(procs := procs)
        invariant procs == st.procs[p := st.procs[p].(window := w0 - Range(FirstPage(s), pg))]
      {
        PageOf(s.va, pg);
        procs := procs[p := procs[p].(window := procs[p].window - {(s.va + pg * PAGE) / PAGE})];
        pg := pg + 1;
        assert procs[p].window == w0 - Range(FirstPage(s), pg);
      }
      procs := procs[p := procs[p].(slots := procs[p].slots[slot := FREE_SLOT])];
      ghost var procs1 := procs;
      var left := o.attaches;
      if left > 0 { left := left - 1; }
      objs := objs[s.id := o.(attaches := left)];
      if left == 0 {
        var k := 0;
        assert FramesOf(o.pages[..0]) == {};
        while k < |o.pages|
          invariant 0 <= k <= |o.pages| && nextOff == st.nextOff && frames == st.frames - FramesOf(o.pages[..k])
          invariant procs == procs1 && objs == st.objs[s.id := o.(attaches := left)]
        {
          assert FramesOf(o.pages[..k + 1]) == FramesOf(o.pages[..k]) + {o.pages[k]};
          frames := frames - {o.pages[k]};
          k := k + 1;
        }
        assert o.pages[..|o.pages|] == o.pages;
        objs := objs[s.id := FREE_OBJ];
      }
      DetachedIs(st, p, slot, Now());
    }

    /** shm_detach: the first slot at va.  Address 0 finds a free slot, and succeeds without effect. */
    method DetachAt(p: nat, va: nat) returns (r: int, ghost slot: nat)
      requires Inv(Now()) && p < |procs|
      modifies this`objs, this`procs, this`frames
      ensures Inv(Now())
      ensures r == EINVAL <==> va % PAGE != 0
      ensures r == ENOENT <==> va % PAGE == 0 && forall i :: 0 <= i < PROC_SHM_MAX ==> old(procs)[p].slots[i].va != va
      ensures r == 0 || r == EINVAL || r == ENOENT
      ensures r != 0 || va == 0 ==> Now() == old(Now())
      ensures r == 0 ==> slot < PROC_SHM_MAX && old(procs)[p].slots[slot].va == va && old(procs)[p].slots[slot].id < SHM_OBJS_MAX
      ensures r == 0 ==> Now() == Detached(old(Now()), p, slot)
    {
      hide WindowOk, Naming, FramesOk, Detached;
      slot := 0;
      if va % PAGE != 0 { return EINVAL, slot; }
      var i := 0;
      while i < PROC_SHM_MAX
        invariant 0 <= i <= PROC_SHM_MAX && Now() == old(Now())
        invariant forall k :: 0 <= k < i ==> procs[p].slots[k].va != va
      {
        if procs[p].slots[i].va == va {
          DetachFree(Now(), p, i);
          DoDetach(p, i);
          return 0, i;
        }
        i := i + 1;
      }
      r := ENOENT;
    }

    /** ipc_proc_fork into a process that has no attachments yet. */
    method ForkInto(c: nat, p: nat, grants: seq<nat>) returns (r: int)
      requires Inv(Now()) && c < |procs| && p < |procs| && c != p && procs[c] == NoSlots() && |grants| == PROC_SHM_MAX
      modifies this`objs, this`procs, this`frames
      ensures Inv(Now()) && (r == 0 || r == ENOMEM)
      ensures r == 0 ==> Copied(old(Now()), Now(), c, p, 0, PROC_SHM_MAX) && procs[c] == procs[p]
      ensures r == ENOMEM ==> Now() == old(Now())
      ensures r == 0 <==> forall i :: 0 <= i < PROC_SHM_MAX && old(procs)[p].slots[i].va != 0 ==> old(procs)[p].slots[i].npages <= grants[i]
    {
      hide WindowOk, Naming, FramesOk, Extended, Forked, Copied, Detached, DetachedAll, Attached;
      ghost var st := Now();
      SlotsKnown(st, p);
      ForkStarts(st, c, p);
      r := 0;
      var i := 0;
      while i < PROC_SHM_MAX && r == 0
        invariant 0 <= i <= PROC_SHM_MAX && Now() == Forked(st, c, p, i) && Copied(st, Now(), c, p, 0, i)
        invariant r == 0 || (r == ENOMEM && i < PROC_SHM_MAX && st.procs[p].slots[i].va != 0 && st.procs[p].slots[i].npages > grants[i])
        invariant forall k :: 0 <= k < i && st.procs[p].slots[k].va != 0 ==> st.procs[p].slots[k].npages <= grants[k]
        decreases PROC_SHM_MAX - i, r == 0
      {
        ghost var t := Now();
        ForkFacts(st, t, c, p, i);
        ForkCopies(st, c, p, i + 1);
        var s := procs[p].slots[i];
        if s.va != 0 && s.id < SHM_OBJS_MAX && objs[s.id].used {
          var o := objs[s.id];
          var m := MapRange(c, o.pages, s.va, grants[i]);
          if m != 0 {
            r := ENOMEM;
          } else {
            procs := procs[c := procs[c].(slots := procs[c].slots[i := s])];
            objs := objs[s.id := o.(attaches := o.attaches + 1)];
            AttachedIs(t, c, i, s.id, s.va, Now());
            i := i + 1;
          }
        } else {
          i := i + 1;
        }
      }
      if r != 0 {
        FailedForkClean(st, c, p, i);
        ghost var t := Now();
        CopiedInv(st, t, c, p, 0, i);
        SlotsKnown(t, c);
        DetachedNone(t, c);
        var k := 0;
        while k < PROC_SHM_MAX
          invariant 0 <= k <= PROC_SHM_MAX && Inv(Now()) && |procs| == |st.procs|
          invariant Now() == DetachedAll(t, c, k)
        {
          DoDetach(c, k);
          k := k + 1;
          DetachedMore(t, c, k);
        }
      } else {
        ForkInherits(st, c, p);
      }
    }

    /** ipc_proc_exit */
    method ExitProc(p: nat)
      requires Inv(Now()) && p < |procs|
      modifies this`objs, this`procs, this`frames
      ensures Inv(Now()) && |procs| == |old(procs)| && procs[p] == NoSlots()
      ensures (forall i :: 0 <= i < PROC_SHM_MAX ==> old(procs)[p].slots[i].id < SHM_OBJS_MAX)
        && Now() == DetachedAll(old(Now()), p, PROC_SHM_MAX)
    {
      hide Inv, Detached, DetachedAll;
      ghost var st := Now();
      SlotsKnown(st, p);
      InSized(st);
      DetachedNone(st, p);
      var k := 0;
      while k < PROC_SHM_MAX
        invariant 0 <= k <= PROC_SHM_MAX && Inv(Now()) && |procs| == |st.procs|
        invariant Now() == DetachedAll(st, p, k)
      {
        DoDetach(p, k);
        k := k + 1;
        DetachedMore(st, p, k);
      }
      ExitUnmaps(st, p);
    }
  }

  lemma UsedPages(st: St, id: nat)
    requires Inv(st) && id < SHM_OBJS_MAX && st.objs[id].used
    ensures 1 <= |st.objs[id].pages| <= SHM_PAGE_MAX
  {
  }

  /** Nothing depends on the window allocator. */
  lemma OffsetFree(st: St, off: nat)
    requires Inv(st)
    ensures Inv(st.(nextOff := off))
  {
    var t := st.(nextOff := off);
    forall id ensures Naming(t, id) == Naming(st, id) {}
  }

  lemma AttachedOff(st: St, p: nat, slot: nat, id: nat, va: nat, off: nat)
    requires Sized(st) && p < |st.procs| && slot < PROC_SHM_MAX && id < SHM_OBJS_MAX
    ensures Attached(st.(nextOff := off), p, slot, id, va) == Attached(st, p, slot, id, va).(nextOff := off)
  {
  }

  lemma AttachedIs(st: St, p: nat, slot: nat, id: nat, va: nat, t: St)
    requires Sized(st) && p < |st.procs| && slot < PROC_SHM_MAX && id < SHM_OBJS_MAX
    requires var o, pr := st.objs[id], st.procs[p];
      t == st.(objs := st.objs[id := o.(attaches := o.attaches + 1)],
               procs := st.procs[p := Proc(pr.slots[slot := Slot(va, |o.pages|, id)], Extended(pr.window, va / PAGE, o.pages, |o.pages|))])
    ensures t == Attached(st, p, slot, id, va)
  {
  }

  lemma InSized(st: St)
    requires Inv(st)
    ensures Sized(st)
  {
  }

  lemma CopiedInv(st: St, t: St, c: nat, p: nat, lo: nat, hi: nat)
    requires Copied(st, t, c, p, lo, hi)
    ensures Inv(t) && Sized(t) && |t.procs| == |st.procs|
  {
  }

  lemma DetachedNone(st: St, p: nat)
    requires Sized(st) && p < |st.procs|
    requires forall i :: 0 <= i < PROC_SHM_MAX ==> st.procs[p].slots[i].id < SHM_OBJS_MAX
    ensures DetachedAll(st, p, 0) == st
  {
  }

  lemma DetachedMore(st: St, p: nat, k: nat)
    requires Sized(st) && p < |st.procs| && 0 < k <= PROC_SHM_MAX
    requires forall i :: 0 <= i < PROC_SHM_MAX ==> st.procs[p].slots[i].id < SHM_OBJS_MAX
    ensures DetachedAll(st, p, k) == Detached(DetachedAll(st, p, k - 1), p, k - 1)
  {
  }

  /** The parent's slot i, seen from the middle of a fork. */
  lemma ForkFacts(st: St, t: St, c: nat, p: nat, i: nat)
    requires Inv(st) && Copied(st, t, c, p, 0, i) && i < PROC_SHM_MAX
    requires forall j :: 0 <= j < PROC_SHM_MAX ==> st.procs[p].slots[j].id < SHM_OBJS_MAX
    requires t == Forked(st, c, p, i)
    ensures Sized(t) && t.procs[p] == st.procs[p] && |t.procs| == |st.procs| && t.procs[c].slots[i] == FREE_SLOT
    ensures var s := st.procs[p].slots[i];
      if s.va == 0 then Forked(st, c, p, i + 1) == t
      else
        && s.id < SHM_OBJS_MAX && t.objs[s.id].used && |t.objs[s.id].pages| == s.npages && s.va % PAGE == 0
        && s == Slot(s.va, |t.objs[s.id].pages|, s.id) && Unmapped(t.procs[c].window, s.va / PAGE, s.npages)
        && Forked(st, c, p, i + 1) == Attached(t, c, i, s.id, s.va)
  {
    InSlot(st, p, i);
    if st.procs[p].slots[i].va != 0 { ForkMayAttach(st, t, c, p, i); }
  }

  lemma DetachedIs(st: St, p: nat, slot: nat, t: St)
    requires Sized(st) && p < |st.procs| && slot < PROC_SHM_MAX && st.procs[p].slots[slot].id < SHM_OBJS_MAX && st.procs[p].slots[slot].va != 0
    requires var pr, s := st.procs[p], st.procs[p].slots[slot]; var o := st.objs[s.id];
      && t.procs == st.procs[p := Proc(pr.slots[slot := FREE_SLOT], pr.window - Range(FirstPage(s), |o.pages|))] && t.nextOff == st.nextOff
      && (if o.attaches > 1 then t.objs == st.objs[s.id := o.(attaches := o.attaches - 1)] && t.frames == st.frames
          else t.objs == st.objs[s.id := FREE_OBJ] && t.frames == st.frames - FramesOf(o.pages))
    ensures t == Detached(st, p, slot)
  {
  }

  lemma DetachFree(st: St, p: nat, i: nat)
    requires Inv(st) && p < |st.procs| && i < PROC_SHM_MAX
    ensures st.procs[p].slots[i].id < SHM_OBJS_MAX && (st.procs[p].slots[i].va == 0 ==> Detached(st, p, i) == st)
  {
    InSlot(st, p, i);
  }

  lemma ForkStarts(st: St, c: nat, p: nat)
    requires Inv(st) && c < |st.procs| && p < |st.procs| && c != p && st.procs[c] == NoSlots()
    requires forall i :: 0 <= i < PROC_SHM_MAX ==> st.procs[p].slots[i].id < SHM_OBJS_MAX
    ensures Forked(st, c, p, 0) == st && Copied(st, st, c, p, 0, 0)
  {
    CopiedNone(st, c, p);
  }
}
