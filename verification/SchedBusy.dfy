/** A bound that needs no assumption on how the primitives are entered: every CPU that executes a
    task, and every link of a wait queue, is paid for by a RUNNING or BLOCKED task.  A primitive
    that marks the wrong task leaves its caller RUNNING, so the account never runs short. */
module SchedBusy {
  import opened Limits
  import opened Seqs
  import opened Wrappers
  import opened SchedTable
  import opened Sched
  import opened SchedSafety

  // ---- totals ---------------------------------------------------------------------------------

  ghost function Total<T>(xs: seq<T>, f: T -> int): int {
    if xs == [] then 0 else Total(xs[..|xs| - 1], f) + f(xs[|xs| - 1])
  }

  lemma {:induction false} TotalOne<T>(xs: seq<T>, ys: seq<T>, i: nat, f: T -> int)
    requires i < |xs| == |ys| && forall j :: 0 <= j < |xs| && j != i ==> ys[j] == xs[j]
    ensures Total(ys, f) == Total(xs, f) - f(xs[i]) + f(ys[i])
    decreases |xs|
  {
    var n := |xs| - 1;
    if i == n {
      assert ys[..n] == xs[..n];
    } else {
      TotalOne(xs[..n], ys[..n], i, f);
    }
  }

  lemma {:induction false} TotalSame<T>(xs: seq<T>, ys: seq<T>, f: T -> int)
    requires |xs| == |ys| && forall j :: 0 <= j < |xs| ==> f(ys[j]) == f(xs[j])
    ensures Total(ys, f) == Total(xs, f)
    decreases |xs|
  {
    if xs != [] { TotalSame(xs[..|xs| - 1], ys[..|xs| - 1], f); }
  }

  lemma {:induction false} TotalAtMost<T>(xs: seq<T>, i: nat, f: T -> int)
    requires forall j :: 0 <= j < |xs| ==> f(xs[j]) <= 0
    ensures Total(xs, f) <= 0 && (i < |xs| ==> Total(xs, f) <= f(xs[i]))
    decreases |xs|
  {
    if xs != [] { TotalAtMost(xs[..|xs| - 1], i, f); }
  }

  // ---- the account ------------------------------------------------------------------------------

  /** Executing a task, or about to. */
  predicate Active(p: Place) {
    p.Dispatched? || (p.Exec? && !p.at.Parking?)
  }

  ghost function TaskWeight(x: Tcb): int {
    Bit(x.state == Running || x.state == Blocked) - Bit(x.next.Some?)
  }

  ghost function NoteWeight(n: Note): int { -Bit(n.deferred) }

  ghost function CpuWeight(c: Cpu): int { -Bit(Active(c.place)) }

  ghost function HeadWeight(h: Option<nat>): int { -Bit(h.Some?) }

  /** RUNNING and BLOCKED tasks, less those not launched yet, less executing CPUs, less links. */
  ghost function Spare(s: Sys): int {
    Total(s.tb.tasks, TaskWeight) + Total(s.notes, NoteWeight) + Total(s.cpus, CpuWeight) + Total(s.tb.heads, HeadWeight)
  }

  ghost predicate Unreferenced(s: Sys, t: nat) {
    && (forall c :: 0 <= c < |s.cpus| ==> s.cpus[c].current != Some(t))
    && (forall q :: 0 <= q < |s.tb.heads| ==> s.tb.heads[q] != Some(t))
    && forall w :: 0 <= w < |s.tb.tasks| ==> s.tb.tasks[w].next != Some(t)
  }

  /** A slot not in use or not launched yet is known to nobody. */
  ghost predicate FreshOk(s: Sys, t: nat)
    requires |s.notes| == |s.tb.tasks| && t < |s.notes|
  {
    && (s.tb.tasks[t].state == Unused || s.notes[t].deferred ==> Unreferenced(s, t))
    && (s.notes[t].deferred ==> s.tb.tasks[t].state == Blocked)
  }

  ghost predicate AllFresh(s: Sys) {
    |s.notes| == |s.tb.tasks| && forall t :: 0 <= t < |s.notes| ==> FreshOk(s, t)
  }

  // ---- unlaunched slots stay unknown ----------------------------------------------------------------

  lemma {:induction false} InList(ts: seq<Tcb>, h: Option<nat>, xs: seq<nat>, i: nat)
    requires IsList(ts, h, xs) && i < |xs|
    ensures h == Some(xs[i]) || exists w :: 0 <= w < |ts| && ts[w].next == Some(xs[i])
    decreases |xs|
  {
    if i > 0 {
      InList(ts, ts[xs[0]].next, xs[1..], i - 1);
      assert xs[1..][i - 1] == xs[i];
    }
  }

  /** Nobody is on a wait queue without being referenced. */
  lemma NotSwept(s: Sys, e: Event, t: nat)
    requires Shape(s) && e.WakeUp? && Enabled(false, s, e) && Unreferenced(s, t)
    ensures t !in e.xs
  {
    if t in e.xs {
      var i :| 0 <= i < |e.xs| && e.xs[i] == t;
      InList(s.tb.tasks, s.tb.heads[e.q], e.xs, i);
    }
  }

  /** Where a slot in use, or launched, comes from. */
  lemma StillFresh(m: bool, s: Sys, e: Event, t: nat)
    requires Shape(s) && AllFresh(s) && Enabled(m, s, e) && t < |s.notes|
    requires |Next(m, s, e).notes| == |Next(m, s, e).tb.tasks| == |s.notes|
    requires Next(m, s, e).tb.tasks[t].state == Unused || Next(m, s, e).notes[t].deferred
    ensures s.tb.tasks[t].state == Unused || s.notes[t].deferred
  {
    if e.Tick? { ExpireMeaning(s.tb, e.now, 0); }
    if e.WakeUp? { WakeMeaning(s.tb, e.q, e.xs); }
    hide FreshOk;
  }

  lemma CurrentUnknown(m: bool, s: Sys, e: Event, t: nat, c: nat)
    requires Shape(s) && Enabled(m, s, e) && t < |s.notes| && FreshOk(s, t) && c < |s.cpus| == |Next(m, s, e).cpus|
    requires s.tb.tasks[t].state == Unused || s.notes[t].deferred
    ensures Next(m, s, e).cpus[c].current != Some(t)
  {
    hide IsList, Distinct, PointOk;
  }

  lemma HeadUnknown(m: bool, s: Sys, e: Event, t: nat, q: nat)
    requires Shape(s) && Enabled(m, s, e) && t < |s.notes| && FreshOk(s, t) && q < |s.tb.heads| == |Next(m, s, e).tb.heads|
    requires s.tb.tasks[t].state == Unused || s.notes[t].deferred
    ensures Next(m, s, e).tb.heads[q] != Some(t)
  {
    if e.WakeUp? { WakeMeaning(s.tb, e.q, e.xs); }
    if e.Link? { assert CpuShape(s, s.cpus[e.c].place.at.pc); }
    hide IsList, Distinct, PointOk;
  }

  lemma NextUnknown(m: bool, s: Sys, e: Event, t: nat, w: nat)
    requires Shape(s) && Enabled(m, s, e) && t < |s.notes| && FreshOk(s, t) && w < |s.tb.tasks| == |Next(m, s, e).tb.tasks|
    requires s.tb.tasks[t].state == Unused || s.notes[t].deferred
    ensures Next(m, s, e).tb.tasks[w].next != Some(t)
  {
    if e.Tick? { ExpireMeaning(s.tb, e.now, 0); }
    if e.WakeUp? { WakeMeaning(s.tb, e.q, e.xs); }
    hide IsList, Distinct, PointOk;
  }

  lemma StillUnknown(m: bool, s: Sys, e: Event, t: nat)
    requires Shape(s) && AllFresh(s) && Enabled(m, s, e) && t < |s.notes|
    requires s.tb.tasks[t].state == Unused || s.notes[t].deferred
    ensures Unreferenced(Next(m, s, e), t)
  {
    assert FreshOk(s, t);
    SizesKept(m, s, e);
    var s' := Next(m, s, e);
    forall c | 0 <= c < |s'.cpus| ensures s'.cpus[c].current != Some(t) { CurrentUnknown(m, s, e, t, c); }
    forall q | 0 <= q < |s'.tb.heads| ensures s'.tb.heads[q] != Some(t) { HeadUnknown(m, s, e, t, q); }
    forall w | 0 <= w < |s'.tb.tasks| ensures s'.tb.tasks[w].next != Some(t) { NextUnknown(m, s, e, t, w); }
    hide Shape, AllFresh, FreshOk, Enabled, Next;
  }

  lemma SweptBlocked(s: Sys, e: Event, t: nat)
    requires Shape(s) && e.WakeUp? && Enabled(false, s, e) && t < |s.notes| && FreshOk(s, t) && s.notes[t].deferred
    ensures t < |WakeList(s.tb, e.q, e.xs).tasks| && WakeList(s.tb, e.q, e.xs).tasks[t].state == Blocked
  {
    NotSwept(s, e, t);
    WakeMeaning(s.tb, e.q, e.xs);
  }

  lemma StillBlocked(m: bool, s: Sys, e: Event, t: nat)
    requires Shape(s) && Enabled(m, s, e) && t < |s.notes| && FreshOk(s, t)
    requires |Next(m, s, e).notes| == |Next(m, s, e).tb.tasks| == |s.notes|
    requires Next(m, s, e).notes[t].deferred
    ensures Next(m, s, e).tb.tasks[t].state == Blocked
  {
    if e.Tick? { ExpireMeaning(s.tb, e.now, 0); }
    if e.WakeUp? { SweptBlocked(s, e, t); }
    hide IsList, Distinct, PointOk, WakeList, ExpireFrom;
  }

  lemma FreshKept(m: bool, s: Sys, e: Event)
    requires Shape(s) && AllFresh(s) && Enabled(m, s, e)
    ensures AllFresh(Next(m, s, e))
  {
    var s' := Next(m, s, e);
    SizesKept(m, s, e);
    forall t | 0 <= t < |s.notes| ensures FreshOk(s', t) {
      if s'.tb.tasks[t].state == Unused || s'.notes[t].deferred {
        StillFresh(m, s, e, t);
        StillUnknown(m, s, e, t);
      }
      assert FreshOk(s, t);
      if s'.notes[t].deferred { StillBlocked(m, s, e, t); }
    }
  }

  // ---- the account never shrinks -----------------------------------------------------------------------

  /** Only the acting CPU's weight changes. */
  lemma CpusTotal(m: bool, s: Sys, e: Event)
    requires Shape(s) && Enabled(m, s, e)
    ensures |Next(m, s, e).cpus| == |s.cpus|
    ensures ActsOn(e).None? ==> Total(Next(m, s, e).cpus, CpuWeight) == Total(s.cpus, CpuWeight)
    ensures ActsOn(e).Some? ==> e.c < |s.cpus| && Total(Next(m, s, e).cpus, CpuWeight) == Total(s.cpus, CpuWeight) - CpuWeight(s.cpus[e.c]) + CpuWeight(Next(m, s, e).cpus[e.c])
  {
    SizesKept(m, s, e);
    if ActsOn(e).Some? { TotalOne(s.cpus, Next(m, s, e).cpus, e.c, CpuWeight); }
    hide Shape, IsPick, NoneReady;
  }

  lemma NotesTotal(m: bool, s: Sys, e: Event)
    requires Shape(s) && AllFresh(s) && Enabled(m, s, e) && |Next(m, s, e).notes| == |s.notes|
    ensures Total(Next(m, s, e).notes, NoteWeight) == Total(s.notes, NoteWeight) + Bit(e.Launch?) - Bit(e.CreateDeferred?)
  {
    var ns := Next(m, s, e).notes;
    if e.Launch? || e.CreateDeferred? {
      assert FreshOk(s, e.slot);
      TotalOne(s.notes, ns, e.slot, NoteWeight);
    } else {
      if e.Create? { assert FreshOk(s, e.slot); }
      forall t | 0 <= t < |ns| ensures NoteWeight(ns[t]) == NoteWeight(s.notes[t]) {}
      TotalSame(s.notes, ns, NoteWeight);
    }
  }

  /** One task, which leaves RUNNING or BLOCKED as its CPU stops executing, or the reverse. */
  ghost function Marked(s: Sys, e: Event): Option<nat> {
    match e
    case Create(slot, _) => Some(slot)
    case CreateDeferred(slot, _) => Some(slot)
    case Launch(slot) => Some(slot)
    case Preempt(c) => if c < |s.cpus| then s.cpus[c].current else None
    case Mark(c) => if At(s, c) && s.cpus[c].place.at.Held? && s.cpus[c].place.at.pc < |s.cpus| then s.cpus[s.cpus[c].place.at.pc].current else None
    case Link(c) => if At(s, c) && s.cpus[c].place.at.Linking? && s.cpus[c].place.at.pc < |s.cpus| then s.cpus[s.cpus[c].place.at.pc].current else None
    case Dispatch(_, t) => Some(t)
    case _ => None
  }

  lemma TasksTotal(m: bool, s: Sys, e: Event)
    requires Shape(s) && Enabled(m, s, e) && !e.WakeUp? && |Next(m, s, e).tb.tasks| == |s.tb.tasks|
    ensures Marked(s, e).None? ==> Total(Next(m, s, e).tb.tasks, TaskWeight) == Total(s.tb.tasks, TaskWeight)
    ensures Marked(s, e).Some? ==>
      var u := Marked(s, e).value;
      && u < |s.tb.tasks|
      && Total(Next(m, s, e).tb.tasks, TaskWeight) == Total(s.tb.tasks, TaskWeight) - TaskWeight(s.tb.tasks[u]) + TaskWeight(Next(m, s, e).tb.tasks[u])
  {
    var ts := Next(m, s, e).tb.tasks;
    if Marked(s, e).Some? {
      MarkedOnly(m, s, e);
      TotalOne(s.tb.tasks, ts, Marked(s, e).value, TaskWeight);
    } else {
      if e.Tick? { ExpireMeaning(s.tb, e.now, 0); }
      forall t | 0 <= t < |ts| ensures TaskWeight(ts[t]) == TaskWeight(s.tb.tasks[t]) { UnmarkedSame(m, s, e, t); }
      TotalSame(s.tb.tasks, ts, TaskWeight);
    }
  }

  lemma MarkedOnly(m: bool, s: Sys, e: Event)
    requires Shape(s) && Enabled(m, s, e) && Marked(s, e).Some? && |Next(m, s, e).tb.tasks| == |s.tb.tasks|
    ensures Marked(s, e).value < |s.tb.tasks|
    ensures forall t :: 0 <= t < |s.tb.tasks| && t != Marked(s, e).value ==> Next(m, s, e).tb.tasks[t] == s.tb.tasks[t]
  {
    if e.Preempt? { assert CpuShape(s, e.c); }
    if e.Mark? || e.Link? { assert CpuShape(s, e.c) && CpuShape(s, s.cpus[e.c].place.at.pc); }
  }

  lemma UnmarkedSame(m: bool, s: Sys, e: Event, t: nat)
    requires Shape(s) && Enabled(m, s, e) && Marked(s, e).None? && !e.WakeUp? && t < |s.tb.tasks| == |Next(m, s, e).tb.tasks|
    ensures TaskWeight(Next(m, s, e).tb.tasks[t]) == TaskWeight(s.tb.tasks[t])
  {
    if e.Tick? { ExpireMeaning(s.tb, e.now, 0); }
  }

  lemma HeadsTotal(m: bool, s: Sys, e: Event)
    requires Shape(s) && Enabled(m, s, e) && !e.WakeUp? && |Next(m, s, e).tb.heads| == |s.tb.heads|
    ensures !e.Link? ==> Total(Next(m, s, e).tb.heads, HeadWeight) == Total(s.tb.heads, HeadWeight)
    ensures e.Link? ==>
      var q := s.cpus[e.c].place.at.q;
      && q < |s.tb.heads| && Next(m, s, e).tb.heads[q].Some?
      && Total(Next(m, s, e).tb.heads, HeadWeight) == Total(s.tb.heads, HeadWeight) - HeadWeight(s.tb.heads[q]) - 1
  {
    if e.Link? {
      assert CpuShape(s, e.c);
      TotalOne(s.tb.heads, Next(m, s, e).tb.heads, s.cpus[e.c].place.at.q, HeadWeight);
    }
  }

  /** What the marked task and the acting CPU bring in covers what they take out. */
  lemma StepPays(m: bool, s: Sys, e: Event)
    requires Shape(s) && AllFresh(s) && Enabled(m, s, e) && !e.WakeUp?
    requires |Next(m, s, e).tb.tasks| == |s.tb.tasks| && |Next(m, s, e).cpus| == |s.cpus| && |Next(m, s, e).tb.heads| == |s.tb.heads|
    requires Marked(s, e).Some? ==> Marked(s, e).value < |s.tb.tasks|
    requires ActsOn(e).Some? ==> e.c < |s.cpus|
    ensures var s' := Next(m, s, e);
      (if Marked(s, e).Some? then TaskWeight(s'.tb.tasks[Marked(s, e).value]) - TaskWeight(s.tb.tasks[Marked(s, e).value]) else 0)
      + (if ActsOn(e).Some? then CpuWeight(s'.cpus[e.c]) - CpuWeight(s.cpus[e.c]) else 0)
      + Bit(e.Launch?) - Bit(e.CreateDeferred?)
      + (if e.Link? && s.cpus[e.c].place.at.q < |s.tb.heads| then -1 - HeadWeight(s.tb.heads[s.cpus[e.c].place.at.q]) else 0) >= 0
  {
    if e.Launch? || e.Create? || e.CreateDeferred? { assert FreshOk(s, e.slot); }
    if e.Mark? || e.Link? { assert CpuShape(s, e.c) && CpuShape(s, s.cpus[e.c].place.at.pc); }
    if e.Preempt? || e.Save? { assert CpuShape(s, e.c); }
    if e.Load? { assert Resumable(s.notes[s.cpus[e.c].place.t].ctx); }
  }

  /** One turn of the wake loop takes out one link and at most one BLOCKED or RUNNING task. */
  lemma WakeOnePays(tb: Table, q: nat, t: nat)
    requires q < |tb.heads| && t < |tb.tasks| && tb.heads[q] == Some(t)
    ensures Total(WakeOne(tb, q, t).tasks, TaskWeight) + Total(WakeOne(tb, q, t).heads, HeadWeight)
            >= Total(tb.tasks, TaskWeight) + Total(tb.heads, HeadWeight)
  {
    var r := WakeOne(tb, q, t);
    TotalOne(tb.tasks, r.tasks, t, TaskWeight);
    TotalOne(tb.heads, r.heads, q, HeadWeight);
  }

  lemma {:induction false} WakePays(tb: Table, q: nat, xs: seq<nat>)
    requires q < |tb.heads| && IsList(tb.tasks, tb.heads[q], xs) && Distinct(xs)
    requires forall i :: 0 <= i < |xs| ==> xs[i] < |tb.tasks|
    ensures Total(WakeList(tb, q, xs).tasks, TaskWeight) + Total(WakeList(tb, q, xs).heads, HeadWeight)
            >= Total(tb.tasks, TaskWeight) + Total(tb.heads, HeadWeight)
    decreases |xs|
  {
    if xs != [] {
      assert xs[0..] == xs;
      WakeStep(tb, q, xs, 0);
      WakeOnePays(tb, q, xs[0]);
      hide Total, TaskWeight, HeadWeight;
      WakePays(WakeOne(tb, q, xs[0]), q, xs[1..]);
    }
  }

  lemma SpareKept(m: bool, s: Sys, e: Event)
    requires Shape(s) && AllFresh(s) && Enabled(m, s, e)
    ensures Spare(Next(m, s, e)) >= Spare(s)
  {
    SizesKept(m, s, e);
    CpusTotal(m, s, e);
    NotesTotal(m, s, e);
    if e.WakeUp? {
      WakePays(s.tb, e.q, e.xs);
    } else {
      TasksTotal(m, s, e);
      HeadsTotal(m, s, e);
      StepPays(m, s, e);
    }
    hide Shape, Total, TaskWeight, NoteWeight, CpuWeight, HeadWeight;
  }

  ghost predicate Paid(s: Sys) { AllFresh(s) && Spare(s) >= 0 }

  lemma {:induction false} RunPaid(m: bool, nCpus: nat, nTasks: nat, vals: seq<int>, ss: seq<Sys>, es: seq<Event>, i: nat)
    requires Run(m, ss, es) && ss[0] == Boot(nCpus, nTasks, vals) && i <= |es|
    ensures Paid(ss[i]) && |ss[i].tb.tasks| == nTasks
    decreases i
  {
    if i == 0 {
      BootPaid(nCpus, nTasks, vals);
    } else {
      RunPaid(m, nCpus, nTasks, vals, ss, es, i - 1);
      assert StepTo(m, ss[i - 1], es[i - 1], ss[i - 1 + 1]);
      FreshKept(m, ss[i - 1], es[i - 1]);
      SpareKept(m, ss[i - 1], es[i - 1]);
      SizesKept(m, ss[i - 1], es[i - 1]);
    }
  }

  lemma {:induction false} TotalZero<T>(xs: seq<T>, f: T -> int)
    requires forall j :: 0 <= j < |xs| ==> f(xs[j]) == 0
    ensures Total(xs, f) == 0
    decreases |xs|
  {
    if xs != [] { TotalZero(xs[..|xs| - 1], f); }
  }

  lemma BootPaid(nCpus: nat, nTasks: nat, vals: seq<int>)
    ensures Paid(Boot(nCpus, nTasks, vals))
  {
    hide Total;
    var s := Boot(nCpus, nTasks, vals);
    TotalZero(s.tb.tasks, TaskWeight);
    TotalZero(s.notes, NoteWeight);
    TotalZero(s.cpus, CpuWeight);
    TotalZero(s.tb.heads, HeadWeight);
  }

  /** In every reachable state, however the primitives are entered: while no task is RUNNING or
      BLOCKED, no CPU executes a task. */
  lemma IdleWhenNoneRuns(m: bool, nCpus: nat, nTasks: nat, s: Sys, c: nat)
    requires Reachable(m, nCpus, nTasks, s) && c < |s.cpus|
    requires forall t :: 0 <= t < |s.tb.tasks| ==> s.tb.tasks[t].state != Running && s.tb.tasks[t].state != Blocked
    ensures !Active(s.cpus[c].place)
  {
    var ss: seq<Sys>, es: seq<Event>, vals: seq<int> :|
      Run(m, ss, es) && ss[0] == Boot(nCpus, nTasks, vals) && ss[|es|] == s;
    RunPaid(m, nCpus, nTasks, vals, ss, es, |es|);
    hide Reachable, Run, Boot;
    TotalAtMost(s.tb.tasks, 0, TaskWeight);
    TotalAtMost(s.notes, 0, NoteWeight);
    TotalAtMost(s.cpus, c, CpuWeight);
    TotalAtMost(s.tb.heads, 0, HeadWeight);
  }

  // ---- two tasks ------------------------------------------------------------------------------------

  lemma TwoTasks(ts: seq<Tcb>, t: nat, u: nat)
    requires |ts| == 2 && t < 2 && u < 2 && t != u
    ensures Total(ts, TaskWeight) == TaskWeight(ts[t]) + TaskWeight(ts[u])
  {
    assert ts[..1][..0] == [] && ts[..1][0] == ts[0];
    assert Total(ts[..1], TaskWeight) == TaskWeight(ts[0]);
  }

  /** With one of two tasks READY, an executing CPU means that the other is RUNNING or BLOCKED and
      that nobody is on a wait queue. */
  lemma ReadyLeavesOne(s: Sys, c: nat, t: nat, u: nat, q: nat)
    requires Paid(s) && |s.tb.tasks| == 2 && t < 2 && u < 2 && t != u && s.tb.tasks[t].state == Ready
    requires c < |s.cpus| && Active(s.cpus[c].place) && q <= |s.tb.heads|
    ensures s.tb.tasks[u].state == Running || s.tb.tasks[u].state == Blocked
    ensures q < |s.tb.heads| ==> s.tb.heads[q] == None
  {
    TwoTasks(s.tb.tasks, t, u);
    TotalAtMost(s.cpus, c, CpuWeight);
    TotalAtMost(s.notes, 0, NoteWeight);
    TotalAtMost(s.tb.heads, q, HeadWeight);
  }

  /** Of two READY tasks neither gets a new ticket, however the primitives are entered. */
  lemma TicketStays(m: bool, s: Sys, e: Event, t: nat, u: nat)
    requires Shape(s) && Paid(s) && Enabled(m, s, e) && |s.tb.tasks| == |Next(m, s, e).tb.tasks| == 2 && t < 2 && u < 2 && t != u
    requires s.tb.tasks[t].state == Ready && Next(m, s, e).tb.tasks[t].state == Ready && Next(m, s, e).tb.tasks[u].state == Ready
    ensures Next(m, s, e).tb.tasks[t].key == s.tb.tasks[t].key
  {
    if e.Mark? {
      assert CpuShape(s, e.c);
      ReadyLeavesOne(s, e.c, t, u, |s.tb.heads|);
    } else if e.WakeUp? {
      ReadyLeavesOne(s, e.c, t, u, e.q);
      assert e.xs == [];
    } else if e.Launch? {
      assert FreshOk(s, e.slot);
    } else if e.Tick? {
      ExpireMeaning(s.tb, e.now, 0);
    }
    hide Spare;
  }
}
