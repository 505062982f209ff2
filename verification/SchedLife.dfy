/** What becomes of a task after a call: task_exit is final, msleep lasts until a tick reaches the
    deadline the caller set, and a task that keeps its CPU is asked to leave it when its quantum
    is used up. */
module SchedLife {
  import opened Wrappers
  import opened SchedTable
  import opened Sched
  import opened SchedSafety
  import opened SchedFairness
  import opened SchedRace
  import opened SchedOrder

  /** CPU c is where task t's call `op` marks it. */
  ghost predicate CallsAt(s: Sys, c: nat, t: nat, op: Op) {
    At(s, c) && s.cpus[c].place.t == t && s.cpus[c].place.at.Held? && s.cpus[c].place.at.op == op
  }

  /** Step i of the run is the one in which task t's call `op` marks it. */
  ghost predicate Takes(ss: seq<Sys>, es: seq<Event>, i: nat, t: nat, op: Op) {
    i < |es| < |ss| && es[i].Mark? && CallsAt(ss[i], es[i].c, t, op)
  }

  /** Step i is task t writing its deadline. */
  ghost predicate Sets(ss: seq<Sys>, es: seq<Event>, i: nat, t: nat) {
    i < |es| < |ss| && es[i].Deadline? && AtBody(ss[i], es[i].c) && ss[i].cpus[es[i].c].place.t == t
  }

  predicate StateIs(s: Sys, t: nat, st: TaskState) {
    t < |s.tb.tasks| && s.tb.tasks[t].state == st
  }

  /** The only control t still has is to leave the CPU it is on. */
  ghost predicate Leaving(s: Sys, t: nat) {
    forall c :: 0 <= c < |s.cpus| && OnCpu(s, c, t) ==> ParkingAt(s, c, t)
  }

  lemma OffLeaves(m: bool, s: Sys, t: nat)
    requires Inv(m, s) && t < |s.tb.tasks| && s.tb.tasks[t].state != Running
    ensures Leaving(s, t)
  {
    forall c | 0 <= c < |s.cpus| && OnCpu(s, c, t) ensures ParkingAt(s, c, t) {
      assert CpuInv(m, s, c);
    }
  }

  /** How a step moves a task that is in use, the call it makes apart: DEAD is final, a sleeper is
      moved by a due tick alone, and only the task itself writes its deadline. */
  ghost predicate LifeStep(s: Sys, e: Event, s': Sys, t: nat)
    requires t < |s.tb.tasks| == |s'.tb.tasks|
  {
    var a, b := s.tb.tasks[t], s'.tb.tasks[t];
    && (a.state == Dead ==> b.state == Dead)
    && (a.state == Sleeping ==>
        if e.Tick? && a.wakeAt <= e.now then b.state == Ready && s.tb.rqSeq < b.key <= s'.tb.rqSeq
        else b.state == Sleeping)
    && (a.state != Unused && !(e.Deadline? && AtBody(s, e.c) && s.cpus[e.c].place.t == t) ==> b.wakeAt == a.wakeAt)
    && (e.Deadline? && AtBody(s, e.c) && s.cpus[e.c].place.t == t ==> b.wakeAt == e.at)
    && (a.state != Unused ==> b.state != Unused)
  }

  lemma WakeLife(m: bool, s: Sys, e: Event, t: nat)
    requires Inv(m, s) && e.WakeUp? && Enabled(m, s, e) && t < |s.tb.tasks| == |Next(m, s, e).tb.tasks|
    ensures LifeStep(s, e, Next(m, s, e), t)
  {
    var ql :| Queues(s, ql);
    WakeTouches(m, s, e, ql);
    assert WaitInv(s, t);
    hide Owed, Queues, QueueHolds, IsList;
  }

  /** A primitive finds its caller RUNNING, and so do a preemption and a deadline. */
  lemma ActsOnRunning(m: bool, s: Sys, e: Event)
    requires Inv(m, s) && Sound(m, s) && Enabled(m, s, e) && (e.Mark? || e.Link? || e.Deadline?)
    ensures var t := s.cpus[e.c].place.t; StateIs(s, t, Running)
    ensures e.Deadline? ==> s.cpus[e.c].current == Some(s.cpus[e.c].place.t)
    ensures e.Mark? || e.Link? ==> s.cpus[s.cpus[e.c].place.at.pc].current == Some(s.cpus[e.c].place.t)
  {
    assert CpuInv(m, s, e.c) && CpuShape(s, e.c);
    if e.Mark? || e.Link? { TargetIsCaller(m, s, e.c, s.cpus[e.c].place.at.pc); }
    hide Queues, TaskInv, WaitInv, Owed;
  }

  lemma LifeStepHolds(m: bool, s: Sys, e: Event, t: nat)
    requires Inv(m, s) && Sound(m, s) && Enabled(m, s, e) && t < |s.tb.tasks| == |Next(m, s, e).tb.tasks|
    ensures LifeStep(s, e, Next(m, s, e), t)
  {
    if e.WakeUp? {
      WakeLife(m, s, e, t);
    } else {
      assert TaskInv(m, s, t);
      if e.Mark? || e.Link? || e.Deadline? { ActsOnRunning(m, s, e); }
      hide Inv, TaskInv, CpuShape, PlaceOk, PointOk, IsPick, QueueHolds;
      if e.Tick? { ExpireMeaning(s.tb, e.now, 0); }
      LifeByEvent(m, s, e, t);
    }
  }

  lemma LifeByEvent(m: bool, s: Sys, e: Event, t: nat)
    requires Shape(s) && Enabled(m, s, e) && t < |s.tb.tasks| == |Next(m, s, e).tb.tasks| && !e.WakeUp?
    requires e.Launch? && s.notes[t].deferred ==> s.tb.tasks[t].state == Blocked
    requires e.Mark? || e.Link? || e.Deadline? ==> StateIs(s, s.cpus[e.c].place.t, Running)
    requires e.Deadline? ==> s.cpus[e.c].current == Some(s.cpus[e.c].place.t)
    requires e.Mark? || e.Link? ==> s.cpus[s.cpus[e.c].place.at.pc].current == Some(s.cpus[e.c].place.t)
    ensures LifeStep(s, e, Next(m, s, e), t)
  {
    hide CpuShape, PlaceOk, PointOk, QueueHolds;
    if e.Tick? { ExpireMeaning(s.tb, e.now, 0); }
  }

  /** What the call itself does to its caller. */
  lemma MarkMeans(m: bool, s: Sys, c: nat, t: nat, op: Op)
    requires Inv(m, s) && Sound(m, s) && Enabled(m, s, Mark(c)) && CallsAt(s, c, t, op)
    ensures var s' := Next(m, s, Mark(c)); t < |s.tb.tasks| == |s'.tb.tasks| && s'.tb.tasks[t].wakeAt == s.tb.tasks[t].wakeAt
    ensures var s' := Next(m, s, Mark(c));
      s'.tb.tasks[t].state == match op case Exit => Dead case Sleep => Sleeping case _ => Ready
  {
    TargetIsCaller(m, s, c, s.cpus[c].place.at.pc);
    assert CpuShape(s, c);
  }

  // ---- over a run --------------------------------------------------------------------------------

  /** From its call of task_exit on a task is DEAD: never READY, never dispatched, and executing no
      further than out of its CPU. */
  ghost predicate ExitsFinal(ss: seq<Sys>, es: seq<Event>) {
    forall i: nat, j: nat, t: nat :: Takes(ss, es, i, t, Exit) && i < j < |ss| ==>
      StateIs(ss[j], t, Dead) && Leaving(ss[j], t) && (j < |es| ==> !(es[j].Dispatch? && es[j].t == t))
  }

  /** No tick among events i, ..., j - 1 reaches the deadline. */
  ghost predicate NoneDue(es: seq<Event>, i: nat, j: nat, at: nat) {
    forall k :: i <= k < j && k < |es| && es[k].Tick? ==> es[k].now < at
  }

  predicate DueTick(es: seq<Event>, j: nat, at: nat) {
    j < |es| && es[j].Tick? && at <= es[j].now
  }

  /** t becomes READY with a ticket later than any issued. */
  ghost predicate Woken(s: Sys, s': Sys, t: nat) {
    StateIs(s', t, Ready) && s.tb.rqSeq < s'.tb.tasks[t].key <= s'.tb.rqSeq
  }

  /** From its call of msleep on a task is SLEEPING, not dispatched and executing no further than
      out of its CPU, until the first tick that reaches its deadline, and that one wakes it. */
  ghost predicate SleepsThrough(ss: seq<Sys>, es: seq<Event>) {
    forall i: nat, j: nat, t: nat ::
      Takes(ss, es, i, t, Sleep) && i < j < |ss| && t < |ss[i].tb.tasks| && NoneDue(es, i + 1, j, ss[i].tb.tasks[t].wakeAt) ==>
        && StateIs(ss[j], t, Sleeping) && Leaving(ss[j], t)
        && (j < |es| ==> !(es[j].Dispatch? && es[j].t == t))
        && (j < |es| && DueTick(es, j, ss[i].tb.tasks[t].wakeAt) ==> j + 1 < |ss| && Woken(ss[j], ss[j + 1], t))
  }

  /** A sleep lasts until the deadline its caller wrote last. */
  ghost predicate DeadlinesHold(ss: seq<Sys>, es: seq<Event>) {
    forall i: nat, j: nat, t: nat ::
      Sets(ss, es, i, t) && i < j && Takes(ss, es, j, t, Sleep) && (forall k :: i < k < j ==> !Sets(ss, es, k, t)) ==>
        t < |ss[j].tb.tasks| && ss[j].tb.tasks[t].wakeAt == es[i].at
  }

  lemma RunLife(m: bool, nCpus: nat, nTasks: nat, vals: seq<int>, ss: seq<Sys>, es: seq<Event>, i: nat, t: nat)
    requires Run(m, ss, es) && ss[0] == Boot(nCpus, nTasks, vals) && i < |es| && t < |ss[i].tb.tasks|
    requires m || nCpus < 2 || nTasks < 2
    ensures Inv(m, ss[i]) && Inv(m, ss[i + 1]) && Sound(m, ss[i]) && StepTo(m, ss[i], es[i], ss[i + 1])
    ensures |ss[i + 1].tb.tasks| == |ss[i].tb.tasks| && LifeStep(ss[i], es[i], ss[i + 1], t)
  {
    assert StepTo(m, ss[i], es[i], ss[i + 1]);
    RunInv(m, nCpus, nTasks, vals, ss, es, i);
    RunInv(m, nCpus, nTasks, vals, ss, es, i + 1);
    hide Inv, Sound, Boot, LifeStep;
    SizesKept(m, ss[i], es[i]);
    LifeStepHolds(m, ss[i], es[i], t);
  }

  lemma NotPicked(m: bool, s: Sys, e: Event, s': Sys, t: nat)
    requires StepTo(m, s, e, s') && t < |s.tb.tasks| && s.tb.tasks[t].state != Ready
    ensures !(e.Dispatch? && e.t == t)
  {
  }

  lemma TakesIn(m: bool, nCpus: nat, nTasks: nat, vals: seq<int>, ss: seq<Sys>, es: seq<Event>, i: nat, t: nat, op: Op)
    requires Run(m, ss, es) && ss[0] == Boot(nCpus, nTasks, vals) && Takes(ss, es, i, t, op) && (m || nCpus < 2 || nTasks < 2)
    ensures t < |ss[i].tb.tasks| == |ss[i + 1].tb.tasks| && ss[i + 1].tb.tasks[t].wakeAt == ss[i].tb.tasks[t].wakeAt
    ensures ss[i + 1].tb.tasks[t].state == match op case Exit => Dead case Sleep => Sleeping case _ => Ready
    ensures Inv(m, ss[i + 1])
  {
    RunInv(m, nCpus, nTasks, vals, ss, es, i);
    RunInv(m, nCpus, nTasks, vals, ss, es, i + 1);
    assert StepTo(m, ss[i], es[i], ss[i + 1]);
    hide Inv, Sound, Boot, Run;
    MarkMeans(m, ss[i], es[i].c, t, op);
  }

  lemma {:induction false} DeadStays(m: bool, nCpus: nat, nTasks: nat, vals: seq<int>, ss: seq<Sys>, es: seq<Event>, i: nat, j: nat, t: nat)
    requires Run(m, ss, es) && ss[0] == Boot(nCpus, nTasks, vals) && (m || nCpus < 2 || nTasks < 2)
    requires Takes(ss, es, i, t, Exit) && i < j < |ss|
    ensures StateIs(ss[j], t, Dead) && Inv(m, ss[j])
    decreases j
  {
    hide Boot, Inv;
    if j == i + 1 {
      TakesIn(m, nCpus, nTasks, vals, ss, es, i, t, Exit);
    } else {
      DeadStays(m, nCpus, nTasks, vals, ss, es, i, j - 1, t);
      RunLife(m, nCpus, nTasks, vals, ss, es, j - 1, t);
    }
  }

  lemma ExitIsFinal(m: bool, nCpus: nat, nTasks: nat, vals: seq<int>, ss: seq<Sys>, es: seq<Event>)
    requires Run(m, ss, es) && ss[0] == Boot(nCpus, nTasks, vals) && (m || nCpus < 2 || nTasks < 2)
    ensures ExitsFinal(ss, es)
  {
    hide Boot, Takes, Inv, Leaving;
    forall i: nat, j: nat, t: nat | Takes(ss, es, i, t, Exit) && i < j < |ss|
      ensures StateIs(ss[j], t, Dead) && Leaving(ss[j], t) && (j < |es| ==> !(es[j].Dispatch? && es[j].t == t))
    {
      DeadStays(m, nCpus, nTasks, vals, ss, es, i, j, t);
      OffLeaves(m, ss[j], t);
      if j < |es| { NotPicked(m, ss[j], es[j], ss[j + 1], t); }
    }
  }

  lemma {:induction false} SleepStays(m: bool, nCpus: nat, nTasks: nat, vals: seq<int>, ss: seq<Sys>, es: seq<Event>, i: nat, j: nat, t: nat)
    requires Run(m, ss, es) && ss[0] == Boot(nCpus, nTasks, vals) && (m || nCpus < 2 || nTasks < 2)
    requires Takes(ss, es, i, t, Sleep) && i < j < |ss| && t < |ss[i].tb.tasks| && NoneDue(es, i + 1, j, ss[i].tb.tasks[t].wakeAt)
    ensures StateIs(ss[j], t, Sleeping) && ss[j].tb.tasks[t].wakeAt == ss[i].tb.tasks[t].wakeAt && Inv(m, ss[j])
    decreases j
  {
    hide Boot, Inv;
    if j == i + 1 {
      TakesIn(m, nCpus, nTasks, vals, ss, es, i, t, Sleep);
    } else {
      SleepStays(m, nCpus, nTasks, vals, ss, es, i, j - 1, t);
      RunLife(m, nCpus, nTasks, vals, ss, es, j - 1, t);
      SleeperSetsNone(m, ss[j - 1], es[j - 1], t);
    }
  }

  lemma SleeperSetsNone(m: bool, s: Sys, e: Event, t: nat)
    requires Inv(m, s) && StateIs(s, t, Sleeping)
    ensures !(e.Deadline? && AtBody(s, e.c) && s.cpus[e.c].place.t == t)
  {
    if e.Deadline? && AtBody(s, e.c) { assert CpuInv(m, s, e.c); }
  }

  lemma SleepLasts(m: bool, nCpus: nat, nTasks: nat, vals: seq<int>, ss: seq<Sys>, es: seq<Event>)
    requires Run(m, ss, es) && ss[0] == Boot(nCpus, nTasks, vals) && (m || nCpus < 2 || nTasks < 2)
    ensures SleepsThrough(ss, es)
  {
    hide Boot, Takes, Inv, Leaving, NoneDue;
    forall i: nat, j: nat, t: nat |
      Takes(ss, es, i, t, Sleep) && i < j < |ss| && t < |ss[i].tb.tasks| && NoneDue(es, i + 1, j, ss[i].tb.tasks[t].wakeAt)
      ensures StateIs(ss[j], t, Sleeping) && Leaving(ss[j], t) && (j < |es| ==> !(es[j].Dispatch? && es[j].t == t))
      ensures j < |es| && DueTick(es, j, ss[i].tb.tasks[t].wakeAt) ==> j + 1 < |ss| && Woken(ss[j], ss[j + 1], t)
    {
      SleepStays(m, nCpus, nTasks, vals, ss, es, i, j, t);
      OffLeaves(m, ss[j], t);
      if j < |es| {
        NotPicked(m, ss[j], es[j], ss[j + 1], t);
        RunLife(m, nCpus, nTasks, vals, ss, es, j, t);
      }
    }
  }

  lemma {:induction false} DeadlineStays(m: bool, nCpus: nat, nTasks: nat, vals: seq<int>, ss: seq<Sys>, es: seq<Event>, i: nat, j: nat, t: nat)
    requires Run(m, ss, es) && ss[0] == Boot(nCpus, nTasks, vals) && (m || nCpus < 2 || nTasks < 2)
    requires Sets(ss, es, i, t) && i < j < |ss| && forall k :: i < k < j ==> !Sets(ss, es, k, t)
    ensures t < |ss[j].tb.tasks| && ss[j].tb.tasks[t].wakeAt == es[i].at && ss[j].tb.tasks[t].state != Unused
    decreases j
  {
    hide Boot, Inv;
    if j == i + 1 {
      assert StepTo(m, ss[i], es[i], ss[i + 1]);
      assert CpuShape(ss[i], es[i].c);
      RunLife(m, nCpus, nTasks, vals, ss, es, i, t);
      ActsOnRunning(m, ss[i], es[i]);
    } else {
      DeadlineStays(m, nCpus, nTasks, vals, ss, es, i, j - 1, t);
      RunLife(m, nCpus, nTasks, vals, ss, es, j - 1, t);
      assert !Sets(ss, es, j - 1, t);
    }
  }

  lemma DeadlineHolds(m: bool, nCpus: nat, nTasks: nat, vals: seq<int>, ss: seq<Sys>, es: seq<Event>)
    requires Run(m, ss, es) && ss[0] == Boot(nCpus, nTasks, vals) && (m || nCpus < 2 || nTasks < 2)
    ensures DeadlinesHold(ss, es)
  {
    hide Boot, Run;
    forall i: nat, j: nat, t: nat |
      Sets(ss, es, i, t) && i < j && Takes(ss, es, j, t, Sleep) && (forall k :: i < k < j ==> !Sets(ss, es, k, t))
      ensures t < |ss[j].tb.tasks| && ss[j].tb.tasks[t].wakeAt == es[i].at
    {
      DeadlineStays(m, nCpus, nTasks, vals, ss, es, i, j, t);
    }
  }

  /** However the calls are entered: a task created with a priority keeps it, whatever happens. */
  lemma {:induction false} PriorityKept(m: bool, ss: seq<Sys>, es: seq<Event>, i: nat, j: nat)
    requires Run(m, ss, es) && i < j <= |es| && (es[i].Create? || es[i].CreateDeferred?)
    ensures es[i].slot < |ss[j].tb.tasks| && ss[j].tb.tasks[es[i].slot].prio == es[i].prio
    ensures ss[j].tb.tasks[es[i].slot].state != Unused
    ensures j == i + 1 ==> StateIs(ss[j], es[i].slot, if es[i].Create? then Ready else Blocked)
    decreases j
  {
    RunLength(m, ss, es);
    if j == i + 1 {
      assert StepTo(m, ss[i], es[i], ss[i + 1]);
    } else {
      hide Run;
      PriorityKept(m, ss, es, i, j - 1);
      RunTicketStep(m, ss, es, j - 1, es[i].slot);
    }
  }

  predicate StoresTo(e: Event, q: nat) { e.Store? && e.q == q }

  lemma WordStep(m: bool, s: Sys, e: Event, s': Sys, q: nat)
    requires StepTo(m, s, e, s') && q < |s.vals|
    ensures |s'.vals| == |s.vals| && s'.vals[q] == if StoresTo(e, q) then e.v else s.vals[q]
  {
    SizesKept(m, s, e);
    WordKept(m, s, e);
  }

  /** However the calls are entered: the word behind a queue is what was stored in it last. */
  lemma {:induction false} LastStore(m: bool, ss: seq<Sys>, es: seq<Event>, i: nat, j: nat, q: nat)
    requires Run(m, ss, es) && i < j <= |es| && StoresTo(es[i], q) && forall k :: i < k < j ==> !StoresTo(es[k], q)
    ensures q < |ss[j].vals| && ss[j].vals[q] == es[i].v
    decreases j
  {
    RunLength(m, ss, es);
    hide StepTo;
    if j == i + 1 {
      assert StepTo(m, ss[i], es[i], ss[i + 1]);
      StoreInRange(m, ss[i], es[i], ss[i + 1]);
      WordStep(m, ss[i], es[i], ss[i + 1], q);
    } else {
      LastStore(m, ss, es, i, j - 1, q);
      assert StepTo(m, ss[j - 1], es[j - 1], ss[j - 1 + 1]);
      WordStep(m, ss[j - 1], es[j - 1], ss[j], q);
    }
  }

  lemma StoreInRange(m: bool, s: Sys, e: Event, s': Sys)
    requires StepTo(m, s, e, s') && e.Store?
    ensures e.q < |s.vals|
  {
  }

  // ---- the quantum -------------------------------------------------------------------------------

  /** The ticks CPU c takes among events i, ..., j - 1. */
  function TicksOn(es: seq<Event>, c: nat, i: nat, j: nat): nat
    requires j <= |es|
    decreases j
  {
    if j <= i then 0 else TicksOn(es, c, i, j - 1) + if es[j - 1].Tick? && es[j - 1].c == c then 1 else 0
  }

  /** t is on CPU c and RUNNING. */
  ghost predicate RunsOn(s: Sys, c: nat, t: nat) {
    c < |s.cpus| && OnCpu(s, c, t) && StateIs(s, t, Running)
  }

  /** Only a tick of its own CPU charges a running task, and a charge that leaves nothing asks for
      a preemption, which stays asked for until it happens. */
  ghost predicate Charged(s: Sys, e: Event, s': Sys, c: nat, t: nat)
    requires t < |s.tb.tasks| == |s'.tb.tasks| && c < |s.cpus| == |s'.cpus|
  {
    var q, q' := s.tb.tasks[t].quantum, s'.tb.tasks[t].quantum;
    && q' == (if e.Tick? && e.c == c && q > 0 then q - 1 else q)
    && (s.cpus[c].need || (e.Tick? && e.c == c && q' == 0) ==> s'.cpus[c].need)
  }

  lemma WakeCharges(m: bool, s: Sys, e: Event, c: nat, t: nat)
    requires Inv(m, s) && e.WakeUp? && Enabled(m, s, e) && RunsOn(s, c, t)
    requires |Next(m, s, e).cpus| == |s.cpus| && |Next(m, s, e).tb.tasks| == |s.tb.tasks|
    ensures Charged(s, e, Next(m, s, e), c, t)
  {
    var ql :| Queues(s, ql);
    WakeTouches(m, s, e, ql);
    assert WaitInv(s, t);
    hide Owed, Queues, QueueHolds, IsList;
  }

  /** What an event meets that is not about t's CPU. */
  lemma NotOurs(m: bool, s: Sys, e: Event, c: nat, t: nat)
    requires Inv(m, s) && Sound(m, s) && Enabled(m, s, e) && RunsOn(s, c, t)
    ensures s.cpus[c].current == Some(t)
    ensures e.Tick? && e.c != c ==> s.cpus[e.c].current != Some(t)
    ensures e.Launch? ==> e.slot != t
  {
    assert CpuInv(m, s, c);
    if e.Tick? && e.c != c { assert CpuInv(m, s, e.c) && !SameTask(s.cpus[c].place, s.cpus[e.c].place); }
    if e.Launch? { assert TaskInv(m, s, t); }
    hide Queues, Owed;
  }

  lemma ChargeByEvent(m: bool, s: Sys, e: Event, c: nat, t: nat)
    requires Shape(s) && Enabled(m, s, e) && !e.WakeUp? && RunsOn(s, c, t) && RunsOn(Next(m, s, e), c, t)
    requires |Next(m, s, e).cpus| == |s.cpus| && |Next(m, s, e).tb.tasks| == |s.tb.tasks|
    requires s.cpus[c].current == Some(t) && (e.Tick? && e.c != c ==> s.cpus[e.c].current != Some(t)) && (e.Launch? ==> e.slot != t)
    ensures Charged(s, e, Next(m, s, e), c, t)
  {
    hide CpuShape, PointOk, QueueHolds, OnCpu;
    if e.Tick? { ExpireMeaning(s.tb, e.now, 0); }
  }

  lemma QuantumStep(m: bool, s: Sys, e: Event, c: nat, t: nat)
    requires Inv(m, s) && Sound(m, s) && Enabled(m, s, e) && RunsOn(s, c, t) && RunsOn(Next(m, s, e), c, t)
    ensures |Next(m, s, e).cpus| == |s.cpus| && |Next(m, s, e).tb.tasks| == |s.tb.tasks|
    ensures t < |s.tb.tasks| && c < |s.cpus| && Charged(s, e, Next(m, s, e), c, t)
  {
    hide Next, Enabled, Inv, Charged;
    InvShape(m, s);
    SizesKept(m, s, e);
    if e.WakeUp? {
      WakeCharges(m, s, e, c, t);
    } else {
      NotOurs(m, s, e, c, t);
      ChargeByEvent(m, s, e, c, t);
    }
  }

  lemma InvShape(m: bool, s: Sys)
    requires Inv(m, s)
    ensures Shape(s)
  {
  }

  /** What is left of the quantum after n ticks, and the request once nothing is. */
  ghost predicate Spent(s: Sys, c: nat, t: nat, n: nat) {
    && RunsOn(s, c, t) && s.tb.tasks[t].quantum == (if n <= SCHED_QUANTUM then SCHED_QUANTUM - n else 0)
    && (n >= SCHED_QUANTUM ==> s.cpus[c].need)
  }

  lemma SpentMore(s: Sys, e: Event, s': Sys, c: nat, t: nat, n: nat)
    requires Spent(s, c, t, n) && RunsOn(s', c, t) && |s.tb.tasks| == |s'.tb.tasks| && |s.cpus| == |s'.cpus|
    requires Charged(s, e, s', c, t)
    ensures Spent(s', c, t, n + if e.Tick? && e.c == c then 1 else 0)
  {
    hide OnCpu;
  }

  lemma FreshQuantum(m: bool, s: Sys, s': Sys, c: nat, t: nat)
    requires StepTo(m, s, Dispatch(c, t), s')
    ensures Spent(s', c, t, 0)
  {
  }

  /** A task dispatched on a CPU that keeps it has its quantum less that CPU's ticks left, and
      once they have used it up the CPU is asked to preempt it. */
  lemma {:induction false} QuantumUsed(m: bool, nCpus: nat, nTasks: nat, vals: seq<int>, ss: seq<Sys>, es: seq<Event>, i: nat, j: nat, c: nat, t: nat)
    requires Run(m, ss, es) && ss[0] == Boot(nCpus, nTasks, vals) && (m || nCpus < 2 || nTasks < 2)
    requires i < j <= |es| && es[i] == Dispatch(c, t) && forall k :: i < k <= j ==> RunsOn(ss[k], c, t)
    ensures Spent(ss[j], c, t, TicksOn(es, c, i + 1, j))
    decreases j
  {
    hide Boot, Inv, Spent, RunsOn, StepTo, Charged;
    assert RunsOn(ss[j], c, t);
    if j == i + 1 {
      assert StepTo(m, ss[i], es[i], ss[i + 1]);
      FreshQuantum(m, ss[i], ss[j], c, t);
    } else {
      QuantumUsed(m, nCpus, nTasks, vals, ss, es, i, j - 1, c, t);
      assert RunsOn(ss[j - 1], c, t);
      assert StepTo(m, ss[j - 1], es[j - 1], ss[j - 1 + 1]);
      RunInv(m, nCpus, nTasks, vals, ss, es, j - 1);
      ChargedStep(m, ss[j - 1], es[j - 1], ss[j], c, t);
      SpentMore(ss[j - 1], es[j - 1], ss[j], c, t, TicksOn(es, c, i + 1, j - 1));
    }
  }

  lemma ChargedStep(m: bool, s: Sys, e: Event, s': Sys, c: nat, t: nat)
    requires StepTo(m, s, e, s') && Inv(m, s) && Sound(m, s) && RunsOn(s, c, t) && RunsOn(s', c, t)
    ensures t < |s.tb.tasks| == |s'.tb.tasks| && c < |s.cpus| == |s'.cpus| && Charged(s, e, s', c, t)
  {
    hide Inv, Enabled, Next, Charged;
    QuantumStep(m, s, e, c, t);
  }

  /** The preemption then takes it off that CPU, READY behind everyone of its priority. */
  lemma PreemptRequeues(m: bool, s: Sys, c: nat, t: nat)
    requires Inv(m, s) && Enabled(m, s, Preempt(c)) && RunsOn(s, c, t)
    ensures var s' := Next(m, s, Preempt(c)); Woken(s, s', t) && !s'.cpus[c].need && ParkingAt(s', c, t)
  {
    assert CpuInv(m, s, c);
  }

  // ---- exactly when ------------------------------------------------------------------------------

  /** Task 0's call on CPU 1 reaches CPU 0's task. */
  lemma CallMisses(n: nat, k: nat, op: Op)
    requires n >= 2 && k >= 2 && !op.Wait? && Shape(Bad(Start0(n, k), op, 19)) && Plain(Start0(n, k))
    ensures var s := Bad(Start0(n, k), op, 19);
      && Enabled(false, s, Mark(1)) && CallsAt(s, 1, 0, op) && StateIs(s, 0, Running)
      && StateIs(Next(false, s, Mark(1)), 0, Running)
  {
    hide Shape;
  }

  /** Unmasked, a call resumed on another CPU marks another task: its caller goes on RUNNING. */
  lemma WrongCaller(n: nat, k: nat, op: Op) returns (ss: seq<Sys>, es: seq<Event>, i: nat)
    requires n >= 2 && k >= 2 && !op.Wait?
    ensures RunFrom(false, n, k, ss, es) && i + 1 < |ss|
    ensures Takes(ss, es, i, 0, op) && StateIs(ss[i], 0, Running) && StateIs(ss[i + 1], 0, Running)
  {
    var s := Bad(Start0(n, k), op, 19);
    BadReachable(n, k, op, 19);
    CallMisses(n, k, op);
    hide Next, Enabled, Bad, Boot, Shape;
    var us: seq<Sys>, fs: seq<Event>, vals: seq<int> :| Run(false, us, fs) && us[0] == Boot(n, k, vals) && us[|fs|] == s;
    i, es := |fs|, fs + [Mark(1)];
    ss := us + [Next(false, s, Mark(1))];
    Longer(false, us, fs, Mark(1), Next(false, s, Mark(1)));
    assert ss[0] == Boot(n, k, vals);
  }

  /** Exactly when task_exit is final for its caller in every run. */
  lemma ExitExactly(m: bool, n: nat, k: nat)
    ensures (forall ss: seq<Sys>, es: seq<Event> :: RunFrom(m, n, k, ss, es) ==> ExitsFinal(ss, es)) <==> m || n < 2 || k < 2
  {
    hide ExitsFinal, Boot;
    if m || n < 2 || k < 2 {
      forall ss: seq<Sys>, es: seq<Event> | RunFrom(m, n, k, ss, es) ensures ExitsFinal(ss, es) {
        var vals :| ss[0] == Boot(n, k, vals);
        ExitIsFinal(m, n, k, vals, ss, es);
      }
    } else {
      var ss, es, i := WrongCaller(n, k, Exit);
      NotFinal(ss, es, i, 0);
    }
  }

  lemma NotFinal(ss: seq<Sys>, es: seq<Event>, i: nat, t: nat)
    requires i + 1 < |ss| && Takes(ss, es, i, t, Exit) && !StateIs(ss[i + 1], t, Dead)
    ensures !ExitsFinal(ss, es)
  {
  }

  /** Exactly when msleep puts its caller to sleep until its deadline in every run. */
  lemma SleepExactly(m: bool, n: nat, k: nat)
    ensures (forall ss: seq<Sys>, es: seq<Event> :: RunFrom(m, n, k, ss, es) ==> SleepsThrough(ss, es)) <==> m || n < 2 || k < 2
  {
    hide SleepsThrough, Boot;
    if m || n < 2 || k < 2 {
      forall ss: seq<Sys>, es: seq<Event> | RunFrom(m, n, k, ss, es) ensures SleepsThrough(ss, es) {
        var vals :| ss[0] == Boot(n, k, vals);
        SleepLasts(m, n, k, vals, ss, es);
      }
    } else {
      var ss, es, i := WrongCaller(n, k, Sleep);
      NotAsleep(ss, es, i, 0);
    }
  }

  lemma NotAsleep(ss: seq<Sys>, es: seq<Event>, i: nat, t: nat)
    requires i + 1 < |ss| && Takes(ss, es, i, t, Sleep) && !StateIs(ss[i + 1], t, Sleeping)
    requires t < |ss[i].tb.tasks|
    ensures !SleepsThrough(ss, es)
  {
    assert NoneDue(es, i + 1, i + 1, ss[i].tb.tasks[t].wakeAt);
  }
}
