/** The invariant behind the scheduler's lock handshake, and what follows from it
    in every reachable state of any number of CPUs and tasks. */
module SchedSafety {
  import opened Seqs
  import opened Wrappers
  import opened SchedTable
  import opened Sched

  /** Entering the primitives masked, having one CPU or having one task makes the
      captured per_cpu block the caller's own. */
  ghost predicate Sound(maskedEntry: bool, s: Sys) {
    maskedEntry || |s.cpus| < 2 || |s.tb.tasks| < 2
  }

  predicate Off(st: TaskState) {
    st == Ready || st == Sleeping || st == Blocked || st == Dead
  }

  predicate Waiting(st: TaskState) {
    st == Ready || st == Sleeping || st == Blocked
  }

  /** CPU c is inside a section under task_state_lock. */
  predicate Holds(s: Sys, c: nat)
    requires c < |s.cpus|
  {
    s.cpus[c].place.Landed? ||
    (s.cpus[c].place.Exec? && (s.cpus[c].place.at.Held? || s.cpus[c].place.at.Linking? || s.cpus[c].place.at.Parking?))
  }

  predicate ParkingAt(s: Sys, c: nat, t: nat)
    requires c < |s.cpus|
  {
    s.cpus[c].place.Exec? && s.cpus[c].place.t == t && s.cpus[c].place.at.Parking?
  }

  /** Some task has changed the word behind queue q and not yet run wait_wake_all on it. */
  ghost predicate Owed(s: Sys, q: nat) {
    exists u :: 0 <= u < |s.notes| && q in s.notes[u].owes
  }

  ghost predicate ExecInv(m: bool, s: Sys, c: nat, t: nat, p: Point)
    requires Shape(s) && c < |s.cpus| && t < |s.notes|
  {
    var cpu, st := s.cpus[c], s.tb.tasks[t].state;
    && cpu.current == Some(t) && !s.notes[t].saved
    && (match p
        case Start => false
        case Body => st == Running
        case Captured(_, pc) => st == Running && (m ==> pc == c && cpu.masked)
        case Held(_, pc, _) => st == Running && cpu.masked && (m ==> pc == c)
        case Linking(q, keep, pc) => q < |s.vals| && (s.vals[q] in keep || Owed(s, q)) && st == Running && cpu.masked && (m ==> pc == c)
        case Parking(k) => Off(st) && cpu.masked && (m ==> !k.Captured?))
  }

  ghost predicate CpuInv(m: bool, s: Sys, c: nat)
    requires Shape(s) && c < |s.cpus|
  {
    var cpu := s.cpus[c];
    && (Holds(s, c) <==> s.lock && s.holder == c)
    && match cpu.place
    case Loop => !cpu.masked ==> cpu.current == None
    case Dispatched(t) => cpu.current == Some(t) && cpu.masked && s.tb.tasks[t].state == Running && s.notes[t].saved
    case Landed(t) => cpu.current == Some(t) && cpu.masked && Off(s.tb.tasks[t].state) && s.notes[t].saved
    case Exec(t, p) => ExecInv(m, s, c, t, p)
  }

  predicate SameTask(p: Place, q: Place) {
    !p.Loop? && !q.Loop? && p.t == q.t
  }

  /** A waiting task whose context is not saved is being parked by the holder of the lock. */
  ghost predicate ParkedOk(s: Sys, t: nat)
    requires Shape(s) && t < |s.notes|
  {
    Waiting(s.tb.tasks[t].state) && !s.notes[t].saved ==> s.lock && s.holder < |s.cpus| && ParkingAt(s, s.holder, t)
  }

  /** A RUNNING task is on some CPU. */
  ghost predicate Hosted(s: Sys, t: nat)
    requires t < |s.tb.tasks|
  {
    s.tb.tasks[t].state == Running ==> exists c :: 0 <= c < |s.cpus| && OnCpu(s, c, t)
  }

  ghost predicate TaskInv(m: bool, s: Sys, t: nat)
    requires Shape(s) && t < |s.notes|
  {
    && ParkedOk(s, t) && Hosted(s, t)
    && (s.notes[t].saved && m ==> !s.notes[t].ctx.Captured?)
    && (s.notes[t].deferred ==> s.tb.tasks[t].state == Blocked && s.notes[t].saved && s.tb.tasks[t].next == None)
  }

  /** A task on a queue is BLOCKED, and either its condition still asks it to wait or
      a waker that changed the condition still has to sweep the queue. */
  ghost predicate WaitInv(s: Sys, t: nat)
    requires Shape(s) && t < |s.notes|
  {
    var n := s.notes[t];
    && (n.on.Some? ==>
        && s.tb.tasks[t].state == Blocked && !n.deferred && n.on.value < |s.vals|
        && (s.vals[n.on.value] in n.keep || Owed(s, n.on.value)))
    && (n.on.None? ==> s.tb.tasks[t].next == None && (s.tb.tasks[t].state == Blocked ==> n.deferred))
    && (s.tb.tasks[t].state == Unused ==> n.owes == {})
  }

  /** ql[q] is the list hanging off queue q: acyclic, and made of exactly the tasks linked there. */
  ghost predicate Queues(s: Sys, ql: seq<seq<nat>>) {
    && |ql| == |s.tb.heads| && |s.notes| == |s.tb.tasks|
    && forall q {:trigger ql[q]} :: 0 <= q < |ql| ==>
         && Distinct(ql[q]) && IsList(s.tb.tasks, s.tb.heads[q], ql[q])
         && forall t :: t in ql[q] <==> 0 <= t < |s.notes| && s.notes[t].on == Some(q)
  }

  ghost predicate Core(m: bool, s: Sys) {
    && Shape(s)
    && (s.lock ==> s.holder < |s.cpus|)
    && (forall c {:trigger s.cpus[c]} {:trigger CpuInv(m, s, c)} :: 0 <= c < |s.cpus| ==> CpuInv(m, s, c))
    && (forall c, d {:trigger s.cpus[c], s.cpus[d]} :: 0 <= c < |s.cpus| && 0 <= d < |s.cpus| && c != d ==>
          !SameTask(s.cpus[c].place, s.cpus[d].place))
    && (forall t {:trigger s.notes[t]} {:trigger TaskInv(m, s, t)} :: 0 <= t < |s.notes| ==> TaskInv(m, s, t) && WaitInv(s, t))
  }

  lemma CoreSafe(m: bool, s: Sys)
    requires Core(m, s)
    ensures Safe(s)
  {
    if !s.lock {
      forall t | 0 <= t < |s.tb.tasks| && s.tb.tasks[t].state == Ready
        ensures s.notes[t].saved && forall c :: 0 <= c < |s.cpus| ==> !OnCpu(s, c, t)
      {
        assert TaskInv(m, s, t);
        forall c | 0 <= c < |s.cpus| ensures !OnCpu(s, c, t) {
          assert CpuInv(m, s, c);
        }
      }
    }
  }

  /** The task a primitive reaches through its captured per_cpu block is its caller. */
  lemma TargetIsCaller(m: bool, s: Sys, c: nat, pc: nat)
    requires Core(m, s) && Sound(m, s) && At(s, c)
    requires pc < |s.cpus| && s.cpus[pc].current.Some?
    requires s.cpus[c].place.at.Held? || s.cpus[c].place.at.Linking?
    requires pc == s.cpus[c].place.at.pc
    ensures s.cpus[pc].current.value == s.cpus[c].place.t
  {
    assert CpuInv(m, s, c) && CpuShape(s, c) && CpuShape(s, pc);
  }

  lemma OwedKept(s: Sys, s': Sys, q: nat)
    requires |s'.notes| == |s.notes|
    requires forall t :: 0 <= t < |s.notes| ==> s.notes[t].owes - {q} <= s'.notes[t].owes
    ensures forall r :: r != q && Owed(s, r) ==> Owed(s', r)
  {
    forall r | r != q && Owed(s, r) ensures Owed(s', r) {
      var u :| 0 <= u < |s.notes| && r in s.notes[u].owes;
      assert r in s'.notes[u].owes;
    }
  }

  // ---- every step keeps the invariant -----------------------------------------------------

  /** Only a sweep settles a debt. */
  lemma OwesKept(m: bool, s: Sys, e: Event, u: nat)
    requires Core(m, s) && Enabled(m, s, e) && !e.WakeUp? && u < |s.notes| == |Next(m, s, e).notes|
    ensures s.notes[u].owes <= Next(m, s, e).notes[u].owes
  {
    hide Owed;
    assert WaitInv(s, u);
  }

  lemma DebtsKept(m: bool, s: Sys, e: Event)
    requires Core(m, s) && Enabled(m, s, e) && !e.WakeUp?
    ensures forall q :: Owed(s, q) || (e.Store? && q == e.q) ==> Owed(Next(m, s, e), q)
  {
    SizesKept(m, s, e);
    var s' := Next(m, s, e);
    if e.Store? { assert e.q in s'.notes[s.cpus[e.c].place.t].owes; }
    hide Core, Enabled, Next;
    forall q | Owed(s, q) ensures Owed(s', q) {
      var u :| 0 <= u < |s.notes| && q in s.notes[u].owes;
      OwesKept(m, s, e, u);
      assert q in s'.notes[u].owes;
    }
  }

  /** What the single events need: sizes, who is marked, who is swept. */
  lemma EventFacts(m: bool, s: Sys, e: Event)
    requires Core(m, s) && Sound(m, s) && Enabled(m, s, e) && !e.WakeUp?
    ensures |Next(m, s, e).cpus| == |s.cpus| && |Next(m, s, e).vals| == |s.vals|
    ensures |Next(m, s, e).notes| == |s.notes| == |Next(m, s, e).tb.tasks| && |Next(m, s, e).tb.heads| == |s.tb.heads|
    ensures e.Mark? || e.Link? ==> var pc := s.cpus[e.c].place.at.pc; pc < |s.cpus| && s.cpus[pc].current == Some(s.cpus[e.c].place.t)
    ensures e.Save? ==> s.cpus[e.c].current == Some(s.cpus[e.c].place.t)
    ensures e.Tick? ==> forall t :: 0 <= t < |s.tb.tasks| ==>
      var u := ExpireFrom(s.tb, e.now, 0).tasks[t];
      if s.tb.tasks[t].state == Sleeping && s.tb.tasks[t].wakeAt <= e.now
      then u == s.tb.tasks[t].(state := Ready, key := u.key) else u == s.tb.tasks[t]
  {
    SizesKept(m, s, e);
    if e.Tick? { ExpireMeaning(s.tb, e.now, 0); }
    if e.Mark? || e.Link? { assert CpuShape(s, e.c); TargetIsCaller(m, s, e.c, s.cpus[e.c].place.at.pc); }
    if e.Save? { assert CpuInv(m, s, e.c); }
    hide Owed;
  }

  /** The CPU that takes the step, if any. */
  function ActsOn(e: Event): Option<nat> {
    match e
    case Create(_, _) => None
    case CreateDeferred(_, _) => None
    case Launch(_) => None
    case _ => Some(e.c)
  }

  lemma HolderKept(m: bool, s: Sys, e: Event)
    requires Shape(s) && (s.lock ==> s.holder < |s.cpus|) && Enabled(m, s, e)
    ensures Next(m, s, e).lock ==> Next(m, s, e).holder < |s.cpus|
  {
  }

  lemma OwnCpuKept(m: bool, s: Sys, e: Event, c: nat)
    requires Core(m, s) && Sound(m, s) && Enabled(m, s, e) && !e.WakeUp? && c < |s.cpus| && Shape(Next(m, s, e))
    requires ActsOn(e) == Some(c)
    ensures c < |Next(m, s, e).cpus| && CpuInv(m, Next(m, s, e), c)
  {
    hide WaitInv;
    EventFacts(m, s, e);
    DebtsKept(m, s, e);
    assert CpuInv(m, s, c);
  }

  /** A CPU that does not step stays as it is, and a task on it keeps its state and context. */
  lemma OtherCpuSame(m: bool, s: Sys, e: Event, c: nat)
    requires Core(m, s) && Enabled(m, s, e) && !e.WakeUp? && c < |s.cpus| && ActsOn(e) != Some(c)
    ensures c < |Next(m, s, e).cpus| && Next(m, s, e).cpus[c] == s.cpus[c]
    ensures Next(m, s, e).lock && Next(m, s, e).holder == c <==> s.lock && s.holder == c
  {
    if ActsOn(e).Some? { assert CpuInv(m, s, e.c); }
    hide Owed, TaskInv, WaitInv;
  }

  lemma Bystander(m: bool, s: Sys, e: Event, c: nat)
    requires Core(m, s) && Sound(m, s) && Enabled(m, s, e) && !e.WakeUp? && c < |s.cpus| && ActsOn(e) != Some(c) && !s.cpus[c].place.Loop?
    ensures var t := s.cpus[c].place.t;
      && t < |s.notes| == |s.tb.tasks| && |Next(m, s, e).notes| == |Next(m, s, e).tb.tasks| == |s.notes|
      && Next(m, s, e).tb.tasks[t].state == s.tb.tasks[t].state && Next(m, s, e).notes[t].saved == s.notes[t].saved
  {
    EventFacts(m, s, e);
    assert CpuInv(m, s, c) && CpuShape(s, c) && TaskInv(m, s, s.cpus[c].place.t);
    if ActsOn(e).Some? { assert CpuInv(m, s, e.c) && !SameTask(s.cpus[c].place, s.cpus[e.c].place); }
    hide Owed, WaitInv, Hosted, PointOk;
  }

  lemma OtherCpuKept(m: bool, s: Sys, e: Event, c: nat)
    requires Core(m, s) && Sound(m, s) && Enabled(m, s, e) && !e.WakeUp? && c < |s.cpus| && Shape(Next(m, s, e))
    requires ActsOn(e) != Some(c)
    ensures c < |Next(m, s, e).cpus| && CpuInv(m, Next(m, s, e), c)
  {
    OtherCpuSame(m, s, e, c);
    if !s.cpus[c].place.Loop? { Bystander(m, s, e, c); }
    EventFacts(m, s, e);
    DebtsKept(m, s, e);
    assert CpuInv(m, s, c) && CpuShape(s, c);
    WordKept(m, s, e);
    hide Owed, Next, Enabled;
  }

  lemma WordKept(m: bool, s: Sys, e: Event)
    requires Shape(s) && Enabled(m, s, e)
    ensures |Next(m, s, e).vals| == |s.vals|
    ensures forall q :: 0 <= q < |s.vals| && !(e.Store? && q == e.q) ==> Next(m, s, e).vals[q] == s.vals[q]
  {
  }

  /** No event but Dispatch puts a task on a CPU, and that one was READY. */
  lemma PlaceMoves(m: bool, s: Sys, e: Event, c: nat)
    requires Core(m, s) && Enabled(m, s, e) && c < |s.cpus| == |Next(m, s, e).cpus|
    ensures var p, q := s.cpus[c].place, Next(m, s, e).cpus[c].place;
      if e.Dispatch? && c == e.c then q == Dispatched(e.t) else q.Loop? || SameTask(p, q)
    ensures e.Dispatch? ==> !SameTask(s.cpus[c].place, Dispatched(e.t))
  {
    assert CpuInv(m, s, c);
    hide Owed;
  }

  lemma ApartKept(m: bool, s: Sys, e: Event, c: nat, d: nat)
    requires Core(m, s) && Enabled(m, s, e) && c < |s.cpus| == |Next(m, s, e).cpus| && d < |s.cpus| && c != d
    ensures !SameTask(Next(m, s, e).cpus[c].place, Next(m, s, e).cpus[d].place)
  {
    assert !SameTask(s.cpus[c].place, s.cpus[d].place);
    PlaceMoves(m, s, e, c);
    PlaceMoves(m, s, e, d);
    hide Next, Enabled, CpuInv, TaskInv, WaitInv, Shape;
  }

  lemma HostedKept(m: bool, s: Sys, e: Event, t: nat)
    requires Core(m, s) && Enabled(m, s, e) && !e.WakeUp? && t < |s.notes| && |Next(m, s, e).cpus| == |s.cpus|
    requires |Next(m, s, e).tb.tasks| == |s.tb.tasks|
    ensures Hosted(Next(m, s, e), t)
  {
    var s' := Next(m, s, e);
    assert TaskInv(m, s, t);
    hide Owed, QueueHolds, ParkedOk, WaitInv;
    if s'.tb.tasks[t].state == Running {
      NewlyRunning(m, s, e, t);
      if s.tb.tasks[t].state == Running {
        var c :| 0 <= c < |s.cpus| && OnCpu(s, c, t);
        StaysOn(m, s, e, c, t);
        assert OnCpu(s', c, t);
      } else {
        assert OnCpu(s', e.c, t);
      }
    }
  }

  lemma NewlyRunning(m: bool, s: Sys, e: Event, t: nat)
    requires Shape(s) && Enabled(m, s, e) && t < |s.tb.tasks| == |Next(m, s, e).tb.tasks| && !e.WakeUp?
    requires Next(m, s, e).tb.tasks[t].state == Running
    ensures s.tb.tasks[t].state == Running || (e.Dispatch? && e.t == t)
  {
    if e.Tick? { ExpireMeaning(s.tb, e.now, 0); }
  }

  lemma StaysOn(m: bool, s: Sys, e: Event, c: nat, t: nat)
    requires Core(m, s) && Enabled(m, s, e) && c < |s.cpus| == |Next(m, s, e).cpus| && OnCpu(s, c, t)
    requires t < |s.tb.tasks| && s.tb.tasks[t].state == Running
    ensures OnCpu(Next(m, s, e), c, t)
  {
    assert CpuInv(m, s, c);
    hide Owed, TaskInv, WaitInv;
  }

  /** A task joins, or a running one writes its deadline or a word. */
  lemma ArrivalKept(m: bool, s: Sys, e: Event, t: nat)
    requires Core(m, s) && Sound(m, s) && Enabled(m, s, e) && t < |s.notes| && Shape(Next(m, s, e))
    requires e.Create? || e.CreateDeferred? || e.Launch? || e.Deadline? || e.Store?
    ensures t < |Next(m, s, e).notes| && TaskInv(m, Next(m, s, e), t) && WaitInv(Next(m, s, e), t)
  {
    EventFacts(m, s, e);
    DebtsKept(m, s, e);
    assert TaskInv(m, s, t) && WaitInv(s, t);
    HostedKept(m, s, e, t);
    hide Owed, QueueHolds, Hosted;
  }

  /** Only the CPU itself changes. */
  lemma QuietKept(m: bool, s: Sys, e: Event, t: nat)
    requires Core(m, s) && Sound(m, s) && Enabled(m, s, e) && t < |s.notes| && Shape(Next(m, s, e))
    requires e.SetMask? || e.Enter? || e.Acquire? || e.Check? || e.GoIdle? || e.Release?
    ensures t < |Next(m, s, e).notes| && TaskInv(m, Next(m, s, e), t) && WaitInv(Next(m, s, e), t)
  {
    EventFacts(m, s, e);
    DebtsKept(m, s, e);
    assert TaskInv(m, s, t) && WaitInv(s, t);
    HostedKept(m, s, e, t);
    hide Owed, QueueHolds, Hosted;
  }

  /** A task is marked by a primitive, or a sleeper wakes. */
  lemma MarkKept(m: bool, s: Sys, e: Event, t: nat)
    requires Core(m, s) && Sound(m, s) && Enabled(m, s, e) && t < |s.notes| && Shape(Next(m, s, e))
    requires e.Tick? || e.Mark? || e.Link?
    ensures t < |Next(m, s, e).notes| && TaskInv(m, Next(m, s, e), t) && WaitInv(Next(m, s, e), t)
  {
    EventFacts(m, s, e);
    DebtsKept(m, s, e);
    assert TaskInv(m, s, t) && WaitInv(s, t);
    HostedKept(m, s, e, t);
    hide Owed, QueueHolds, Hosted;
  }

  /** A running task is preempted, or a context is saved or loaded. */
  lemma SwitchKept(m: bool, s: Sys, e: Event, t: nat)
    requires Core(m, s) && Sound(m, s) && Enabled(m, s, e) && t < |s.notes| && Shape(Next(m, s, e))
    requires e.Preempt? || e.Save? || e.Dispatch? || e.Load?
    ensures t < |Next(m, s, e).notes| && TaskInv(m, Next(m, s, e), t) && WaitInv(Next(m, s, e), t)
  {
    EventFacts(m, s, e);
    DebtsKept(m, s, e);
    assert TaskInv(m, s, t) && WaitInv(s, t);
    HostedKept(m, s, e, t);
    hide Owed, QueueHolds, Hosted;
  }

  lemma TaskKept(m: bool, s: Sys, e: Event, t: nat)
    requires Core(m, s) && Sound(m, s) && Enabled(m, s, e) && !e.WakeUp? && t < |s.notes| && Shape(Next(m, s, e))
    ensures t < |Next(m, s, e).notes| && TaskInv(m, Next(m, s, e), t) && WaitInv(Next(m, s, e), t)
  {
    if e.Create? || e.CreateDeferred? || e.Launch? || e.Deadline? || e.Store? {
      ArrivalKept(m, s, e, t);
    } else if e.Tick? || e.Mark? || e.Link? {
      MarkKept(m, s, e, t);
    } else if e.Preempt? || e.Save? || e.Dispatch? || e.Load? {
      SwitchKept(m, s, e, t);
    } else {
      QuietKept(m, s, e, t);
    }
  }

  /** The sweep of queue q changes exactly the tasks linked there. */
  lemma WakeTouches(m: bool, s: Sys, e: Event, ql: seq<seq<nat>>)
    requires Core(m, s) && e.WakeUp? && Enabled(m, s, e) && Queues(s, ql)
    ensures |WakeList(s.tb, e.q, e.xs).tasks| == |s.tb.tasks| && WakeList(s.tb, e.q, e.xs).rqSeq >= s.tb.rqSeq
    ensures WakeList(s.tb, e.q, e.xs).heads == s.tb.heads[e.q := None]
    ensures forall t :: 0 <= t < |s.tb.tasks| ==>
      (t in e.xs <==> s.notes[t].on == Some(e.q)) &&
      var tcb := WakeList(s.tb, e.q, e.xs).tasks[t];
      if t in e.xs
      then s.tb.rqSeq < tcb.key <= WakeList(s.tb, e.q, e.xs).rqSeq && tcb == s.tb.tasks[t].(next := None, state := Ready, key := tcb.key)
      else tcb == s.tb.tasks[t]
  {
    WakeMeaning(s.tb, e.q, e.xs);
    ListUnique(s.tb.tasks, s.tb.heads[e.q], e.xs, ql[e.q]);
    forall t | 0 <= t < |s.tb.tasks| && t in e.xs ensures s.tb.tasks[t].state == Blocked {
      assert WaitInv(s, t);
    }
  }

  lemma KeepWakeUpCpu(m: bool, s: Sys, e: Event, ql: seq<seq<nat>>, c: nat)
    requires Core(m, s) && e.WakeUp? && Enabled(m, s, e) && Queues(s, ql) && c < |s.cpus|
    requires Shape(Next(m, s, e))
    ensures CpuInv(m, Next(m, s, e), c)
  {
    WakeTouches(m, s, e, ql);
    OwedKept(s, Next(m, s, e), e.q);
    assert CpuInv(m, s, c) && CpuInv(m, s, e.c);
    if !s.cpus[c].place.Loop? { assert WaitInv(s, s.cpus[c].place.t); }
  }

  lemma KeepWakeUpTask(m: bool, s: Sys, e: Event, ql: seq<seq<nat>>, t: nat)
    requires Core(m, s) && e.WakeUp? && Enabled(m, s, e) && Queues(s, ql) && t < |s.notes|
    requires Shape(Next(m, s, e))
    ensures TaskInv(m, Next(m, s, e), t) && WaitInv(Next(m, s, e), t)
  {
    WakeTouches(m, s, e, ql);
    OwedKept(s, Next(m, s, e), e.q);
    assert CpuInv(m, s, e.c);
    assert TaskInv(m, s, t) && WaitInv(s, t);
    if s.tb.tasks[t].state == Running {
      var c :| 0 <= c < |s.cpus| && OnCpu(s, c, t);
      assert OnCpu(Next(m, s, e), c, t);
    }
    hide Owed, QueueHolds, Distinct, IsList;
  }

  lemma KeepWakeUp(m: bool, s: Sys, e: Event, ql: seq<seq<nat>>)
    requires Core(m, s) && Sound(m, s) && e.WakeUp? && Enabled(m, s, e) && Queues(s, ql)
    ensures Core(m, Next(m, s, e))
  {
    var s' := Next(m, s, e);
    ShapeKept(m, s, e);
    forall c | 0 <= c < |s'.cpus| ensures CpuInv(m, s', c) {
      KeepWakeUpCpu(m, s, e, ql, c);
    }
    forall t | 0 <= t < |s'.notes| ensures TaskInv(m, s', t) && WaitInv(s', t) {
      KeepWakeUpTask(m, s, e, ql, t);
    }
    forall c, d | 0 <= c < |s'.cpus| && 0 <= d < |s'.cpus| && c != d ensures !SameTask(s'.cpus[c].place, s'.cpus[d].place) {
      assert s'.cpus[c].place == s.cpus[c].place && s'.cpus[d].place == s.cpus[d].place;
    }
  }

  // ---- the wait-queue lists -------------------------------------------------------------

  lemma QueuesSame(s: Sys, s': Sys, ql: seq<seq<nat>>)
    requires Queues(s, ql) && s'.tb.heads == s.tb.heads && |s'.notes| == |s.notes| == |s'.tb.tasks|
    requires forall t :: 0 <= t < |s.notes| ==> s'.notes[t].on == s.notes[t].on && s'.tb.tasks[t].next == s.tb.tasks[t].next
    ensures Queues(s', ql)
  {
    forall q | 0 <= q < |ql|
      ensures IsList(s'.tb.tasks, s'.tb.heads[q], ql[q])
    {
      ListFrame(s.tb.tasks, s'.tb.tasks, s.tb.heads[q], ql[q]);
    }
  }

  lemma QueuesLink(m: bool, s: Sys, e: Event, ql: seq<seq<nat>>) returns (ql': seq<seq<nat>>)
    requires Core(m, s) && Sound(m, s) && e.Link? && Enabled(m, s, e) && Queues(s, ql)
    ensures Queues(Next(m, s, e), ql')
  {
    var s' := Next(m, s, e);
    var u, q := s.cpus[e.c].place.t, s.cpus[e.c].place.at.q;
    TargetIsCaller(m, s, e.c, s.cpus[e.c].place.at.pc);
    assert CpuInv(m, s, e.c) && WaitInv(s, u);
    ql' := ql[q := [u] + ql[q]];
    assert ([u] + ql[q])[1..] == ql[q];
    forall r | 0 <= r < |ql| ensures IsList(s'.tb.tasks, s.tb.heads[r], ql[r]) {
      assert u !in ql[r];
      ListFrame(s.tb.tasks, s'.tb.tasks, s.tb.heads[r], ql[r]);
    }
    assert Distinct(ql'[q]);
    forall r | 0 <= r < |ql'|
      ensures forall t :: t in ql'[r] <==> 0 <= t < |s'.notes| && s'.notes[t].on == Some(r)
    {
      assert forall t :: t in ql[r] <==> 0 <= t < |s.notes| && s.notes[t].on == Some(r);
    }
  }

  lemma QueuesWake(m: bool, s: Sys, e: Event, ql: seq<seq<nat>>) returns (ql': seq<seq<nat>>)
    requires Core(m, s) && e.WakeUp? && Enabled(m, s, e) && Queues(s, ql)
    ensures Queues(Next(m, s, e), ql')
  {
    var s' := Next(m, s, e);
    WakeTouches(m, s, e, ql);
    ql' := ql[e.q := []];
    forall r | 0 <= r < |ql'|
      ensures Distinct(ql'[r]) && IsList(s'.tb.tasks, s'.tb.heads[r], ql'[r])
      ensures forall t :: t in ql'[r] <==> 0 <= t < |s'.notes| && s'.notes[t].on == Some(r)
    {
      assert forall t :: t in ql[r] <==> 0 <= t < |s.notes| && s.notes[t].on == Some(r);
      if r != e.q {
        ListFrame(s.tb.tasks, s'.tb.tasks, s.tb.heads[r], ql[r]);
      }
    }
  }

  lemma LinksKept(m: bool, s: Sys, e: Event, t: nat)
    requires Shape(s) && Enabled(m, s, e) && !e.Link? && !e.WakeUp? && t < |s.notes| && TaskInv(m, s, t) && WaitInv(s, t)
    requires |Next(m, s, e).notes| == |Next(m, s, e).tb.tasks| == |s.notes|
    ensures Next(m, s, e).notes[t].on == s.notes[t].on && Next(m, s, e).tb.tasks[t].next == s.tb.tasks[t].next
  {
    if e.Tick? { ExpireMeaning(s.tb, e.now, 0); }
    hide Owed, Hosted, ParkedOk;
  }

  lemma QueuesKept(m: bool, s: Sys, e: Event, ql: seq<seq<nat>>) returns (ql': seq<seq<nat>>)
    requires Core(m, s) && Sound(m, s) && Enabled(m, s, e) && Queues(s, ql)
    ensures Queues(Next(m, s, e), ql')
  {
    if e.Link? {
      ql' := QueuesLink(m, s, e, ql);
    } else if e.WakeUp? {
      ql' := QueuesWake(m, s, e, ql);
    } else {
      ql' := ql;
      var s' := Next(m, s, e);
      SizesKept(m, s, e);
      assert s'.tb.heads == s.tb.heads;
      forall t | 0 <= t < |s.notes| ensures s'.notes[t].on == s.notes[t].on && s'.tb.tasks[t].next == s.tb.tasks[t].next {
        assert TaskInv(m, s, t) && WaitInv(s, t);
        LinksKept(m, s, e, t);
      }
      hide Core, Enabled, Next;
      QueuesSame(s, s', ql);
    }
  }

  // ---- every run ----------------------------------------------------------------------------

  ghost predicate Inv(m: bool, s: Sys) {
    Core(m, s) && exists ql :: Queues(s, ql)
  }

  lemma BootInv(m: bool, nCpus: nat, nTasks: nat, vals: seq<int>)
    ensures Inv(m, Boot(nCpus, nTasks, vals))
  {
    var s := Boot(nCpus, nTasks, vals);
    var ql: seq<seq<nat>> := seq(|vals|, _ => []);
    forall t | 0 <= t < |s.notes| ensures TaskInv(m, s, t) && WaitInv(s, t) {
      assert s.tb.tasks[t] == Tcb(Unused, 0, 0, 0, 0, None);
    }
    forall q | 0 <= q < |ql|
      ensures Distinct(ql[q]) && IsList(s.tb.tasks, s.tb.heads[q], ql[q])
      ensures forall t :: t in ql[q] <==> 0 <= t < |s.notes| && s.notes[t].on == Some(q)
    {
      assert ql[q] == [];
    }
    assert Queues(s, ql);
  }

  lemma CoreKept(m: bool, s: Sys, e: Event, ql: seq<seq<nat>>)
    requires Core(m, s) && Sound(m, s) && Enabled(m, s, e) && Queues(s, ql)
    ensures Core(m, Next(m, s, e))
  {
    if e.WakeUp? {
      KeepWakeUp(m, s, e, ql);
    } else {
      var s' := Next(m, s, e);
      ShapeKept(m, s, e);
      SizesKept(m, s, e);
      HolderKept(m, s, e);
      forall c | 0 <= c < |s'.cpus| ensures CpuInv(m, s', c) {
        if ActsOn(e) == Some(c) { OwnCpuKept(m, s, e, c); } else { OtherCpuKept(m, s, e, c); }
      }
      forall c, d | 0 <= c < |s'.cpus| && 0 <= d < |s'.cpus| && c != d ensures !SameTask(s'.cpus[c].place, s'.cpus[d].place) {
        ApartKept(m, s, e, c, d);
      }
      forall t | 0 <= t < |s'.notes| ensures TaskInv(m, s', t) && WaitInv(s', t) {
        TaskKept(m, s, e, t);
      }
      hide Shape, CpuInv, TaskInv, WaitInv, Next, Enabled;
    }
  }

  lemma InvStep(m: bool, s: Sys, e: Event)
    requires Inv(m, s) && Sound(m, s) && Enabled(m, s, e)
    ensures Inv(m, Next(m, s, e)) && Sound(m, Next(m, s, e))
  {
    var ql :| Queues(s, ql);
    CoreKept(m, s, e, ql);
    var ql' := QueuesKept(m, s, e, ql);
    SizesKept(m, s, e);
  }

  /** Every state of every run from boot satisfies the invariant. */
  lemma {:induction false} RunInv(m: bool, nCpus: nat, nTasks: nat, vals: seq<int>, ss: seq<Sys>, es: seq<Event>, i: nat)
    requires Run(m, ss, es) && ss[0] == Boot(nCpus, nTasks, vals) && i <= |es|
    requires m || nCpus < 2 || nTasks < 2
    ensures Inv(m, ss[i]) && Sound(m, ss[i])
    decreases i
  {
    if i == 0 {
      BootInv(m, nCpus, nTasks, vals);
    } else {
      RunInv(m, nCpus, nTasks, vals, ss, es, i - 1);
      assert StepTo(m, ss[i - 1], es[i - 1], ss[i - 1 + 1]);
      InvStep(m, ss[i - 1], es[i - 1]);
    }
  }

  lemma ReachableInv(m: bool, nCpus: nat, nTasks: nat, s: Sys)
    requires Reachable(m, nCpus, nTasks, s) && (m || nCpus < 2 || nTasks < 2)
    ensures Inv(m, s)
  {
    var ss: seq<Sys>, es: seq<Event>, vals: seq<int> :|
      Run(m, ss, es) && ss[0] == Boot(nCpus, nTasks, vals) && ss[|es|] == s;
    RunInv(m, nCpus, nTasks, vals, ss, es, |es|);
  }

  /** The handshake: in every reachable state a READY task seen with the lock free has a
      saved context and runs nowhere, and no task executes on two CPUs. */
  lemma HandshakeSafe(m: bool, nCpus: nat, nTasks: nat, s: Sys)
    requires Reachable(m, nCpus, nTasks, s) && (m || nCpus < 2 || nTasks < 2)
    ensures Safe(s)
  {
    ReachableInv(m, nCpus, nTasks, s);
    CoreSafe(m, s);
  }

  // ---- the lock, without any assumption -----------------------------------------------------

  /** What the lock protocol alone keeps. */
  ghost predicate LockOk(s: Sys) {
    && (s.lock ==> s.holder < |s.cpus|)
    && forall c {:trigger s.cpus[c]} {:trigger Holds(s, c)} :: 0 <= c < |s.cpus| ==> LockOkAt(s, c)
  }

  ghost predicate LockOkAt(s: Sys, c: nat)
    requires c < |s.cpus|
  {
    && (Holds(s, c) <==> s.lock && s.holder == c) && (Holds(s, c) ==> s.cpus[c].masked)
    && (s.cpus[c].place.Dispatched? ==> s.cpus[c].masked)
    && (s.cpus[c].place.Loop? && !s.cpus[c].masked ==> s.cpus[c].current == None)
  }

  lemma LockKept(m: bool, s: Sys, e: Event, c: nat)
    requires Shape(s) && LockOk(s) && Enabled(m, s, e) && c < |s.cpus| == |Next(m, s, e).cpus|
    ensures LockOkAt(Next(m, s, e), c)
  {
    assert LockOkAt(s, c);
    if ActsOn(e).Some? { assert LockOkAt(s, e.c); }
    if e.Load? { assert Resumable(s.notes[s.cpus[e.c].place.t].ctx); }
  }

  lemma {:induction false} RunLockOk(m: bool, nCpus: nat, nTasks: nat, vals: seq<int>, ss: seq<Sys>, es: seq<Event>, i: nat)
    requires Run(m, ss, es) && ss[0] == Boot(nCpus, nTasks, vals) && i <= |es|
    ensures LockOk(ss[i])
    decreases i
  {
    if i == 0 {
      forall c | 0 <= c < |ss[0].cpus| ensures LockOkAt(ss[0], c) { assert ss[0].cpus[c] == Cpu(None, Loop, false, false); }
    } else {
      RunLockOk(m, nCpus, nTasks, vals, ss, es, i - 1);
      var s, e := ss[i - 1], es[i - 1];
      assert StepTo(m, ss[i - 1], es[i - 1], ss[i - 1 + 1]);
      SizesKept(m, s, e);
      HolderKept(m, s, e);
      forall c | 0 <= c < |ss[i].cpus| ensures LockOkAt(ss[i], c) { LockKept(m, s, e, c); }
    }
  }

  /** The lock word is held exactly by the one CPU inside a locked section, across every
      hand-over from a parking task to the scheduler context; interrupts are masked there,
      and an interrupt can only reach the scheduler stack when no task is current. */
  lemma LockHandedOver(m: bool, nCpus: nat, nTasks: nat, s: Sys)
    requires Reachable(m, nCpus, nTasks, s)
    ensures forall c, d :: 0 <= c < |s.cpus| && 0 <= d < |s.cpus| && Holds(s, c) && Holds(s, d) ==> c == d
    ensures s.lock <==> exists c :: 0 <= c < |s.cpus| && Holds(s, c)
    ensures forall c :: 0 <= c < |s.cpus| && Holds(s, c) ==> s.cpus[c].masked
    ensures forall c :: 0 <= c < |s.cpus| && s.cpus[c].place.Loop? && !s.cpus[c].masked ==> s.cpus[c].current == None
  {
    var ss: seq<Sys>, es: seq<Event>, vals: seq<int> :|
      Run(m, ss, es) && ss[0] == Boot(nCpus, nTasks, vals) && ss[|es|] == s;
    RunLockOk(m, nCpus, nTasks, vals, ss, es, |es|);
    if s.lock { assert Holds(s, s.holder); }
  }

  /** No wake-up is lost: a parked task whose condition no longer asks it to wait is waiting for
      a wait_wake_all that some task still owes.  The queues are acyclic disjoint lists of
      exactly the BLOCKED tasks linked on them, and a RUNNING task is on a CPU. */
  ghost predicate NoneLost(s: Sys) {
    && |s.notes| == |s.tb.tasks| && (exists ql :: Queues(s, ql))
    && (forall t :: 0 <= t < |s.notes| && s.notes[t].on.Some? ==>
          && s.tb.tasks[t].state == Blocked && s.notes[t].on.value < |s.vals|
          && (s.vals[s.notes[t].on.value] !in s.notes[t].keep ==> Owed(s, s.notes[t].on.value)))
    && (forall t :: 0 <= t < |s.notes| && s.tb.tasks[t].state == Blocked && !s.notes[t].deferred ==> s.notes[t].on.Some?)
    && forall t :: 0 <= t < |s.notes| ==> Hosted(s, t)
  }

  lemma NoLostWakeUp(m: bool, nCpus: nat, nTasks: nat, s: Sys)
    requires Reachable(m, nCpus, nTasks, s) && (m || nCpus < 2 || nTasks < 2)
    ensures NoneLost(s)
  {
    ReachableInv(m, nCpus, nTasks, s);
    forall t | 0 <= t < |s.notes| ensures WaitInv(s, t) && Hosted(s, t) {
      assert TaskInv(m, s, t);
    }
  }
}
