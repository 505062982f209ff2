/** task_yield, task_exit, park_current and wait_sleep_when read this_cpu() before they
    mask interrupts.  A preemption in between can resume the caller on another CPU,
    and the primitive then marks whatever task runs on the old one: a yield puts that
    task on two CPUs, a wait links it on the queue in place of the caller. */
module SchedRace {
  import opened Wrappers
  import opened SchedTable
  import opened Sched
  import opened SchedSafety

  const U := Tcb(Unused, 0, 0, 0, 0, None)
  ghost const N0 := Note(Start, false, false, {}, None, iset{})
  const FREE := Cpu(None, Loop, false, false)

  /** Wait on queue 0 while its word, 0 from boot on, is 0. */
  ghost const WAIT := Wait(0, iset{0})

  /** A system with one queue whose tasks 0 and 1 and CPUs 0 and 1 are as given and whose others
      are as at boot. */
  ghost function St(b: Sys, lock: bool, holder: nat, rq: nat, head: Option<nat>,
                    t0: Tcb, t1: Tcb, n0: Note, n1: Note, c0: Cpu, c1: Cpu): Sys
    requires Base(b)
  {
    Sys(lock, holder, Table(Two(b.tb.tasks, t0, t1), rq, [head]), Two(b.notes, n0, n1), Two(b.cpus, c0, c1), [0])
  }

  ghost predicate Base(b: Sys) {
    && |b.notes| == |b.tb.tasks| >= 2 && |b.cpus| >= 2
    && forall t :: 0 <= t < |b.tb.tasks| ==> b.tb.tasks[t].state == Unused
  }

  ghost function Two<T>(s: seq<T>, x: T, y: T): (r: seq<T>)
    requires |s| >= 2
    ensures |r| == |s| && r[0] == x && r[1] == y && forall i :: 2 <= i < |s| ==> r[i] == s[i]
  {
    s[0 := x][1 := y]
  }

  lemma Longer(m: bool, ss: seq<Sys>, es: seq<Event>, e: Event, s': Sys)
    requires Run(m, ss, es) && StepTo(m, ss[|es|], e, s')
    ensures Run(m, ss + [s'], es + [e])
  {
    hide StepTo;
    var tt, fs := ss + [s'], es + [e];
    forall i | 0 <= i < |fs| ensures StepTo(m, tt[i], fs[i], tt[i + 1]) {
      if i < |es| { assert StepTo(m, ss[i], es[i], ss[i + 1]); }
    }
  }

  lemma Go(n: nat, k: nat, s: Sys, e: Event, s': Sys)
    requires Reachable(false, n, k, s) && StepTo(false, s, e, s')
    ensures Reachable(false, n, k, s') && Shape(s')
  {
    hide Next, Enabled, Shape, Boot;
    ShapeKept(false, s, e);
    var ss: seq<Sys>, es: seq<Event>, vals: seq<int> :|
      Run(false, ss, es) && ss[0] == Boot(n, k, vals) && ss[|es|] == s;
    Longer(false, ss, es, e, s');
  }

  ghost function Tk(st: TaskState, key: nat, q: nat): Tcb { Tcb(st, 0, key, q, 0, None) }

  ghost function Nt(ctx: Point, saved: bool): Note { Note(ctx, saved, false, {}, None, iset{}) }

  ghost function On(t: nat, p: Point, masked: bool, need: bool): Cpu { Cpu(Some(t), Exec(t, p), masked, need) }

  ghost const LINKED := Note(Start, false, false, {}, Some(0), WAIT.keep)

  /** The states of the bad runs: state i follows from state i-1 by event i-1, up to state 19 for
      every op, further for Yield and WAIT. */
  ghost function Bad(b: Sys, op: Op, i: nat): Sys
    requires Base(b)
  {
    match i
    case 0 => St(b, false, 0, 0, None, U, U, N0, N0, FREE, FREE)
    // Two tasks are created.
    case 1 => St(b, false, 0, 1, None, Tk(Ready, 1, 0), U, Nt(Start, true), N0, FREE, FREE)
    case 2 => St(b, false, 0, 2, None, Tk(Ready, 1, 0), Tk(Ready, 2, 0), Nt(Start, true), Nt(Start, true), FREE, FREE)
    // Task 0 starts on CPU 0 and runs four ticks.
    case 3 => St(b, false, 0, 2, None, Tk(Running, 1, 5), Tk(Ready, 2, 0),
                 Nt(Start, true), Nt(Start, true), Cpu(Some(0), Dispatched(0), true, false), FREE)
    case 4 => St(b, false, 0, 2, None, Tk(Running, 1, 5), Tk(Ready, 2, 0),
                 Nt(Start, false), Nt(Start, true), On(0, Body, true, false), FREE)
    case 5 => St(b, false, 0, 2, None, Tk(Running, 1, 5), Tk(Ready, 2, 0),
                 Nt(Start, false), Nt(Start, true), On(0, Body, false, false), FREE)
    case 6 => St(b, false, 0, 2, None, Tk(Running, 1, 4), Tk(Ready, 2, 0),
                 Nt(Start, false), Nt(Start, true), On(0, Body, false, false), FREE)
    case 7 => St(b, false, 0, 2, None, Tk(Running, 1, 3), Tk(Ready, 2, 0),
                 Nt(Start, false), Nt(Start, true), On(0, Body, false, false), FREE)
    case 8 => St(b, false, 0, 2, None, Tk(Running, 1, 2), Tk(Ready, 2, 0),
                 Nt(Start, false), Nt(Start, true), On(0, Body, false, false), FREE)
    case 9 => St(b, false, 0, 2, None, Tk(Running, 1, 1), Tk(Ready, 2, 0),
                 Nt(Start, false), Nt(Start, true), On(0, Body, false, false), FREE)
    // Inside the primitive it reads this_cpu(); its last tick preempts it there.
    case 10 => St(b, false, 0, 2, None, Tk(Running, 1, 1), Tk(Ready, 2, 0),
                  Nt(Start, false), Nt(Start, true), On(0, Captured(op, 0), false, false), FREE)
    case 11 => St(b, false, 0, 2, None, Tk(Running, 1, 0), Tk(Ready, 2, 0),
                  Nt(Start, false), Nt(Start, true), On(0, Captured(op, 0), false, true), FREE)
    case 12 => St(b, true, 0, 3, None, Tk(Ready, 3, 0), Tk(Ready, 2, 0),
                  Nt(Start, false), Nt(Start, true), On(0, Parking(Captured(op, 0)), true, false), FREE)
    case 13 => St(b, true, 0, 3, None, Tk(Ready, 3, 0), Tk(Ready, 2, 0),
                  Nt(Captured(op, 0), true), Nt(Start, true), Cpu(Some(0), Landed(0), true, false), FREE)
    case 14 => St(b, false, 0, 3, None, Tk(Ready, 3, 0), Tk(Ready, 2, 0),
                  Nt(Captured(op, 0), true), Nt(Start, true), Cpu(Some(0), Loop, true, false), FREE)
    // CPU 0 takes task 1; task 0 resumes on CPU 1 still holding CPU 0's block.
    case 15 => St(b, false, 0, 3, None, Tk(Ready, 3, 0), Tk(Running, 2, 5),
                  Nt(Captured(op, 0), true), Nt(Start, true), Cpu(Some(1), Dispatched(1), true, false), FREE)
    case 16 => St(b, false, 0, 3, None, Tk(Ready, 3, 0), Tk(Running, 2, 5),
                  Nt(Captured(op, 0), true), Nt(Start, false), On(1, Body, true, false), FREE)
    case 17 => St(b, false, 0, 3, None, Tk(Running, 3, 5), Tk(Running, 2, 5),
                  Nt(Captured(op, 0), true), Nt(Start, false), On(1, Body, true, false), Cpu(Some(0), Dispatched(0), true, false))
    case 18 => St(b, false, 0, 3, None, Tk(Running, 3, 5), Tk(Running, 2, 5),
                  Nt(Captured(op, 0), false), Nt(Start, false), On(1, Body, true, false), On(0, Captured(op, 0), false, false))
    case 19 => St(b, true, 1, 3, None, Tk(Running, 3, 5), Tk(Running, 2, 5),
                  Nt(Captured(op, 0), false), Nt(Start, false), On(1, Body, true, false), On(0, Held(op, 0, false), true, false))
    case _ => if op.Yield? then Doubled(b, i) else Misplaced(b, i)
  }

  ghost function Doubled(b: Sys, i: nat): Sys
    requires Base(b)
  {
    match i
    // The yield marks task 1 READY while CPU 0 executes it, and CPU 1 dispatches it.
    case 20 => St(b, true, 1, 4, None, Tk(Running, 3, 5), Tk(Ready, 4, 5),
                  Nt(Captured(Yield, 0), false), Nt(Start, false), On(1, Body, true, false), On(0, Parking(Body), true, false))
    case 21 => St(b, true, 1, 4, None, Tk(Running, 3, 5), Tk(Ready, 4, 5),
                  Nt(Body, true), Nt(Start, false), On(1, Body, true, false), Cpu(Some(0), Landed(0), true, false))
    case 22 => St(b, false, 1, 4, None, Tk(Running, 3, 5), Tk(Ready, 4, 5),
                  Nt(Body, true), Nt(Start, false), On(1, Body, true, false), Cpu(Some(0), Loop, true, false))
    case _ => St(b, false, 1, 4, None, Tk(Running, 3, 5), Tk(Running, 4, 5),
                 Nt(Body, true), Nt(Start, false), On(1, Body, true, false), Cpu(Some(1), Dispatched(1), true, false))
  }

  ghost function Misplaced(b: Sys, i: nat): Sys
    requires Base(b)
  {
    match i
    // The wait links task 1 while CPU 0 executes it; task 0 parks RUNNING on no queue.
    case 20 => St(b, true, 1, 3, None, Tk(Running, 3, 5), Tk(Running, 2, 5),
                  Nt(Captured(WAIT, 0), false), Nt(Start, false), On(1, Body, true, false), On(0, Linking(0, WAIT.keep, 0), true, false))
    case 21 => St(b, true, 1, 3, Some(1), Tk(Running, 3, 5), Tk(Blocked, 2, 5),
                  Nt(Captured(WAIT, 0), false), LINKED, On(1, Body, true, false), On(0, Parking(Body), true, false))
    case 22 => St(b, true, 1, 3, Some(1), Tk(Running, 3, 5), Tk(Blocked, 2, 5),
                  Nt(Body, true), LINKED, On(1, Body, true, false), Cpu(Some(0), Landed(0), true, false))
    case _ => St(b, false, 1, 3, Some(1), Tk(Running, 3, 5), Tk(Blocked, 2, 5),
                 Nt(Body, true), LINKED, On(1, Body, true, false), Cpu(Some(0), Loop, true, false))
  }

  ghost function BadEvent(op: Op, i: nat): Event {
    match i
    case 0 => Create(0, 0)
    case 1 => Create(1, 0)
    case 2 => Dispatch(0, 0)
    case 3 => Load(0)
    case 4 => SetMask(0, false)
    case 5 => Tick(0, 0)
    case 6 => Tick(0, 0)
    case 7 => Tick(0, 0)
    case 8 => Tick(0, 0)
    case 9 => Enter(0, op)
    case 10 => Tick(0, 0)
    case 11 => Preempt(0)
    case 12 => Save(0)
    case 13 => Release(0)
    case 14 => Dispatch(0, 1)
    case 15 => Load(0)
    case 16 => Dispatch(1, 0)
    case 17 => Load(1)
    case 18 => Acquire(1)
    case 19 => if op.Yield? then Mark(1) else Check(1)
    case 20 => if op.Yield? then Save(1) else Link(1)
    case 21 => if op.Yield? then Release(1) else Save(1)
    case _ => if op.Yield? then Dispatch(1, 1) else Release(1)
  }

  ghost predicate Plain(b: Sys) {
    && Base(b) && (forall t :: 0 <= t < |b.notes| ==> b.notes[t] == N0)
    && (forall c :: 0 <= c < |b.cpus| ==> b.cpus[c] == FREE)
  }

  lemma NoSleepers(tb: Table, i: nat)
    requires i <= |tb.tasks| && forall t :: 0 <= t < |tb.tasks| ==> tb.tasks[t].state != Sleeping
    ensures ExpireFrom(tb, 0, i) == tb
    decreases |tb.tasks| - i
  {
    if i < |tb.tasks| { NoSleepers(tb, i + 1); }
  }

  lemma BadShape(b: Sys, op: Op)
    requires Plain(b)
    ensures Shape(Bad(b, op, 0))
  {
    assert forall t :: 0 <= t < |b.notes| ==> Bad(b, op, 0).notes[t] == N0;
    assert forall c :: 0 <= c < |b.cpus| ==> Bad(b, op, 0).cpus[c] == FREE;
  }

  ghost predicate RaceOp(op: Op) { op.Wait? ==> op == WAIT }

  ghost predicate BadStepAt(b: Sys, op: Op, i: nat)
    requires Base(b) && Shape(Bad(b, op, i))
  {
    Enabled(false, Bad(b, op, i), BadEvent(op, i)) && Next(false, Bad(b, op, i), BadEvent(op, i)) == Bad(b, op, i + 1)
  }

  lemma TickSteps(b: Sys, op: Op, i: nat)
    requires Base(b) && Shape(Bad(b, op, i)) && RaceOp(op) && 5 <= i < 7
    ensures BadStepAt(b, op, i)
  {
    NoneAsleep(b, op, i);
    hide Shape, Base;
    if i == 5 {} else {}
  }

  lemma LastTicks(b: Sys, op: Op, i: nat)
    requires Base(b) && Shape(Bad(b, op, i)) && RaceOp(op) && 7 <= i < 9
    ensures BadStepAt(b, op, i)
  {
    NoneAsleep(b, op, i);
    hide Shape, Base;
    if i == 7 {} else {}
  }

  lemma QuantumStep(b: Sys, op: Op)
    requires Base(b) && Shape(Bad(b, op, 10)) && RaceOp(op)
    ensures BadStepAt(b, op, 10)
  {
    NoneAsleep(b, op, 10);
    hide Shape, Base;
  }

  lemma NoneAsleep(b: Sys, op: Op, i: nat)
    requires Base(b) && BadEvent(op, i).Tick?
    ensures ExpireFrom(Bad(b, op, i).tb, 0, 0) == Bad(b, op, i).tb
  {
    NoSleepers(Bad(b, op, i).tb, 0);
  }

  lemma ArrivalSteps(b: Sys, op: Op, i: nat)
    requires Base(b) && Shape(Bad(b, op, i)) && RaceOp(op) && 0 <= i < 2
    ensures BadStepAt(b, op, i)
  {
    hide Shape;
    if i == 0 {} else {}
  }

  lemma OpeningSteps(b: Sys, op: Op, i: nat)
    requires Base(b) && Shape(Bad(b, op, i)) && RaceOp(op) && 2 <= i < 5
    ensures BadStepAt(b, op, i)
  {
    hide Shape;
    if i == 2 {} else if i == 3 {} else {}
  }

  lemma InterruptedSteps(b: Sys, op: Op, i: nat)
    requires Base(b) && Shape(Bad(b, op, i)) && RaceOp(op) && (i == 9 || i == 11)
    ensures BadStepAt(b, op, i)
  {
    hide Shape;
    if i == 9 {} else {}
  }

  lemma ParkedSteps(b: Sys, op: Op, i: nat)
    requires Base(b) && Shape(Bad(b, op, i)) && RaceOp(op) && 12 <= i < 14
    ensures BadStepAt(b, op, i)
  {
    hide Shape;
    if i == 12 {} else {}
  }

  lemma MigratedSteps(b: Sys, op: Op, i: nat)
    requires Base(b) && Shape(Bad(b, op, i)) && RaceOp(op) && 14 <= i < 16
    ensures BadStepAt(b, op, i)
  {
    hide Shape;
    if i == 14 {} else {}
  }

  lemma RacingSteps(b: Sys, op: Op, i: nat)
    requires Base(b) && Shape(Bad(b, op, i)) && RaceOp(op) && 16 <= i < 18
    ensures BadStepAt(b, op, i)
  {
    hide Shape;
    if i == 16 {} else {}
  }

  lemma LockedStep(b: Sys, op: Op)
    requires Base(b) && Shape(Bad(b, op, 18)) && RaceOp(op)
    ensures BadStepAt(b, op, 18)
  {
    hide Shape;
  }

  lemma DoubledSteps(b: Sys, op: Op, i: nat)
    requires Base(b) && Shape(Bad(b, op, i)) && 19 <= i < 23 && op == Yield
    ensures BadStepAt(b, op, i)
  {
    hide Shape;
    if i == 19 {} else if i == 20 {} else if i == 21 {} else {}
  }

  lemma MisplacedSteps(b: Sys, op: Op, i: nat)
    requires Base(b) && Shape(Bad(b, op, i)) && 19 <= i < 23 && op == WAIT
    ensures BadStepAt(b, op, i)
  {
    hide Shape;
    if i < 21 { if i == 19 {} else {} } else if i == 21 {} else {}
  }

  lemma BadStep(b: Sys, op: Op, i: nat)
    requires Base(b) && Shape(Bad(b, op, i)) && RaceOp(op) && i < (if op == Yield || op == WAIT then 23 else 19)
    ensures BadStepAt(b, op, i)
  {
    if i < 2 { ArrivalSteps(b, op, i); }
    else if i < 5 { OpeningSteps(b, op, i); }
    else if i < 7 { TickSteps(b, op, i); }
    else if i < 9 { LastTicks(b, op, i); }
    else if i == 10 { QuantumStep(b, op); }
    else if i < 12 { InterruptedSteps(b, op, i); }
    else if i < 14 { ParkedSteps(b, op, i); }
    else if i < 16 { MigratedSteps(b, op, i); }
    else if i < 18 { RacingSteps(b, op, i); }
    else if i == 18 { LockedStep(b, op); }
    else if op == Yield { DoubledSteps(b, op, i); }
    else { MisplacedSteps(b, op, i); }
  }

  ghost function Start0(n: nat, k: nat): Sys { Boot(n, k, [0]) }

  lemma {:induction false} BadReachable(n: nat, k: nat, op: Op, i: nat)
    requires n >= 2 && k >= 2 && RaceOp(op) && i <= (if op == Yield || op == WAIT then 23 else 19)
    ensures Plain(Start0(n, k)) && Reachable(false, n, k, Bad(Start0(n, k), op, i)) && Shape(Bad(Start0(n, k), op, i))
    decreases i
  {
    var b := Start0(n, k);
    if i == 0 {
      BadShape(b, op);
      assert Bad(b, op, 0) == b by {
        assert Two(b.tb.tasks, U, U) == b.tb.tasks && Two(b.notes, N0, N0) == b.notes && Two(b.cpus, FREE, FREE) == b.cpus;
        assert b.tb.heads == [None] && b.vals == [0];
      }
      assert Run(false, [b], []) && [b][0] == b;
    } else {
      BadReachable(n, k, op, i - 1);
      BadStep(b, op, i - 1);
      Go(n, k, Bad(b, op, i - 1), BadEvent(op, i - 1), Bad(b, op, i));
    }
  }

  /** With two CPUs and two tasks and unmasked entry, CPU 1 dispatches task 1 while CPU 0 executes it. */
  lemma TaskOnTwoCpus(n: nat, k: nat) returns (s: Sys)
    requires n >= 2 && k >= 2
    ensures Reachable(false, n, k, s) && |s.cpus| == n && OnCpu(s, 0, 1) && OnCpu(s, 1, 1)
  {
    hide Reachable, Shape;
    BadReachable(n, k, Yield, 23);
    s := Bad(Start0(n, k), Yield, 23);
  }

  /** Likewise a wait parks its caller, task 0, off every CPU and queue yet RUNNING, so that no
      wake-up will ever find it; task 1, executing on CPU 0, is on the queue instead. */
  lemma WaiterLost(n: nat, k: nat) returns (s: Sys)
    requires n >= 2 && k >= 2
    ensures Reachable(false, n, k, s) && |s.cpus| == n && |s.notes| == |s.tb.tasks| == k && !s.lock
    ensures s.tb.tasks[0].state == Running && s.notes[0].on == None && s.notes[0].saved && forall c :: 0 <= c < n ==> !OnCpu(s, c, 0)
    ensures s.notes[1].on == Some(0) && s.tb.tasks[1].state == Blocked && OnCpu(s, 0, 1)
  {
    hide Reachable, Shape;
    BadReachable(n, k, WAIT, 23);
    s := Bad(Start0(n, k), WAIT, 23);
  }

  /** Exactly when the handshake keeps its promise: every run of n CPUs and k tasks is safe
      if and only if the primitives are entered with interrupts masked, or there is at most
      one CPU, or there is at most one task. */
  lemma HandshakeExactly(m: bool, n: nat, k: nat)
    ensures (forall s :: Reachable(m, n, k, s) ==> Safe(s)) <==> m || n < 2 || k < 2
  {
    if m || n < 2 || k < 2 {
      forall s | Reachable(m, n, k, s) ensures Safe(s) {
        HandshakeSafe(m, n, k, s);
      }
    } else {
      var s := TaskOnTwoCpus(n, k);
      assert !OneCpuEach(s);
    }
  }

  /** Exactly when no wake-up is lost. */
  lemma WakeUpsExactly(m: bool, n: nat, k: nat)
    ensures (forall s :: Reachable(m, n, k, s) ==> NoneLost(s)) <==> m || n < 2 || k < 2
  {
    if m || n < 2 || k < 2 {
      forall s | Reachable(m, n, k, s) ensures NoneLost(s) {
        NoLostWakeUp(m, n, k, s);
      }
    } else {
      var s := WaiterLost(n, k);
      assert !Hosted(s, 0);
    }
  }
}
