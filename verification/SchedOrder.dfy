/** Without masking, and from two CPUs and three tasks on, a task can be overtaken twice by an
    equal: a primitive that marks the wrong task takes its ticket away while it waits. */
module SchedOrder {
  import opened Wrappers
  import opened SchedTable
  import opened Sched
  import opened SchedSafety
  import opened SchedBusy
  import opened SchedFairness
  import opened SchedRace

  ghost function Three<T>(s: seq<T>, x: T, y: T, z: T): (r: seq<T>)
    requires |s| >= 3
    ensures |r| == |s| && r[0] == x && r[1] == y && r[2] == z && forall i :: 3 <= i < |s| ==> r[i] == s[i]
  {
    s[0 := x][1 := y][2 := z]
  }

  ghost predicate Base3(b: Sys) { Base(b) && |b.tb.tasks| >= 3 }

  /** Tasks 0, 1 and 2 and CPUs 0 and 1 as given, the others as at boot. */
  ghost function St3(b: Sys, lock: bool, holder: nat, rq: nat, t0: Tcb, t1: Tcb, t2: Tcb,
                     n0: Note, n1: Note, n2: Note, c0: Cpu, c1: Cpu): Sys
    requires Base3(b)
  {
    Sys(lock, holder, Table(Three(b.tb.tasks, t0, t1, t2), rq, []), Three(b.notes, n0, n1, n2), Two(b.cpus, c0, c1), [])
  }

  /** The states of the run, in three stretches: state i follows from state i-1 by event i-1. */
  ghost function Turn(b: Sys, i: nat): Sys
    requires Base3(b)
  {
    if i <= 15 then Turn0(b, i) else if i <= 29 then Turn1(b, i) else Turn2(b, i)
  }

  ghost function Turn0(b: Sys, i: nat): Sys
    requires Base3(b)
  {
    match i
    case 0 => St3(b, false, 0, 0, U, U, U, N0, N0, N0, FREE, FREE)
    // Three tasks are created.
    case 1 => St3(b, false, 0, 1, Tk(Ready, 1, 0), U, U, Nt(Start, true), N0, N0, FREE, FREE)
    case 2 => St3(b, false, 0, 2, Tk(Ready, 1, 0), Tk(Ready, 2, 0), U, Nt(Start, true), Nt(Start, true), N0, FREE, FREE)
    case 3 => St3(b, false, 0, 3, Tk(Ready, 1, 0), Tk(Ready, 2, 0), Tk(Ready, 3, 0),
                  Nt(Start, true), Nt(Start, true), Nt(Start, true), FREE, FREE)
    // Task 0 runs on CPU 0 and is preempted inside task_yield, this_cpu() read.
    case 4 => St3(b, false, 0, 3, Tk(Running, 1, 5), Tk(Ready, 2, 0), Tk(Ready, 3, 0),
                  Nt(Start, true), Nt(Start, true), Nt(Start, true), Cpu(Some(0), Dispatched(0), true, false), FREE)
    case 5 => St3(b, false, 0, 3, Tk(Running, 1, 5), Tk(Ready, 2, 0), Tk(Ready, 3, 0),
                  Nt(Start, false), Nt(Start, true), Nt(Start, true), On(0, Body, true, false), FREE)
    case 6 => St3(b, false, 0, 3, Tk(Running, 1, 5), Tk(Ready, 2, 0), Tk(Ready, 3, 0),
                  Nt(Start, false), Nt(Start, true), Nt(Start, true), On(0, Body, false, false), FREE)
    case 7 => St3(b, false, 0, 3, Tk(Running, 1, 4), Tk(Ready, 2, 0), Tk(Ready, 3, 0),
                  Nt(Start, false), Nt(Start, true), Nt(Start, true), On(0, Body, false, false), FREE)
    case 8 => St3(b, false, 0, 3, Tk(Running, 1, 3), Tk(Ready, 2, 0), Tk(Ready, 3, 0),
                  Nt(Start, false), Nt(Start, true), Nt(Start, true), On(0, Body, false, false), FREE)
    case 9 => St3(b, false, 0, 3, Tk(Running, 1, 2), Tk(Ready, 2, 0), Tk(Ready, 3, 0),
                  Nt(Start, false), Nt(Start, true), Nt(Start, true), On(0, Body, false, false), FREE)
    case 10 => St3(b, false, 0, 3, Tk(Running, 1, 1), Tk(Ready, 2, 0), Tk(Ready, 3, 0),
                   Nt(Start, false), Nt(Start, true), Nt(Start, true), On(0, Body, false, false), FREE)
    case 11 => St3(b, false, 0, 3, Tk(Running, 1, 1), Tk(Ready, 2, 0), Tk(Ready, 3, 0),
                   Nt(Start, false), Nt(Start, true), Nt(Start, true), On(0, Captured(Yield, 0), false, false), FREE)
    case 12 => St3(b, false, 0, 3, Tk(Running, 1, 0), Tk(Ready, 2, 0), Tk(Ready, 3, 0),
                   Nt(Start, false), Nt(Start, true), Nt(Start, true), On(0, Captured(Yield, 0), false, true), FREE)
    case 13 => St3(b, true, 0, 4, Tk(Ready, 4, 0), Tk(Ready, 2, 0), Tk(Ready, 3, 0),
                   Nt(Start, false), Nt(Start, true), Nt(Start, true), On(0, Parking(Captured(Yield, 0)), true, false), FREE)
    case 14 => St3(b, true, 0, 4, Tk(Ready, 4, 0), Tk(Ready, 2, 0), Tk(Ready, 3, 0),
                   Nt(Captured(Yield, 0), true), Nt(Start, true), Nt(Start, true), Cpu(Some(0), Landed(0), true, false), FREE)
    case _ => St3(b, false, 0, 4, Tk(Ready, 4, 0), Tk(Ready, 2, 0), Tk(Ready, 3, 0),
                  Nt(Captured(Yield, 0), true), Nt(Start, true), Nt(Start, true), Cpu(Some(0), Loop, true, false), FREE)
  }

  ghost function Turn1(b: Sys, i: nat): Sys
    requires Base3(b)
  {
    match i
    // Task 1 yields on CPU 0, which stays in its scheduler loop.
    case 16 => St3(b, false, 0, 4, Tk(Ready, 4, 0), Tk(Running, 2, 5), Tk(Ready, 3, 0),
                   Nt(Captured(Yield, 0), true), Nt(Start, true), Nt(Start, true), Cpu(Some(1), Dispatched(1), true, false), FREE)
    case 17 => St3(b, false, 0, 4, Tk(Ready, 4, 0), Tk(Running, 2, 5), Tk(Ready, 3, 0),
                   Nt(Captured(Yield, 0), true), Nt(Start, false), Nt(Start, true), On(1, Body, true, false), FREE)
    case 18 => St3(b, false, 0, 4, Tk(Ready, 4, 0), Tk(Running, 2, 5), Tk(Ready, 3, 0),
                   Nt(Captured(Yield, 0), true), Nt(Start, false), Nt(Start, true), On(1, Captured(Yield, 0), true, false), FREE)
    case 19 => St3(b, true, 0, 4, Tk(Ready, 4, 0), Tk(Running, 2, 5), Tk(Ready, 3, 0),
                   Nt(Captured(Yield, 0), true), Nt(Start, false), Nt(Start, true), On(1, Held(Yield, 0, true), true, false), FREE)
    case 20 => St3(b, true, 0, 5, Tk(Ready, 4, 0), Tk(Ready, 5, 5), Tk(Ready, 3, 0),
                   Nt(Captured(Yield, 0), true), Nt(Start, false), Nt(Start, true), On(1, Parking(Body), true, false), FREE)
    case 21 => St3(b, true, 0, 5, Tk(Ready, 4, 0), Tk(Ready, 5, 5), Tk(Ready, 3, 0),
                   Nt(Captured(Yield, 0), true), Nt(Body, true), Nt(Start, true), Cpu(Some(1), Landed(1), true, false), FREE)
    case 22 => St3(b, false, 0, 5, Tk(Ready, 4, 0), Tk(Ready, 5, 5), Tk(Ready, 3, 0),
                   Nt(Captured(Yield, 0), true), Nt(Body, true), Nt(Start, true), Cpu(Some(1), Loop, true, false), FREE)
    // Task 2 overtakes it on CPU 1 and yields.
    case 23 => St3(b, false, 0, 5, Tk(Ready, 4, 0), Tk(Ready, 5, 5), Tk(Running, 3, 5),
                   Nt(Captured(Yield, 0), true), Nt(Body, true), Nt(Start, true), Cpu(Some(1), Loop, true, false), Cpu(Some(2), Dispatched(2), true, false))
    case 24 => St3(b, false, 0, 5, Tk(Ready, 4, 0), Tk(Ready, 5, 5), Tk(Running, 3, 5),
                   Nt(Captured(Yield, 0), true), Nt(Body, true), Nt(Start, false), Cpu(Some(1), Loop, true, false), On(2, Body, true, false))
    case 25 => St3(b, false, 0, 5, Tk(Ready, 4, 0), Tk(Ready, 5, 5), Tk(Running, 3, 5),
                   Nt(Captured(Yield, 0), true), Nt(Body, true), Nt(Start, false), Cpu(Some(1), Loop, true, false), On(2, Captured(Yield, 1), true, false))
    case 26 => St3(b, true, 1, 5, Tk(Ready, 4, 0), Tk(Ready, 5, 5), Tk(Running, 3, 5),
                   Nt(Captured(Yield, 0), true), Nt(Body, true), Nt(Start, false), Cpu(Some(1), Loop, true, false), On(2, Held(Yield, 1, true), true, false))
    case 27 => St3(b, true, 1, 6, Tk(Ready, 4, 0), Tk(Ready, 5, 5), Tk(Ready, 6, 5),
                   Nt(Captured(Yield, 0), true), Nt(Body, true), Nt(Start, false), Cpu(Some(1), Loop, true, false), On(2, Parking(Body), true, false))
    case 28 => St3(b, true, 1, 6, Tk(Ready, 4, 0), Tk(Ready, 5, 5), Tk(Ready, 6, 5),
                   Nt(Captured(Yield, 0), true), Nt(Body, true), Nt(Body, true), Cpu(Some(1), Loop, true, false), Cpu(Some(2), Landed(2), true, false))
    case _ => St3(b, false, 1, 6, Tk(Ready, 4, 0), Tk(Ready, 5, 5), Tk(Ready, 6, 5),
                  Nt(Captured(Yield, 0), true), Nt(Body, true), Nt(Body, true), Cpu(Some(1), Loop, true, false), Cpu(Some(2), Loop, true, false))
  }

  ghost function Turn2(b: Sys, i: nat): Sys
    requires Base3(b)
  {
    match i
    // Task 0 resumes on CPU 1; its yield gives task 1 a new ticket, behind task 2's.
    case 30 => St3(b, false, 1, 6, Tk(Running, 4, 5), Tk(Ready, 5, 5), Tk(Ready, 6, 5),
                   Nt(Captured(Yield, 0), true), Nt(Body, true), Nt(Body, true), Cpu(Some(1), Loop, true, false), Cpu(Some(0), Dispatched(0), true, false))
    case 31 => St3(b, false, 1, 6, Tk(Running, 4, 5), Tk(Ready, 5, 5), Tk(Ready, 6, 5),
                   Nt(Captured(Yield, 0), false), Nt(Body, true), Nt(Body, true), Cpu(Some(1), Loop, true, false), On(0, Captured(Yield, 0), false, false))
    case 32 => St3(b, true, 1, 6, Tk(Running, 4, 5), Tk(Ready, 5, 5), Tk(Ready, 6, 5),
                   Nt(Captured(Yield, 0), false), Nt(Body, true), Nt(Body, true), Cpu(Some(1), Loop, true, false), On(0, Held(Yield, 0, false), true, false))
    case 33 => St3(b, true, 1, 7, Tk(Running, 4, 5), Tk(Ready, 7, 5), Tk(Ready, 6, 5),
                   Nt(Captured(Yield, 0), false), Nt(Body, true), Nt(Body, true), Cpu(Some(1), Loop, true, false), On(0, Parking(Body), true, false))
    case 34 => St3(b, true, 1, 7, Tk(Running, 4, 5), Tk(Ready, 7, 5), Tk(Ready, 6, 5),
                   Nt(Body, true), Nt(Body, true), Nt(Body, true), Cpu(Some(1), Loop, true, false), Cpu(Some(0), Landed(0), true, false))
    case 35 => St3(b, false, 1, 7, Tk(Running, 4, 5), Tk(Ready, 7, 5), Tk(Ready, 6, 5),
                   Nt(Body, true), Nt(Body, true), Nt(Body, true), Cpu(Some(1), Loop, true, false), Cpu(Some(0), Loop, true, false))
    // Task 2 overtakes task 1 again.
    case _ => St3(b, false, 1, 7, Tk(Running, 4, 5), Tk(Ready, 7, 5), Tk(Running, 6, 5),
                  Nt(Body, true), Nt(Body, true), Nt(Body, true), Cpu(Some(1), Loop, true, false), Cpu(Some(2), Dispatched(2), true, false))
  }

  ghost function TurnEvent(i: nat): Event {
    match i
    case 0 => Create(0, 0)
    case 1 => Create(1, 0)
    case 2 => Create(2, 0)
    case 3 => Dispatch(0, 0)
    case 4 => Load(0)
    case 5 => SetMask(0, false)
    case 6 => Tick(0, 0)
    case 7 => Tick(0, 0)
    case 8 => Tick(0, 0)
    case 9 => Tick(0, 0)
    case 10 => Enter(0, Yield)
    case 11 => Tick(0, 0)
    case 12 => Preempt(0)
    case 13 => Save(0)
    case 14 => Release(0)
    case 15 => Dispatch(0, 1)
    case 16 => Load(0)
    case 17 => Enter(0, Yield)
    case 18 => Acquire(0)
    case 19 => Mark(0)
    case 20 => Save(0)
    case 21 => Release(0)
    case 22 => Dispatch(1, 2)
    case 23 => Load(1)
    case 24 => Enter(1, Yield)
    case 25 => Acquire(1)
    case 26 => Mark(1)
    case 27 => Save(1)
    case 28 => Release(1)
    case 29 => Dispatch(1, 0)
    case 30 => Load(1)
    case 31 => Acquire(1)
    case 32 => Mark(1)
    case 33 => Save(1)
    case 34 => Release(1)
    case _ => Dispatch(1, 2)
  }

  ghost predicate TurnStepAt(b: Sys, i: nat)
    requires Base3(b) && Shape(Turn(b, i))
  {
    Enabled(false, Turn(b, i), TurnEvent(i)) && Next(false, Turn(b, i), TurnEvent(i)) == Turn(b, i + 1)
  }

  lemma TickTurns(b: Sys, i: nat)
    requires Base3(b) && Shape(Turn(b, i)) && 6 <= i < 10
    ensures TurnStepAt(b, i)
  {
    NoneAsleepTurn(b, i);
    hide Shape, Base;
  }

  lemma LastTick(b: Sys)
    requires Base3(b) && Shape(Turn(b, 11))
    ensures TurnStepAt(b, 11)
  {
    NoneAsleepTurn(b, 11);
    hide Shape, Base;
  }

  lemma NoneAsleepTurn(b: Sys, i: nat)
    requires Base3(b) && TurnEvent(i).Tick?
    ensures ExpireFrom(Turn(b, i).tb, 0, 0) == Turn(b, i).tb
  {
    hide ExpireFrom;
    NoSleepers(Turn(b, i).tb, 0);
  }

  lemma ArrivalTurns(b: Sys, i: nat)
    requires Base3(b) && Shape(Turn(b, i)) && (i == 0 || i == 1 || i == 2)
    ensures TurnStepAt(b, i)
  {
    hide Shape;
    if i == 0 {} else if i == 1 {} else {}
  }

  lemma OpeningTurns(b: Sys, i: nat)
    requires Base3(b) && Shape(Turn(b, i)) && (i == 3 || i == 4 || i == 5)
    ensures TurnStepAt(b, i)
  {
    hide Shape;
    if i == 3 {} else if i == 4 {} else {}
  }

  lemma CapturedTurns(b: Sys, i: nat)
    requires Base3(b) && Shape(Turn(b, i)) && (i == 10 || i == 12 || i == 13 || i == 14)
    ensures TurnStepAt(b, i)
  {
    hide Shape;
    if i == 10 {} else if i == 12 {} else if i == 13 {} else {}
  }

  lemma SecondTurns(b: Sys, i: nat)
    requires Base3(b) && Shape(Turn(b, i)) && (i == 15 || i == 16 || i == 17 || i == 18)
    ensures TurnStepAt(b, i)
  {
    hide Shape;
    if i == 15 {} else if i == 16 {} else if i == 17 {} else {}
  }

  lemma WaitingTurns(b: Sys, i: nat)
    requires Base3(b) && Shape(Turn(b, i)) && (i == 19 || i == 20 || i == 21)
    ensures TurnStepAt(b, i)
  {
    hide Shape;
    if i == 19 {} else if i == 20 {} else {}
  }

  lemma RivalTurns(b: Sys, i: nat)
    requires Base3(b) && Shape(Turn(b, i)) && (i == 22 || i == 23 || i == 24)
    ensures TurnStepAt(b, i)
  {
    hide Shape;
    if i == 22 {} else if i == 23 {} else {}
  }

  lemma RivalYields(b: Sys, i: nat)
    requires Base3(b) && Shape(Turn(b, i)) && (i == 25 || i == 26 || i == 27 || i == 28)
    ensures TurnStepAt(b, i)
  {
    hide Shape;
    if i == 25 {} else if i == 26 {} else if i == 27 {} else {}
  }

  lemma ResumedTurns(b: Sys, i: nat)
    requires Base3(b) && Shape(Turn(b, i)) && (i == 29 || i == 30 || i == 31)
    ensures TurnStepAt(b, i)
  {
    hide Shape;
    if i == 29 {} else if i == 30 {} else {}
  }

  lemma TicketTurns(b: Sys, i: nat)
    requires Base3(b) && Shape(Turn(b, i)) && (i == 32 || i == 33)
    ensures TurnStepAt(b, i)
  {
    hide Shape;
    if i == 32 {} else {}
  }

  lemma LastTurns(b: Sys, i: nat)
    requires Base3(b) && Shape(Turn(b, i)) && (i == 34 || i == 35)
    ensures TurnStepAt(b, i)
  {
    hide Shape;
    if i == 34 {} else {}
  }

  lemma TurnStep(b: Sys, i: nat)
    requires Base3(b) && Shape(Turn(b, i)) && i < 36
    ensures TurnStepAt(b, i)
  {
    if i < 3 { ArrivalTurns(b, i); }
    else if i < 6 { OpeningTurns(b, i); }
    else if i < 10 { TickTurns(b, i); }
    else if i == 11 { LastTick(b); }
    else if i < 15 { CapturedTurns(b, i); }
    else if i < 19 { SecondTurns(b, i); }
    else if i < 22 { WaitingTurns(b, i); }
    else if i < 25 { RivalTurns(b, i); }
    else if i < 29 { RivalYields(b, i); }
    else if i < 32 { ResumedTurns(b, i); }
    else if i < 34 { TicketTurns(b, i); }
    else { LastTurns(b, i); }
  }

  lemma FirstShape(b: Sys)
    requires Plain(b) && |b.tb.tasks| >= 3
    ensures Shape(Turn(b, 0))
  {
    assert forall t :: 0 <= t < |b.notes| ==> Turn(b, 0).notes[t] == N0;
    assert forall c :: 0 <= c < |b.cpus| ==> Turn(b, 0).cpus[c] == FREE;
  }

  lemma {:induction false} TurnShape(b: Sys, i: nat)
    requires Plain(b) && |b.tb.tasks| >= 3 && i <= 36
    ensures Shape(Turn(b, i))
    decreases i
  {
    if i == 0 {
      FirstShape(b);
    } else {
      TurnShape(b, i - 1);
      TurnStep(b, i - 1);
      hide Shape;
      ShapeKept(false, Turn(b, i - 1), TurnEvent(i - 1));
    }
  }

  /** A run in which task 2 is dispatched twice while task 1, of the same priority, waits READY. */
  lemma OvertakenTwice(n: nat, k: nat) returns (ss: seq<Sys>, es: seq<Event>)
    requires n >= 2 && k >= 3
    ensures Run(false, ss, es) && ss[0] == Boot(n, k, []) && |es| == 36
    ensures WaitsThrough(ss, 1, 20, 36) && es[22] == Dispatch(1, 2) == es[35]
    ensures ss[20].tb.tasks[1].prio == 0 && |ss[35].tb.tasks| == k && ss[35].tb.tasks[2].prio == 0
  {
    var b := Boot(n, k, []);
    assert Plain(b);
    ss := seq(37, i requires 0 <= i < 37 => Turn(b, i));
    es := seq(36, i requires 0 <= i < 36 => TurnEvent(i));
    TurnsWait(b);
    BootTurn(b);
    forall i | 0 <= i < 36 ensures StepTo(false, ss[i], es[i], ss[i + 1]) {
      TurnShape(b, i);
      TurnStep(b, i);
    }
  }

  lemma BootTurn(b: Sys)
    requires Plain(b) && |b.tb.tasks| >= 3 && !b.lock && b.holder == 0 && b.tb.rqSeq == 0 && b.tb.heads == [] && b.vals == []
    requires forall t :: 0 <= t < |b.tb.tasks| ==> b.tb.tasks[t] == U
    ensures Turn(b, 0) == b
  {
    assert Three(b.tb.tasks, U, U, U) == b.tb.tasks && Three(b.notes, N0, N0, N0) == b.notes && Two(b.cpus, FREE, FREE) == b.cpus;
  }

  lemma TurnsWait(b: Sys)
    requires Base3(b)
    ensures forall i :: 20 <= i <= 36 ==> |Turn(b, i).tb.tasks| == |b.tb.tasks| && Turn(b, i).tb.tasks[1].state == Ready
    ensures Turn(b, 20).tb.tasks[1].prio == 0 && Turn(b, 35).tb.tasks[2].prio == 0
  {
  }

  ghost predicate RunFrom(m: bool, nCpus: nat, nTasks: nat, ss: seq<Sys>, es: seq<Event>) {
    Run(m, ss, es) && exists vals :: ss[0] == Boot(nCpus, nTasks, vals)
  }

  /** Exactly when no equal overtakes twice: every run keeps the order if and only if the
      primitives are entered masked, or there is at most one CPU, or at most two tasks. */
  lemma OvertakingExactly(m: bool, n: nat, k: nat)
    ensures (forall ss: seq<Sys>, es: seq<Event> :: RunFrom(m, n, k, ss, es) ==> EqualsOnce(ss, es)) <==> m || n < 2 || k < 3
  {
    if Orderly(m, n, k) {
      forall ss: seq<Sys>, es: seq<Event> | RunFrom(m, n, k, ss, es) ensures EqualsOnce(ss, es) {
        var vals :| ss[0] == Boot(n, k, vals);
        BoundedOvertaking(m, n, k, vals, ss, es);
      }
    } else {
      var ss, es := OvertakenTwice(n, k);
      assert RunFrom(m, n, k, ss, es);
      assert !EqualsOnce(ss, es);
    }
  }
}
