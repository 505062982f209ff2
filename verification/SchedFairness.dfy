/** Bounded overtaking: FIFO tickets are fresh and strictly increasing, so a READY task
    waits behind each rival of its own priority at most once. */
module SchedFairness {
  import opened Wrappers
  import opened SchedTable
  import opened Sched
  import opened SchedSafety
  import opened SchedBusy

  ghost predicate TicketsIssued(s: Sys) {
    forall t :: 0 <= t < |s.tb.tasks| ==> s.tb.tasks[t].key <= s.tb.rqSeq
  }

  /** A step's effect on tickets and priorities, whoever it marks: a ticket stays or is later than
      all issued so far, a task becomes READY only with such a ticket, and the priority of a task
      in use is fixed. */
  ghost predicate TicketStep(s: Sys, s': Sys, t: nat)
    requires t < |s.tb.tasks| == |s'.tb.tasks|
  {
    var a, b := s.tb.tasks[t], s'.tb.tasks[t];
    && s.tb.rqSeq <= s'.tb.rqSeq
    && (a.state != Unused ==> b.state != Unused && b.prio == a.prio)
    && ((b.key == a.key && (b.state == Ready ==> a.state == Ready)) || s.tb.rqSeq < b.key <= s'.tb.rqSeq)
  }

  lemma TicketStepHolds(m: bool, s: Sys, e: Event, t: nat)
    requires Shape(s) && Enabled(m, s, e) && t < |s.tb.tasks| == |Next(m, s, e).tb.tasks|
    ensures TicketStep(s, Next(m, s, e), t)
  {
    if e.Tick? { ExpireMeaning(s.tb, e.now, 0); }
    if e.WakeUp? { WakeMeaning(s.tb, e.q, e.xs); }
    hide IsList, PointOk;
  }

  lemma RunTicketStep(m: bool, ss: seq<Sys>, es: seq<Event>, i: nat, t: nat)
    requires Run(m, ss, es) && i < |es| && t < |ss[i].tb.tasks|
    ensures |ss[i + 1].tb.tasks| == |ss[i].tb.tasks| && TicketStep(ss[i], ss[i + 1], t)
  {
    assert StepTo(m, ss[i], es[i], ss[i + 1]);
    SizesKept(m, ss[i], es[i]);
    TicketStepHolds(m, ss[i], es[i], t);
  }

  lemma {:induction false} RunTickets(m: bool, nCpus: nat, nTasks: nat, vals: seq<int>, ss: seq<Sys>, es: seq<Event>, i: nat)
    requires Run(m, ss, es) && ss[0] == Boot(nCpus, nTasks, vals) && i <= |es|
    ensures |ss[i].cpus| == nCpus && |ss[i].tb.tasks| == nTasks && TicketsIssued(ss[i])
    decreases i
  {
    if i > 0 {
      RunTickets(m, nCpus, nTasks, vals, ss, es, i - 1);
      assert StepTo(m, ss[i - 1], es[i - 1], ss[i - 1 + 1]);
      SizesKept(m, ss[i - 1], es[i - 1]);
      forall t | 0 <= t < nTasks ensures ss[i].tb.tasks[t].key <= ss[i].tb.rqSeq {
        RunTicketStep(m, ss, es, i - 1, t);
      }
    }
  }

  predicate ReadyAt(s: Sys, t: nat) {
    t < |s.tb.tasks| && s.tb.tasks[t].state == Ready
  }

  /** t stays READY from state i to state j. */
  ghost predicate WaitsThrough(ss: seq<Sys>, t: nat, i: nat, j: nat) {
    i <= j < |ss| && forall k :: i <= k <= j ==> ReadyAt(ss[k], t)
  }

  lemma PrioStays(m: bool, ss: seq<Sys>, es: seq<Event>, i: nat, t: nat)
    requires Run(m, ss, es) && i < |es| && t < |ss[i].tb.tasks| && ss[i].tb.tasks[t].state == Ready
    ensures t < |ss[i + 1].tb.tasks| && ss[i + 1].tb.tasks[t].prio == ss[i].tb.tasks[t].prio
  {
    RunTicketStep(m, ss, es, i, t);
  }

  lemma RunLength(m: bool, ss: seq<Sys>, es: seq<Event>)
    requires Run(m, ss, es)
    ensures |ss| == |es| + 1
  {
  }

  lemma {:induction false} WaiterPrio(m: bool, ss: seq<Sys>, es: seq<Event>, t: nat, i: nat, j: nat)
    requires Run(m, ss, es) && WaitsThrough(ss, t, i, j)
    ensures ss[j].tb.tasks[t].prio == ss[i].tb.tasks[t].prio
    decreases j - i
  {
    hide Run;
    RunLength(m, ss, es);
    if i < j {
      PrioStays(m, ss, es, i, t);
      WaiterPrio(m, ss, es, t, i + 1, j);
    }
  }

  lemma DispatchPicks(m: bool, ss: seq<Sys>, es: seq<Event>, k: nat)
    requires Run(m, ss, es) && k < |es| && es[k].Dispatch?
    ensures IsPick(ss[k].tb.tasks, es[k].t) && es[k].t < |ss[k + 1].tb.tasks| && ss[k + 1].tb.tasks[es[k].t].state == Running
  {
    assert StepTo(m, ss[k], es[k], ss[k + 1]);
  }

  /** While t waits READY no task of lower priority is dispatched, however the primitives are
      entered and whomever they mark. */
  lemma LowerWait(m: bool, ss: seq<Sys>, es: seq<Event>, t: nat, i: nat, j: nat, k: nat)
    requires Run(m, ss, es) && WaitsThrough(ss, t, i, j) && i <= k < j && es[k].Dispatch?
    ensures es[k].t < |ss[k].tb.tasks| && ss[k].tb.tasks[es[k].t].prio <= ss[i].tb.tasks[t].prio
  {
    WaiterPrio(m, ss, es, t, i, k);
    DispatchPicks(m, ss, es, k);
  }

  // ---- equals overtake once -------------------------------------------------------------------

  /** u, if READY, holds a later ticket than t. */
  ghost predicate QueuedBehind(s: Sys, t: nat, u: nat) {
    t < |s.tb.tasks| && u < |s.tb.tasks| && s.tb.tasks[u].state != Unused &&
    (s.tb.tasks[u].state == Ready ==> s.tb.tasks[u].key > s.tb.tasks[t].key)
  }

  lemma SweptWasBlocked(m: bool, s: Sys, e: Event, t: nat)
    requires Inv(m, s) && e.WakeUp? && Enabled(m, s, e) && t < |s.tb.tasks| && s.tb.tasks[t].state == Ready
    ensures t < |WakeList(s.tb, e.q, e.xs).tasks| && WakeList(s.tb, e.q, e.xs).tasks[t] == s.tb.tasks[t]
  {
    var ql :| Queues(s, ql);
    WakeTouches(m, s, e, ql);
    assert WaitInv(s, t);
  }

  /** With the invariant a READY task keeps its ticket. */
  lemma SoundKeyStays(m: bool, s: Sys, e: Event, t: nat)
    requires Inv(m, s) && Sound(m, s) && Enabled(m, s, e) && t < |s.tb.tasks| == |Next(m, s, e).tb.tasks|
    requires s.tb.tasks[t].state == Ready && Next(m, s, e).tb.tasks[t].state == Ready
    ensures Next(m, s, e).tb.tasks[t].key == s.tb.tasks[t].key
  {
    if e.Tick? {
      ExpireMeaning(s.tb, e.now, 0);
    } else if e.WakeUp? {
      SweptWasBlocked(m, s, e, t);
    } else if e.Mark? {
      TargetIsCaller(m, s, e.c, s.cpus[e.c].place.at.pc);
      assert CpuInv(m, s, e.c);
    } else if e.Launch? {
      assert TaskInv(m, s, e.slot);
    }
    hide Queues;
  }

  /** Entered masked, or with one CPU, or with at most two tasks. */
  predicate Orderly(m: bool, nCpus: nat, nTasks: nat) {
    m || nCpus < 2 || nTasks < 3
  }

  /** While t and its rival u are both READY, t keeps its ticket. */
  lemma KeyStays(m: bool, nCpus: nat, nTasks: nat, vals: seq<int>, ss: seq<Sys>, es: seq<Event>, i: nat, t: nat, u: nat)
    requires Run(m, ss, es) && ss[0] == Boot(nCpus, nTasks, vals) && Orderly(m, nCpus, nTasks) && i < |es| && t != u
    requires t < |ss[i].tb.tasks| == |ss[i + 1].tb.tasks| && u < |ss[i].tb.tasks|
    requires ss[i].tb.tasks[t].state == Ready && ss[i + 1].tb.tasks[t].state == Ready && ss[i + 1].tb.tasks[u].state == Ready
    ensures ss[i + 1].tb.tasks[t].key == ss[i].tb.tasks[t].key
  {
    assert StepTo(m, ss[i], es[i], ss[i + 1]);
    RunTickets(m, nCpus, nTasks, vals, ss, es, i);
    if m || nCpus < 2 || nTasks < 2 {
      RunInv(m, nCpus, nTasks, vals, ss, es, i);
      SoundKeyStays(m, ss[i], es[i], t);
    } else {
      RunPaid(m, nCpus, nTasks, vals, ss, es, i);
      TicketStays(m, ss[i], es[i], t, u);
    }
  }

  lemma BehindStep(s: Sys, s': Sys, t: nat, u: nat)
    requires t < |s.tb.tasks| == |s'.tb.tasks| && u < |s.tb.tasks| && TicketsIssued(s)
    requires TicketStep(s, s', t) && TicketStep(s, s', u) && QueuedBehind(s, t, u)
    requires s'.tb.tasks[u].state == Ready ==> s'.tb.tasks[t].key == s.tb.tasks[t].key
    ensures QueuedBehind(s', t, u)
  {
  }

  lemma StaysBehind(m: bool, nCpus: nat, nTasks: nat, vals: seq<int>, ss: seq<Sys>, es: seq<Event>, t: nat, u: nat, i: nat)
    requires Run(m, ss, es) && ss[0] == Boot(nCpus, nTasks, vals) && Orderly(m, nCpus, nTasks) && i < |es| && t != u
    requires QueuedBehind(ss[i], t, u) && ss[i].tb.tasks[t].state == Ready
    requires t < |ss[i + 1].tb.tasks| && ss[i + 1].tb.tasks[t].state == Ready
    ensures QueuedBehind(ss[i + 1], t, u)
  {
    hide Run, Boot, TicketStep, TicketsIssued;
    RunLength(m, ss, es);
    RunTicketStep(m, ss, es, i, t);
    RunTicketStep(m, ss, es, i, u);
    RunTickets(m, nCpus, nTasks, vals, ss, es, i);
    if ss[i + 1].tb.tasks[u].state == Ready { KeyStays(m, nCpus, nTasks, vals, ss, es, i, t, u); }
    BehindStep(ss[i], ss[i + 1], t, u);
  }

  /** Once u has been dispatched past the waiting t, u is behind t whenever it is READY again. */
  lemma {:induction false} Behind(m: bool, nCpus: nat, nTasks: nat, vals: seq<int>, ss: seq<Sys>, es: seq<Event>, t: nat, u: nat, i: nat, j: nat)
    requires Run(m, ss, es) && ss[0] == Boot(nCpus, nTasks, vals) && Orderly(m, nCpus, nTasks)
    requires WaitsThrough(ss, t, i, j) && u < |ss[i].tb.tasks| && ss[i].tb.tasks[u].state == Running
    ensures QueuedBehind(ss[j], t, u)
    decreases j
  {
    hide Run, Boot, Orderly;
    RunLength(m, ss, es);
    assert ReadyAt(ss[i], t) && t != u;
    if i < j {
      assert WaitsThrough(ss, t, i, j - 1);
      assert ReadyAt(ss[j - 1], t) && ReadyAt(ss[j], t);
      hide WaitsThrough;
      Behind(m, nCpus, nTasks, vals, ss, es, t, u, i, j - 1);
      hide QueuedBehind;
      StaysBehind(m, nCpus, nTasks, vals, ss, es, t, u, j - 1);
    }
  }

  /** A rival dispatched twice while t waits READY has strictly higher priority. */
  ghost predicate EqualsOnce(ss: seq<Sys>, es: seq<Event>) {
    forall t: nat, i: nat, j: nat, k: nat, l: nat ::
      WaitsThrough(ss, t, i, j) && i <= k < l < j <= |es| && es[k].Dispatch? && es[l].Dispatch? && es[k].t == es[l].t ==>
        es[l].t < |ss[l].tb.tasks| && ss[l].tb.tasks[es[l].t].prio < ss[i].tb.tasks[t].prio
  }

  /** Each task of t's own priority overtakes it at most once. */
  lemma BoundedOvertaking(m: bool, nCpus: nat, nTasks: nat, vals: seq<int>, ss: seq<Sys>, es: seq<Event>)
    requires Run(m, ss, es) && ss[0] == Boot(nCpus, nTasks, vals) && Orderly(m, nCpus, nTasks)
    ensures EqualsOnce(ss, es)
  {
    forall t: nat, i: nat, j: nat, k: nat, l: nat |
      WaitsThrough(ss, t, i, j) && i <= k < l < j <= |es| && es[k].Dispatch? && es[l].Dispatch? && es[k].t == es[l].t
      ensures es[l].t < |ss[l].tb.tasks| && ss[l].tb.tasks[es[l].t].prio < ss[i].tb.tasks[t].prio
    {
      DispatchPicks(m, ss, es, k);
      DispatchPicks(m, ss, es, l);
      WaiterPrio(m, ss, es, t, i, l);
      hide Run, Boot;
      Behind(m, nCpus, nTasks, vals, ss, es, t, es[k].t, k + 1, l);
    }
  }
}
