/** The task table of kernel/task.c and kernel/sched.c: tasks, FIFO tickets and
    wait-queue links, all guarded by task_state_lock.  The value type `Table` and
    the functions over it say what each locked section does; class `TaskTable`
    is the table itself, updated in place by the same loops as the source. */
module SchedTable {
  import opened Seqs
  import opened Wrappers

  const SCHED_QUANTUM: nat := 5

  datatype TaskState = Unused | Ready | Running | Sleeping | Blocked | Dead

  datatype Tcb = Tcb(state: TaskState, prio: nat, key: nat, quantum: nat, wakeAt: nat, next: Option<nat>)

  datatype Table = Table(tasks: seq<Tcb>, rqSeq: nat, heads: seq<Option<nat>>)

  predicate Better(a: Tcb, b: Tcb) {
    if a.prio != b.prio then a.prio < b.prio else a.key < b.key
  }

  /** t is the READY task that no READY task beats; the lowest index wins a tie. */
  ghost predicate IsPick(ts: seq<Tcb>, t: nat) {
    && t < |ts| && ts[t].state == Ready
    && (forall u :: 0 <= u < |ts| && ts[u].state == Ready ==> !Better(ts[u], ts[t]))
    && (forall u :: 0 <= u < t && ts[u].state == Ready ==> Better(ts[t], ts[u]))
  }

  ghost predicate NoneReady(ts: seq<Tcb>) {
    forall u :: 0 <= u < |ts| ==> ts[u].state != Ready
  }

  ghost predicate FirstUnused(ts: seq<Tcb>, slot: nat) {
    && slot < |ts| && ts[slot].state == Unused
    && forall u :: 0 <= u < slot ==> ts[u].state != Unused
  }

  function Prime(tb: Table, slot: nat, prio: nat, state: TaskState): Table
    requires slot < |tb.tasks|
  {
    tb.(tasks := tb.tasks[slot := Tcb(state, prio, tb.rqSeq + 1, 0, 0, None)], rqSeq := tb.rqSeq + 1)
  }

  /** t becomes READY behind everyone: it draws the next ticket. */
  function Requeue(tb: Table, t: nat): Table
    requires t < |tb.tasks|
  {
    tb.(tasks := tb.tasks[t := tb.tasks[t].(state := Ready, key := tb.rqSeq + 1)], rqSeq := tb.rqSeq + 1)
  }

  function SetState(tb: Table, t: nat, st: TaskState): Table
    requires t < |tb.tasks|
  {
    tb.(tasks := tb.tasks[t := tb.tasks[t].(state := st)])
  }

  /** The timer tick's sleeper sweep over tasks i, i+1, ... */
  function ExpireFrom(tb: Table, now: nat, i: nat): (r: Table)
    requires i <= |tb.tasks|
    ensures |r.tasks| == |tb.tasks| && r.heads == tb.heads
    decreases |tb.tasks| - i
  {
    if i == |tb.tasks| then tb
    else if tb.tasks[i].state == Sleeping && tb.tasks[i].wakeAt <= now then ExpireFrom(Requeue(tb, i), now, i + 1)
    else ExpireFrom(tb, now, i + 1)
  }

  /** One tick charged to the running task. */
  function Charge(tb: Table, cur: Option<nat>): (r: Table)
    requires cur.Some? ==> cur.value < |tb.tasks|
  {
    if cur.Some? && tb.tasks[cur.value].state == Running && tb.tasks[cur.value].quantum > 0
    then tb.(tasks := tb.tasks[cur.value := tb.tasks[cur.value].(quantum := tb.tasks[cur.value].quantum - 1)])
    else tb
  }

  predicate QuantumGone(tb: Table, cur: Option<nat>)
    requires cur.Some? ==> cur.value < |tb.tasks|
  {
    cur.Some? && tb.tasks[cur.value].state == Running && tb.tasks[cur.value].quantum == 0
  }

  /** xs is the list threaded through wq_next from h. */
  ghost predicate IsList(ts: seq<Tcb>, h: Option<nat>, xs: seq<nat>)
    decreases |xs|
  {
    if xs == [] then h == None
    else h == Some(xs[0]) && xs[0] < |ts| && IsList(ts, ts[xs[0]].next, xs[1..])
  }

  function LinkFront(tb: Table, q: nat, t: nat): Table
    requires q < |tb.heads| && t < |tb.tasks|
  {
    tb.(tasks := tb.tasks[t := tb.tasks[t].(next := tb.heads[q], state := Blocked)],
        heads := tb.heads[q := Some(t)])
  }

  /** Waking t asks for a preemption of a caller running at priority `prio`. */
  predicate Outranks(ts: seq<Tcb>, t: nat, prio: nat) {
    t < |ts| && ts[t].state != Dead && ts[t].prio < prio
  }

  /** Some one of the first k tasks of xs does. */
  ghost predicate AnyOutranks(ts: seq<Tcb>, xs: seq<nat>, k: nat, prio: nat)
    requires k <= |xs|
  {
    exists i :: 0 <= i < k && Outranks(ts, xs[i], prio)
  }

  /** One turn of the wake loop on the list head t: unlink, and re-queue unless DEAD. */
  function WakeOne(tb: Table, q: nat, t: nat): Table
    requires q < |tb.heads| && t < |tb.tasks|
  {
    var tcb := tb.tasks[t].(next := None);
    var out := tb.(heads := tb.heads[q := tb.tasks[t].next], tasks := tb.tasks[t := tcb]);
    if tcb.state == Dead then out else Requeue(out, t)
  }

  /** The whole wake loop over the list xs. */
  ghost function WakeList(tb: Table, q: nat, xs: seq<nat>): (r: Table)
    requires q < |tb.heads| && forall i :: 0 <= i < |xs| ==> xs[i] < |tb.tasks|
    ensures |r.tasks| == |tb.tasks| && |r.heads| == |tb.heads|
    decreases |xs|
  {
    if xs == [] then tb else WakeList(WakeOne(tb, q, xs[0]), q, xs[1..])
  }

  // ---- facts about the specification functions --------------------------------

  lemma {:induction false} ListFrame(ts: seq<Tcb>, us: seq<Tcb>, h: Option<nat>, xs: seq<nat>)
    requires IsList(ts, h, xs) && |us| == |ts|
    requires forall i :: 0 <= i < |xs| && xs[i] < |ts| ==> us[xs[i]].next == ts[xs[i]].next
    ensures IsList(us, h, xs)
    decreases |xs|
  {
    if xs != [] {
      forall i | 0 <= i < |xs[1..]| && xs[1..][i] < |ts| ensures us[xs[1..][i]].next == ts[xs[1..][i]].next {
        assert xs[1..][i] == xs[i + 1];
      }
      ListFrame(ts, us, ts[xs[0]].next, xs[1..]);
    }
  }

  lemma {:induction false} ListInRange(ts: seq<Tcb>, h: Option<nat>, xs: seq<nat>)
    requires IsList(ts, h, xs)
    ensures forall i :: 0 <= i < |xs| ==> xs[i] < |ts|
    decreases |xs|
  {
    if xs != [] {
      ListInRange(ts, ts[xs[0]].next, xs[1..]);
      forall i | 0 <= i < |xs| ensures xs[i] < |ts| {
        if i > 0 { assert xs[i] == xs[1..][i - 1]; }
      }
    }
  }

  /** A linked list determines its elements. */
  lemma {:induction false} ListUnique(ts: seq<Tcb>, h: Option<nat>, xs: seq<nat>, ys: seq<nat>)
    requires IsList(ts, h, xs) && IsList(ts, h, ys)
    ensures xs == ys
    decreases |xs|
  {
    if xs != [] && ys != [] {
      ListUnique(ts, ts[xs[0]].next, xs[1..], ys[1..]);
      assert xs == [xs[0]] + xs[1..] && ys == [ys[0]] + ys[1..];
    }
  }

  /** What the sleeper sweep does to every task at once: expired sleepers become
      READY with fresh tickets, everybody else is untouched. */
  lemma {:induction false} ExpireMeaning(tb: Table, now: nat, i: nat)
    requires i <= |tb.tasks|
    ensures var r := ExpireFrom(tb, now, i);
      && r.rqSeq >= tb.rqSeq
      && forall t :: 0 <= t < |tb.tasks| ==>
           if t >= i && tb.tasks[t].state == Sleeping && tb.tasks[t].wakeAt <= now
           then tb.rqSeq < r.tasks[t].key <= r.rqSeq && r.tasks[t] == tb.tasks[t].(state := Ready, key := r.tasks[t].key)
           else r.tasks[t] == tb.tasks[t]
    decreases |tb.tasks| - i
  {
    if i < |tb.tasks| {
      if tb.tasks[i].state == Sleeping && tb.tasks[i].wakeAt <= now {
        ExpireMeaning(Requeue(tb, i), now, i + 1);
      } else {
        ExpireMeaning(tb, now, i + 1);
      }
    }
  }

  /** One turn of the wake loop leaves the rest of the list hanging off the queue. */
  lemma WakeStep(tb: Table, q: nat, xs: seq<nat>, k: nat)
    requires q < |tb.heads| && k < |xs| && Distinct(xs)
    requires forall i :: 0 <= i < |xs| ==> xs[i] < |tb.tasks|
    requires IsList(tb.tasks, tb.heads[q], xs[k..])
    ensures tb.heads[q] == Some(xs[k])
    ensures var r := WakeOne(tb, q, xs[k]);
      && IsList(r.tasks, r.heads[q], xs[k + 1..])
      && WakeList(tb, q, xs[k..]) == WakeList(r, q, xs[k + 1..])
      && forall i :: k < i < |xs| ==> r.tasks[xs[i]] == tb.tasks[xs[i]]
  {
    var r := WakeOne(tb, q, xs[k]);
    var tail := xs[k + 1..];
    assert xs[k..][1..] == tail;
    ListFrame(tb.tasks, r.tasks, tb.tasks[xs[k]].next, tail);
  }

  /** r is tb with queue q swept: the queue ends empty, its members xs are unlinked and
      READY with fresh tickets (a DEAD one only unlinked), nobody else changes. */
  ghost predicate Swept(tb: Table, q: nat, xs: seq<nat>, r: Table) {
    && |r.tasks| == |tb.tasks| && q < |tb.heads|
    && r.rqSeq >= tb.rqSeq && r.heads == tb.heads[q := None]
    && forall t :: 0 <= t < |tb.tasks| ==>
         if t !in xs then r.tasks[t] == tb.tasks[t]
         else if tb.tasks[t].state == Dead then r.tasks[t] == tb.tasks[t].(next := None)
         else tb.rqSeq < r.tasks[t].key <= r.rqSeq && r.tasks[t] == tb.tasks[t].(next := None, state := Ready, key := r.tasks[t].key)
  }

  lemma SweptOneMore(tb: Table, q: nat, xs: seq<nat>, r: Table)
    requires q < |tb.heads| && xs != [] && Distinct(xs) && xs[0] < |tb.tasks|
    requires Swept(WakeOne(tb, q, xs[0]), q, xs[1..], r)
    ensures Swept(tb, q, xs, r)
  {
    var x, tail := xs[0], xs[1..];
    assert xs == [x] + tail;
    assert x !in tail;
    assert WakeOne(tb, q, x).heads[q := None] == tb.heads[q := None];
  }

  lemma {:induction false} WakeMeaning(tb: Table, q: nat, xs: seq<nat>)
    requires q < |tb.heads| && IsList(tb.tasks, tb.heads[q], xs) && Distinct(xs)
    requires forall i :: 0 <= i < |xs| ==> xs[i] < |tb.tasks|
    ensures Swept(tb, q, xs, WakeList(tb, q, xs))
    decreases |xs|
  {
    if xs == [] {
      assert tb.heads == tb.heads[q := None];
    } else {
      hide Swept;
      assert xs[0..] == xs;
      WakeStep(tb, q, xs, 0);
      WakeMeaning(WakeOne(tb, q, xs[0]), q, xs[1..]);
      SweptOneMore(tb, q, xs, WakeList(tb, q, xs));
    }
  }

  /** The tasks of xs that are not DEAD. */
  ghost function Live(ts: seq<Tcb>, xs: seq<nat>): (r: nat)
    requires forall i :: 0 <= i < |xs| ==> xs[i] < |ts|
  {
    if xs == [] then 0 else (if ts[xs[0]].state == Dead then 0 else 1) + Live(ts, xs[1..])
  }

  lemma {:induction false} LiveSame(ts: seq<Tcb>, us: seq<Tcb>, xs: seq<nat>)
    requires |us| == |ts| && forall i :: 0 <= i < |xs| ==> xs[i] < |ts| && us[xs[i]].state == ts[xs[i]].state
    ensures Live(us, xs) == Live(ts, xs)
    decreases |xs|
  {
    if xs != [] { LiveSame(ts, us, xs[1..]); }
  }

  /** The woken tasks get consecutive tickets in list order; a DEAD one gets none. */
  lemma {:induction false} WakeOrder(tb: Table, q: nat, xs: seq<nat>)
    requires q < |tb.heads| && IsList(tb.tasks, tb.heads[q], xs) && Distinct(xs)
    requires forall i :: 0 <= i < |xs| ==> xs[i] < |tb.tasks|
    ensures WakeList(tb, q, xs).rqSeq == tb.rqSeq + Live(tb.tasks, xs)
    ensures forall i :: 0 <= i < |xs| && tb.tasks[xs[i]].state != Dead ==>
      WakeList(tb, q, xs).tasks[xs[i]].key == tb.rqSeq + 1 + Live(tb.tasks, xs[..i])
    decreases |xs|
  {
    if xs != [] {
      assert xs[0..] == xs;
      WakeStep(tb, q, xs, 0);
      var one, tail := WakeOne(tb, q, xs[0]), xs[1..];
      WakeOrder(one, q, tail);
      WakeMeaning(one, q, tail);
      LiveSame(tb.tasks, one.tasks, tail);
      forall i | 0 <= i < |xs| && tb.tasks[xs[i]].state != Dead
        ensures WakeList(tb, q, xs).tasks[xs[i]].key == tb.rqSeq + 1 + Live(tb.tasks, xs[..i])
      {
        if i > 0 {
          assert tail[i - 1] == xs[i] && xs[..i][1..] == tail[..i - 1];
          LiveSame(tb.tasks, one.tasks, tail[..i - 1]);
        }
      }
    }
  }

  /** Of two due sleepers the one in the lower slot gets the earlier ticket. */
  lemma {:induction false} ExpireOrder(tb: Table, now: nat, i: nat, t: nat, u: nat)
    requires i <= t < u < |tb.tasks| && tb.tasks[t].state == Sleeping == tb.tasks[u].state
    requires tb.tasks[t].wakeAt <= now && tb.tasks[u].wakeAt <= now
    ensures ExpireFrom(tb, now, i).tasks[t].key < ExpireFrom(tb, now, i).tasks[u].key
    decreases |tb.tasks| - i
  {
    if i == t {
      ExpireMeaning(Requeue(tb, t), now, t + 1);
    } else if tb.tasks[i].state == Sleeping && tb.tasks[i].wakeAt <= now {
      ExpireOrder(Requeue(tb, i), now, i + 1, t, u);
    } else {
      ExpireOrder(tb, now, i + 1, t, u);
    }
  }

  // ---- the table in place ----------------------------------------------------------

  class TaskTable {
    var tasks: array<Tcb>
    var rqSeq: nat
    var heads: array<Option<nat>>

    ghost function View(): Table
      reads this, tasks, heads
    {
      Table(tasks[..], rqSeq, heads[..])
    }

    constructor (nTasks: nat, nQueues: nat)
      ensures fresh(tasks) && fresh(heads) && tasks.Length == nTasks && heads.Length == nQueues
      ensures View().rqSeq == 0
      ensures forall t :: 0 <= t < nTasks ==> tasks[t] == Tcb(Unused, 0, 0, 0, 0, None)
      ensures forall q :: 0 <= q < nQueues ==> heads[q] == None
    {
      tasks := new Tcb[nTasks](_ => Tcb(Unused, 0, 0, 0, 0, None));
      heads := new Option<nat>[nQueues](_ => None);
      rqSeq := 0;
    }

    /** pick_next */
    method PickNext() returns (best: Option<nat>)
      ensures best.Some? ==> IsPick(tasks[..], best.value)
      ensures best.None? ==> NoneReady(tasks[..])
    {
      best := None;
      for i := 0 to tasks.Length
        invariant best.None? ==> forall u :: 0 <= u < i ==> tasks[u].state != Ready
        invariant best.Some? ==> best.value < i && IsPick(tasks[..i], best.value)
      {
        if tasks[i].state == Ready {
          if best.None? || Better(tasks[i], tasks[best.value]) {
            best := Some(i);
          }
        }
        assert tasks[..i + 1] == tasks[..i] + [tasks[i]];
      }
      assert tasks[..tasks.Length] == tasks[..];
    }

    /** alloc_task */
    method AllocTask() returns (slot: Option<nat>)
      ensures slot.Some? ==> FirstUnused(tasks[..], slot.value)
      ensures slot.None? ==> forall u :: 0 <= u < tasks.Length ==> tasks[u].state != Unused
    {
      for i := 0 to tasks.Length
        invariant forall u :: 0 <= u < i ==> tasks[u].state != Unused
      {
        if tasks[i].state == Unused { return Some(i); }
      }
      return None;
    }

    method NextKey() returns (k: nat)
      modifies this`rqSeq
      ensures rqSeq == old(rqSeq) + 1 && k == rqSeq
    {
      rqSeq := rqSeq + 1;
      k := rqSeq;
    }

    /** task_create and task_create_deferred inside the lock: `initial` is READY or BLOCKED. */
    method Create(prio: nat, initial: TaskState) returns (slot: Option<nat>)
      modifies this`rqSeq, tasks
      ensures slot.None? ==> View() == old(View()) && forall u :: 0 <= u < tasks.Length ==> tasks[u].state != Unused
      ensures slot.Some? ==> FirstUnused(old(tasks[..]), slot.value) && View() == Prime(old(View()), slot.value, prio, initial)
    {
      slot := AllocTask();
      if slot.Some? {
        var k := NextKey();
        tasks[slot.value] := Tcb(initial, prio, k, 0, 0, None);
      }
    }

    method MakeReady(t: nat)
      requires t < tasks.Length
      modifies this`rqSeq, tasks
      ensures View() == Requeue(old(View()), t)
    {
      var k := NextKey();
      tasks[t] := tasks[t].(state := Ready, key := k);
    }

    /** sched_tick: wake expired sleepers, charge the current task. */
    method Tick(now: nat, current: Option<nat>) returns (resched: bool)
      requires current.Some? ==> current.value < tasks.Length
      requires heads as object != tasks as object
      modifies this`rqSeq, tasks
      ensures View() == Charge(ExpireFrom(old(View()), now, 0), current)
      ensures resched == QuantumGone(View(), current)
    {
      var i := 0;
      while i < tasks.Length
        invariant 0 <= i <= tasks.Length
        invariant heads[..] == old(heads[..])
        invariant ExpireFrom(View(), now, i) == ExpireFrom(old(View()), now, 0)
      {
        if tasks[i].state == Sleeping && tasks[i].wakeAt <= now {
          MakeReady(i);
        }
        i := i + 1;
      }
      resched := false;
      if current.Some? && tasks[current.value].state == Running {
        if tasks[current.value].quantum > 0 {
          tasks[current.value] := tasks[current.value].(quantum := tasks[current.value].quantum - 1);
        }
        if tasks[current.value].quantum == 0 { resched := true; }
      }
    }

    /** The enqueue half of wait_sleep_when. */
    method Link(q: nat, t: nat)
      requires q < heads.Length && t < tasks.Length
      requires heads as object != tasks as object
      modifies tasks, heads
      ensures View() == LinkFront(old(View()), q, t)
    {
      tasks[t] := tasks[t].(next := heads[q]);
      heads[q] := Some(t);
      tasks[t] := tasks[t].(state := Blocked);
    }

    /** One turn of the wake loop. */
    method WakeHead(q: nat)
      requires q < heads.Length && heads as object != tasks as object
      requires heads[q].Some? && heads[q].value < tasks.Length
      modifies this`rqSeq, tasks, heads
      ensures View() == WakeOne(old(View()), q, old(heads[q]).value)
    {
      var t := heads[q].value;
      heads[q] := tasks[t].next;
      tasks[t] := tasks[t].(next := None);
      if tasks[t].state != Dead {
        MakeReady(t);
      }
    }

    /** wait_wake_all; xs is the list hanging off the queue. */
    method WakeAll(q: nat, curPrio: Option<nat>, ghost xs: seq<nat>) returns (preempt: bool)
      requires q < heads.Length && heads as object != tasks as object
      requires IsList(tasks[..], heads[q], xs) && Distinct(xs)
      requires forall i :: 0 <= i < |xs| ==> xs[i] < tasks.Length
      modifies this`rqSeq, tasks, heads
      ensures View() == WakeList(old(View()), q, xs)
      ensures preempt <==> curPrio.Some? && AnyOutranks(old(tasks[..]), xs, |xs|, curPrio.value)
    {
      ghost var k: nat := 0;
      ghost var was := tasks[..];
      preempt := false;
      assert xs[0..] == xs;
      while heads[q].Some?
        invariant k <= |xs| && IsList(tasks[..], heads[q], xs[k..])
        invariant WakeList(View(), q, xs[k..]) == WakeList(old(View()), q, xs)
        invariant forall i :: k <= i < |xs| ==> tasks[xs[i]] == was[xs[i]]
        invariant preempt <==> curPrio.Some? && AnyOutranks(was, xs, k, curPrio.value)
        decreases |xs| - k
      {
        WakeStep(View(), q, xs, k);
        var t := heads[q].value;
        if tasks[t].state != Dead && curPrio.Some? && tasks[t].prio < curPrio.value {
          preempt := true;
        }
        WakeHead(q);
        k := k + 1;
      }
    }
  }
}
