/** Every CPU's control point as it moves between its scheduler context and the
    tasks (sched_run, sched_park, the blocking primitives and the interrupt-exit
    preemption point), together with the shared task table.  A step is either one
    section under task_state_lock that no context switch cuts, or one piece of a
    section that a switch does cut: acquire, mark, save, release. */
module Sched {
  import opened Seqs
  import opened Wrappers
  import opened SchedTable

  /** A call to a blocking primitive.  `keep` holds the values of the shared word
      behind queue q that keep the caller waiting. */
  datatype Op = Yield | Exit | Sleep | Wait(q: nat, keep: iset<int>)

  /** Where a task's own control is.  `pc` is the CPU whose per_cpu block the
      primitive read with this_cpu() before it masked interrupts. */
  datatype Point =
    | Start
    | Body
    | Captured(op: Op, pc: nat)
    | Held(op: Op, pc: nat, was: bool)
    | Linking(q: nat, keep: iset<int>, pc: nat)
    | Parking(after: Point)

  datatype Place = Loop | Dispatched(t: nat) | Exec(t: nat, at: Point) | Landed(t: nat)

  datatype Cpu = Cpu(current: Option<nat>, place: Place, masked: bool, need: bool)

  /** Per-task context and bookkeeping outside the lock-protected table: the saved
      context, whether that save is complete and not yet loaded again, whether the
      slot awaits task_launch, the queues whose word the task has changed without
      having run wait_wake_all since, the queue it is linked on, and the condition it
      last went to sleep on. */
  datatype Note = Note(ctx: Point, saved: bool, deferred: bool, owes: set<nat>, on: Option<nat>, keep: iset<int>)

  /** `holder` remembers which CPU took the lock last; no step looks at it. */
  datatype Sys = Sys(lock: bool, holder: nat, tb: Table, notes: seq<Note>, cpus: seq<Cpu>, vals: seq<int>)

  datatype Event =
    | Create(slot: nat, prio: nat)
    | CreateDeferred(slot: nat, prio: nat)
    | Launch(slot: nat)
    | SetMask(c: nat, b: bool)
    | Tick(c: nat, now: nat)
    | Preempt(c: nat)
    | Enter(c: nat, op: Op)
    | Acquire(c: nat)
    | Mark(c: nat)
    | Check(c: nat)
    | Link(c: nat)
    | Save(c: nat)
    | Release(c: nat)
    | Dispatch(c: nat, t: nat)
    | GoIdle(c: nat)
    | Load(c: nat)
    | Deadline(c: nat, at: nat)
    | Store(c: nat, q: nat, v: int)
    | WakeUp(c: nat, q: nat, xs: seq<nat>, preempt: bool)

  predicate Interruptible(p: Place) {
    p.Loop? || (p.Exec? && (p.at.Body? || p.at.Captured?))
  }

  predicate Resumable(p: Point) {
    p.Start? || p.Body? || p.Captured?
  }

  ghost predicate OpOk(s: Sys, op: Op) {
    op.Wait? ==> op.q < |s.tb.heads|
  }

  /** Index sanity: everything a step dereferences exists. */
  ghost predicate PointOk(s: Sys, p: Point) {
    match p
    case Captured(op, pc) => OpOk(s, op) && pc < |s.cpus|
    case Held(op, pc, _) => OpOk(s, op) && pc < |s.cpus|
    case Linking(q, _, pc) => q < |s.tb.heads| && pc < |s.cpus|
    case Parking(k) => Resumable(k) && PointOk(s, k)
    case _ => true
  }

  ghost predicate CpuShape(s: Sys, c: nat)
    requires c < |s.cpus|
  {
    && (s.cpus[c].current.Some? ==> s.cpus[c].current.value < |s.tb.tasks|)
    && PlaceOk(s, s.cpus[c].place)
  }

  ghost predicate PlaceOk(s: Sys, pl: Place) {
    match pl
    case Loop => true
    case Dispatched(t) => t < |s.tb.tasks|
    case Landed(t) => t < |s.tb.tasks|
    case Exec(t, p) => t < |s.tb.tasks| && !p.Start? && PointOk(s, p)
  }

  ghost predicate Shape(s: Sys) {
    && |s.notes| == |s.tb.tasks| && |s.vals| == |s.tb.heads|
    && (forall c {:trigger s.cpus[c]} {:trigger CpuShape(s, c)} :: 0 <= c < |s.cpus| ==> CpuShape(s, c))
    && (forall t {:trigger s.notes[t]} :: 0 <= t < |s.notes| ==> Resumable(s.notes[t].ctx) && PointOk(s, s.notes[t].ctx))
  }

  predicate At(s: Sys, c: nat) {
    c < |s.cpus| && s.cpus[c].place.Exec?
  }

  predicate AtBody(s: Sys, c: nat) {
    At(s, c) && s.cpus[c].place.at.Body?
  }

  /** xs is the list on queue q. */
  ghost predicate QueueHolds(tb: Table, q: nat, xs: seq<nat>) {
    && q < |tb.heads| && Distinct(xs) && IsList(tb.tasks, tb.heads[q], xs)
    && forall i :: 0 <= i < |xs| ==> xs[i] < |tb.tasks|
  }

  /** When event e can happen.  With `maskedEntry` the blocking primitives are only
      entered with interrupts masked. */
  ghost predicate Enabled(maskedEntry: bool, s: Sys, e: Event)
    requires Shape(s)
  {
    match e
    case Create(slot, _) => !s.lock && FirstUnused(s.tb.tasks, slot)
    case CreateDeferred(slot, _) => !s.lock && FirstUnused(s.tb.tasks, slot)
    case Launch(slot) => !s.lock && slot < |s.notes| && s.notes[slot].deferred
    case SetMask(c, _) => AtBody(s, c)
    case Tick(c, _) => !s.lock && c < |s.cpus| && !s.cpus[c].masked && Interruptible(s.cpus[c].place)
    case Preempt(c) => !s.lock && At(s, c) && Interruptible(s.cpus[c].place) && !s.cpus[c].masked &&
                       s.cpus[c].need && s.cpus[c].current.Some?
    case Enter(c, op) => AtBody(s, c) && OpOk(s, op) && (maskedEntry ==> s.cpus[c].masked)
    case Acquire(c) => !s.lock && At(s, c) && s.cpus[c].place.at.Captured?
    case Mark(c) => At(s, c) && s.cpus[c].place.at.Held? && !s.cpus[c].place.at.op.Wait? &&
                    s.cpus[s.cpus[c].place.at.pc].current.Some?
    case Check(c) => At(s, c) && s.cpus[c].place.at.Held? && s.cpus[c].place.at.op.Wait?
    case Link(c) => At(s, c) && s.cpus[c].place.at.Linking? && s.cpus[s.cpus[c].place.at.pc].current.Some?
    case Save(c) => At(s, c) && s.cpus[c].place.at.Parking? && s.cpus[c].current.Some?
    case Release(c) => c < |s.cpus| && s.cpus[c].place.Landed?
    case Dispatch(c, t) => !s.lock && c < |s.cpus| && s.cpus[c].place.Loop? && IsPick(s.tb.tasks, t)
    case GoIdle(c) => !s.lock && c < |s.cpus| && s.cpus[c].place.Loop? && NoneReady(s.tb.tasks)
    case Load(c) => c < |s.cpus| && s.cpus[c].place.Dispatched?
    case Deadline(c, _) => !s.lock && AtBody(s, c) && s.cpus[c].current.Some?
    case Store(c, q, _) => AtBody(s, c) && q < |s.vals|
    case WakeUp(c, q, xs, _) => !s.lock && AtBody(s, c) && QueueHolds(s.tb, q, xs)
  }

  function SetCpu(s: Sys, c: nat, cpu: Cpu): Sys
    requires c < |s.cpus|
  {
    s.(cpus := s.cpus[c := cpu])
  }

  function SetNote(s: Sys, t: nat, n: Note): Sys
    requires t < |s.notes|
  {
    s.(notes := s.notes[t := n])
  }

  /** What a primitive does to the task it takes for its caller. */
  function MarkTask(tb: Table, op: Op, u: nat): Table
    requires u < |tb.tasks|
  {
    match op
    case Yield => Requeue(tb, u)
    case Exit => SetState(tb, u, Dead)
    case Sleep => SetState(tb, u, Sleeping)
    case Wait(_, _) => tb
  }

  ghost function Next(maskedEntry: bool, s: Sys, e: Event): Sys
    requires Shape(s) && Enabled(maskedEntry, s, e)
  {
    match e
    case Create(slot, prio) =>
      SetNote(s.(tb := Prime(s.tb, slot, prio, Ready)), slot, Note(Start, true, false, {}, None, iset{}))
    case CreateDeferred(slot, prio) =>
      SetNote(s.(tb := Prime(s.tb, slot, prio, Blocked)), slot, Note(Start, true, true, {}, None, iset{}))
    case Launch(slot) =>
      SetNote(s.(tb := Requeue(s.tb, slot)), slot, s.notes[slot].(deferred := false))
    case SetMask(c, b) =>
      SetCpu(s, c, s.cpus[c].(masked := b))
    case Tick(c, now) =>
      var cur := s.cpus[c].current;
      var tb := Charge(ExpireFrom(s.tb, now, 0), cur);
      SetCpu(s.(tb := tb), c, s.cpus[c].(need := s.cpus[c].need || QuantumGone(tb, cur)))
    case Preempt(c) =>
      var u := s.cpus[c].current.value;
      var tb := if s.tb.tasks[u].state == Running then Requeue(s.tb, u) else s.tb;
      var pl := s.cpus[c].place;
      SetCpu(s.(tb := tb, lock := true, holder := c), c, s.cpus[c].(need := false, masked := true, place := Exec(pl.t, Parking(pl.at))))
    case Enter(c, op) =>
      SetCpu(s, c, s.cpus[c].(place := Exec(s.cpus[c].place.t, Captured(op, c))))
    case Acquire(c) =>
      var pl := s.cpus[c].place;
      SetCpu(s.(lock := true, holder := c), c, s.cpus[c].(masked := true, place := Exec(pl.t, Held(pl.at.op, pl.at.pc, s.cpus[c].masked))))
    case Mark(c) =>
      var pl := s.cpus[c].place;
      var u := s.cpus[pl.at.pc].current.value;
      SetCpu(s.(tb := MarkTask(s.tb, pl.at.op, u)), c, s.cpus[c].(place := Exec(pl.t, Parking(Body))))
    case Check(c) =>
      var pl := s.cpus[c].place;
      if s.vals[pl.at.op.q] in pl.at.op.keep
      then SetCpu(s, c, s.cpus[c].(place := Exec(pl.t, Linking(pl.at.op.q, pl.at.op.keep, pl.at.pc))))
      else SetCpu(s.(lock := false), c, s.cpus[c].(masked := pl.at.was, place := Exec(pl.t, Body)))
    case Link(c) =>
      var pl := s.cpus[c].place;
      var u := s.cpus[pl.at.pc].current.value;
      SetCpu(SetNote(s.(tb := LinkFront(s.tb, pl.at.q, u)), u, s.notes[u].(keep := pl.at.keep, on := Some(pl.at.q))),
             c, s.cpus[c].(place := Exec(pl.t, Parking(Body))))
    case Save(c) =>
      var pl := s.cpus[c].place;
      var u := s.cpus[c].current.value;
      SetCpu(SetNote(s, u, s.notes[u].(ctx := pl.at.after, saved := true)), c, s.cpus[c].(place := Landed(u)))
    case Release(c) =>
      SetCpu(s.(lock := false), c, s.cpus[c].(place := Loop))
    case Dispatch(c, t) =>
      SetCpu(s.(tb := s.tb.(tasks := s.tb.tasks[t := s.tb.tasks[t].(state := Running, quantum := SCHED_QUANTUM)])),
             c, s.cpus[c].(current := Some(t), place := Dispatched(t), masked := true))
    case GoIdle(c) =>
      SetCpu(s, c, s.cpus[c].(current := None, masked := false))
    case Load(c) =>
      var t := s.cpus[c].place.t;
      var k := s.notes[t].ctx;
      SetCpu(SetNote(s, t, s.notes[t].(saved := false)), c,
             s.cpus[c].(masked := k.Start?, place := Exec(t, if k.Start? then Body else k)))
    case Deadline(c, at) =>
      var u := s.cpus[c].current.value;
      s.(tb := s.tb.(tasks := s.tb.tasks[u := s.tb.tasks[u].(wakeAt := at)]))
    case Store(c, q, v) =>
      var t := s.cpus[c].place.t;
      SetNote(s.(vals := s.vals[q := v]), t, s.notes[t].(owes := s.notes[t].owes + {q}))
    case WakeUp(c, q, xs, preempt) =>
      var t := s.cpus[c].place.t;
      var off := seq(|s.notes|, i requires 0 <= i < |s.notes| => if i in xs then s.notes[i].(on := None) else s.notes[i]);
      SetCpu(s.(tb := WakeList(s.tb, q, xs), notes := off[t := off[t].(owes := off[t].owes - {q})]), c,
              s.cpus[c].(need := s.cpus[c].need || preempt))
  }

  /** Sizes never change, and a step touches the place of at most one CPU. */
  lemma SizesKept(m: bool, s: Sys, e: Event)
    requires Shape(s) && Enabled(m, s, e)
    ensures var s' := Next(m, s, e);
      && |s'.cpus| == |s.cpus| && |s'.vals| == |s.vals| && |s'.notes| == |s.notes|
      && |s'.tb.heads| == |s.tb.heads| && |s'.tb.tasks| == |s.tb.tasks|
  {
  }

  lemma NotesKept(m: bool, s: Sys, e: Event, t: nat)
    requires Shape(s) && Enabled(m, s, e) && t < |s.notes| == |Next(m, s, e).notes|
    ensures var n := Next(m, s, e).notes[t]; Resumable(n.ctx) && PointOk(s, n.ctx)
  {
    assert PointOk(s, s.notes[t].ctx);
    if e.Save? { assert CpuShape(s, e.c); }
  }

  lemma PlaceKept(m: bool, s: Sys, e: Event, c: nat)
    requires Shape(s) && Enabled(m, s, e) && c < |s.cpus| == |Next(m, s, e).cpus|
    ensures PlaceOk(s, Next(m, s, e).cpus[c].place)
  {
    assert CpuShape(s, c);
    if e.Load? { assert PointOk(s, s.notes[s.cpus[e.c].place.t].ctx); }
  }

  lemma CurrentKept(m: bool, s: Sys, e: Event, c: nat)
    requires Shape(s) && Enabled(m, s, e) && c < |s.cpus| == |Next(m, s, e).cpus|
    ensures var cur := Next(m, s, e).cpus[c].current; cur.Some? ==> cur.value < |s.tb.tasks|
  {
    hide PlaceOk;
    assert CpuShape(s, c);
  }

  lemma CpusKept(m: bool, s: Sys, e: Event, c: nat)
    requires Shape(s) && Enabled(m, s, e) && c < |s.cpus| == |Next(m, s, e).cpus|
    ensures CpuShape(s.(cpus := Next(m, s, e).cpus), c)
  {
    PlaceKept(m, s, e, c);
    CurrentKept(m, s, e, c);
    hide Enabled, Next;
    PointsKept(s, s.(cpus := Next(m, s, e).cpus));
  }

  /** Indices stay in range whatever happens. */
  lemma ShapeKept(m: bool, s: Sys, e: Event)
    requires Shape(s) && Enabled(m, s, e)
    ensures Shape(Next(m, s, e))
  {
    var s' := Next(m, s, e);
    SizesKept(m, s, e);
    PointsKept(s, s');
    PointsKept(s.(cpus := s'.cpus), s');
    forall t | 0 <= t < |s.notes| ensures Resumable(s'.notes[t].ctx) && PointOk(s', s'.notes[t].ctx) {
      NotesKept(m, s, e, t);
    }
    forall c | 0 <= c < |s.cpus| ensures CpuShape(s', c) {
      CpusKept(m, s, e, c);
      CpuShapeMoves(s.(cpus := s'.cpus), s', c);
    }
  }

  lemma CpuShapeMoves(s: Sys, s': Sys, c: nat)
    requires s'.cpus == s.cpus && |s'.tb.heads| == |s.tb.heads| && |s'.tb.tasks| == |s.tb.tasks|
    requires c < |s.cpus| && CpuShape(s, c)
    ensures CpuShape(s', c)
  {
    PointsKept(s, s');
  }

  lemma PointsKept(s: Sys, s': Sys)
    requires |s'.cpus| == |s.cpus| && |s'.tb.heads| == |s.tb.heads|
    ensures forall p :: PointOk(s, p) ==> PointOk(s', p)
  {
    forall p | PointOk(s, p) ensures PointOk(s', p) {
      PointKept(s, s', p);
    }
  }

  lemma PointKept(s: Sys, s': Sys, p: Point)
    requires |s'.cpus| == |s.cpus| && |s'.tb.heads| == |s.tb.heads| && PointOk(s, p)
    ensures PointOk(s', p)
  {
  }

  // ---- runs -----------------------------------------------------------------------------

  function Boot(nCpus: nat, nTasks: nat, vals: seq<int>): Sys {
    Sys(false, 0,
        Table(seq(nTasks, _ => Tcb(Unused, 0, 0, 0, 0, None)), 0, seq(|vals|, _ => None)),
        seq(nTasks, _ => Note(Start, false, false, {}, None, iset{})),
        seq(nCpus, _ => Cpu(None, Loop, false, false)),
        vals)
  }

  /** ss is the run of the events es from ss[0]. */
  ghost predicate Run(maskedEntry: bool, ss: seq<Sys>, es: seq<Event>) {
    && |ss| == |es| + 1
    && forall i :: 0 <= i < |es| ==> StepTo(maskedEntry, ss[i], es[i], ss[i + 1])
  }

  /** Shape only says that what a step looks at exists; every step keeps it (ShapeKept). */
  ghost predicate StepTo(maskedEntry: bool, s: Sys, e: Event, s': Sys) {
    Shape(s) && Enabled(maskedEntry, s, e) && s' == Next(maskedEntry, s, e)
  }

  ghost predicate Reachable(maskedEntry: bool, nCpus: nat, nTasks: nat, s: Sys) {
    exists ss: seq<Sys>, es: seq<Event>, vals: seq<int> ::
      Run(maskedEntry, ss, es) && ss[0] == Boot(nCpus, nTasks, vals) && ss[|es|] == s
  }

  // ---- what the handshake promises --------------------------------------------------------

  /** Task t owns CPU c's control flow: it executes there or is being switched in. */
  predicate OnCpu(s: Sys, c: nat, t: nat)
    requires c < |s.cpus|
  {
    s.cpus[c].place == Dispatched(t) || (s.cpus[c].place.Exec? && s.cpus[c].place.t == t)
  }

  /** Whenever the lock is free a READY task has a complete saved context and runs nowhere. */
  ghost predicate ReadyQuiescent(s: Sys)
    requires |s.notes| == |s.tb.tasks|
  {
    !s.lock ==> forall t :: 0 <= t < |s.tb.tasks| && s.tb.tasks[t].state == Ready ==>
      s.notes[t].saved && forall c :: 0 <= c < |s.cpus| ==> !OnCpu(s, c, t)
  }

  /** No task executes on two CPUs. */
  ghost predicate OneCpuEach(s: Sys) {
    forall c1, c2, t :: 0 <= c1 < |s.cpus| && 0 <= c2 < |s.cpus| && c1 != c2 && OnCpu(s, c1, t) ==> !OnCpu(s, c2, t)
  }

  ghost predicate Safe(s: Sys) {
    |s.notes| == |s.tb.tasks| && ReadyQuiescent(s) && OneCpuEach(s)
  }
}
