/** Pipes of kernel/ipc.c as a system of any number of concurrent readers, writers and closers
    sharing ipc_lock, two wait queues and one 4096-byte ring. */
module Pipe {
  import opened Bytes
  import opened Errno
  import opened Limits
  import opened Seqs
  import opened Wrappers
  import opened IpcRing

  const PIPE_BUF_CAP: nat := 4096

  // ---- the buffer and the calls' locked sections ---------------------------------------------

  /** What a locked section ends with: it parks, or returns. */
  datatype Outcome = Parks | Returns(r: int)

  class PipeBuf {
    const buf: array<byte>
    var head: nat
    var len: nat
    var readers: int
    var writers: int
    var rdDead: bool
    var wrDead: bool

    ghost predicate Valid()
      reads this, buf
    {
      buf.Length == PIPE_BUF_CAP && len <= PIPE_BUF_CAP && head < PIPE_BUF_CAP
    }

    ghost function Contents(): (r: seq<byte>)
      requires Valid()
      reads this, buf
      ensures |r| == len
    {
      Queued(buf[..], head, len)
    }

    /** The pipe of the state s. */
    ghost predicate Is(s: Sys)
      reads this, buf
    {
      && Valid() && Contents() == s.ring
      && readers == s.readers && writers == s.writers && rdDead == s.rdDead && wrDead == s.wrDead
    }

    constructor (nTasks: nat)
      ensures Valid() && fresh(buf) && Contents() == [] && Is(Boot(nTasks))
    {
      buf := new byte[PIPE_BUF_CAP](_ => 0);
      head, len := 0, 0;
      readers, writers, rdDead, wrDead := 1, 1, false, false;
    }

    /** The locked section of pipe_read. */
    method ReadHeld(n: nat, ghost s: Sys, ghost t: nat) returns (o: Outcome, out: seq<byte>)
      requires Is(s) && t < |s.tasks| && s.tasks[t].op == Read(n)
      modifies this`head, this`len
      ensures Is(Act(s, t)) && Act(s, t).flowOut == s.flowOut + out
      ensures o == if Act(s, t).tasks[t].pc == Parked then Parks else Returns(|out|)
    {
      hide Queued;
      out := [];
      assert s.flowOut + [] == s.flowOut;
      if len > 0 {
        var take := if len < n then len else n;
        out := CopyOut(take);
        assert out == s.ring[..take] && Contents() == s.ring[take..];
        return Returns(take), out;
      }
      if writers == 0 || wrDead { return Returns(0), out; }
      o := Parks;
    }

    /** The locked section of pipe_write. */
    method WriteHeld(data: seq<byte>, ghost s: Sys, ghost t: nat) returns (o: Outcome)
      requires Is(s) && t < |s.tasks| && s.tasks[t].op == Write(data)
      modifies this`len, buf
      ensures Is(Act(s, t))
      ensures o == Parks <==> Act(s, t).tasks[t].pc == Parked
      ensures o.Returns? && o.r < 0 ==> o.r == EPIPE && Act(s, t).flowIn == s.flowIn && (s.readers == 0 || s.rdDead)
      ensures o.Returns? && o.r >= 0 ==> o.r <= |data| && Act(s, t).flowIn == s.flowIn + data[..o.r]
    {
      hide Queued;
      if readers == 0 || rdDead { return Returns(EPIPE); }
      if len < PIPE_BUF_CAP {
        var freecap := PIPE_BUF_CAP - len;
        var done := if freecap < |data| then freecap else |data|;
        CopyIn(data[..done]);
        return Returns(done);
      }
      o := Parks;
    }

    /** The locked section of pipe_destroy. */
    method CloseHeld(reader: bool, ghost s: Sys, ghost t: nat)
      requires Is(s) && t < |s.tasks| && s.tasks[t].op == if reader then CloseRead else CloseWrite
      modifies this`readers, this`writers, this`rdDead, this`wrDead
      ensures Is(Act(s, t))
    {
      if reader {
        rdDead, readers := true, readers - 1;
      } else {
        wrDead, writers := true, writers - 1;
      }
    }

    /** pipe_copy_out */
    method CopyOut(n0: nat) returns (out: seq<byte>)
      requires Valid() && n0 <= len
      modifies this`head, this`len
      ensures Valid() && |out| == n0 && out + Contents() == old(Contents())
    {
      hide Queued;
      ghost var q := Contents();
      var n := n0;
      out := [];
      assert q[..0] == [] && q[0..] == q;
      while n > 0
        invariant Valid() && 0 <= n <= len && |out| + n == n0 <= |q| && out == q[..|out|] && Contents() == q[|out|..]
      {
        var seg := PIPE_BUF_CAP - head;
        if seg > len { seg := len; }
        if seg > n { seg := n; }
        NextHead(head, seg, PIPE_BUF_CAP);
        Pulled(buf[..], head, len, seg, (head + seg) % PIPE_BUF_CAP);
        assert q[..|out|] + q[|out|..][..seg] == q[..|out| + seg];
        assert q[|out|..][seg..] == q[|out| + seg..];
        out := out + buf[head..head + seg];
        head := (head + seg) % PIPE_BUF_CAP;
        len := len - seg;
        n := n - seg;
      }
      assert q[..|out|] + q[|out|..] == q;
    }

    /** pipe_copy_in */
    method CopyIn(src: seq<byte>)
      requires Valid() && len + |src| <= PIPE_BUF_CAP
      modifies this`len, buf
      ensures Valid() && Contents() == old(Contents()) + src
    {
      hide Queued;
      ghost var q := Contents();
      var n, done := |src|, 0;
      assert q + src[..0] == q;
      while n > 0
        invariant Valid() && 0 <= n && 0 <= done && done + n == |src| && len + n <= PIPE_BUF_CAP && Contents() == q + src[..done]
      {
        var tail := (head + len) % PIPE_BUF_CAP;
        var seg := PIPE_BUF_CAP - tail;
        if seg > PIPE_BUF_CAP - len { seg := PIPE_BUF_CAP - len; }
        if seg > n { seg := n; }
        Pushed(buf[..], head, len, src[done..done + seg]);
        assert q + src[..done] + src[done..done + seg] == q + src[..done + seg];
        CopyInto(buf, tail, src[done..done + seg]);
        len := len + seg;
        done := done + seg;
        n := n - seg;
      }
      assert src[..done] == src;
    }
  }

  // ---- the protocol ------------------------------------------------------------------------------

  datatype Op = Read(n: nat) | Write(data: seq<byte>) | CloseRead | CloseWrite

  /** Idle: not in a call.  Top: about to take ipc_lock.  Held: lock taken.  Moved: the pipe has
      changed, the wake-up is still to come.  Done: about to release the lock.  Parked: on a wait queue. */
  datatype Pc = Idle | Top | Held | Moved | Done | Parked

  datatype Task = Task(pc: Pc, op: Op)

  /** flowIn and flowOut are all bytes ever written to and read from the pipe. */
  datatype Sys = Sys(tasks: seq<Task>, lock: Option<nat>, ring: seq<byte>, readers: int, writers: int,
                     rdDead: bool, wrDead: bool, rq: seq<nat>, wq: seq<nat>, flowIn: seq<byte>, flowOut: seq<byte>)

  datatype Event = Start(t: nat, op: Op) | Step(t: nat)

  function Boot(nTasks: nat): Sys {
    Sys(seq(nTasks, _ => Task(Idle, CloseRead)), None, [], 1, 1, false, false, [], [], [], [])
  }

  ghost predicate Enabled(s: Sys, e: Event) {
    match e
    case Start(t, op) =>
      && t < |s.tasks| && s.tasks[t].pc == Idle
      && (match op
          case Read(n) => n > 0 && !s.rdDead && !Closing(s, CloseRead)
          case Write(data) => data != [] && !s.wrDead && !Closing(s, CloseWrite)
          case CloseRead => !s.rdDead && forall u :: 0 <= u < |s.tasks| && s.tasks[u].pc != Idle ==> !s.tasks[u].op.Read? && !s.tasks[u].op.CloseRead?
          case CloseWrite => !s.wrDead && forall u :: 0 <= u < |s.tasks| && s.tasks[u].pc != Idle ==> !s.tasks[u].op.Write? && !s.tasks[u].op.CloseWrite?)
    case Step(t) =>
      t < |s.tasks| && s.tasks[t].pc != Idle && s.tasks[t].pc != Parked && (s.tasks[t].pc == Top ==> s.lock == None)
  }

  ghost predicate Closing(s: Sys, op: Op) {
    exists u :: 0 <= u < |s.tasks| && s.tasks[u].pc != Idle && s.tasks[u].op == op
  }

  function At(s: Sys, t: nat, pc: Pc): Sys
    requires t < |s.tasks|
  {
    s.(tasks := s.tasks[t := s.tasks[t].(pc := pc)])
  }

  /** ipc_wake: everyone on the queue retries from the top. */
  function Woken(tasks: seq<Task>, q: seq<nat>): (r: seq<Task>)
    ensures |r| == |tasks|
  {
    seq(|tasks|, u requires 0 <= u < |tasks| => if u in q then tasks[u].(pc := Top) else tasks[u])
  }

  function WakeReaders(s: Sys): Sys { s.(tasks := Woken(s.tasks, s.rq), rq := []) }

  function WakeWriters(s: Sys): Sys { s.(tasks := Woken(s.tasks, s.wq), wq := []) }

  /** The part of a call made with the lock just taken. */
  function Act(s: Sys, t: nat): Sys
    requires t < |s.tasks|
  {
    match s.tasks[t].op
    case Read(n) =>
      if s.ring != [] then
        var take := Min(|s.ring|, n);
        At(s, t, Moved).(ring := s.ring[take..], flowOut := s.flowOut + s.ring[..take])
      else if s.writers == 0 || s.wrDead then At(s, t, Done)
      else At(s, t, Parked).(lock := None, rq := [t] + s.rq)
    case Write(data) =>
      if s.readers == 0 || s.rdDead then At(s, t, Done)
      else if |s.ring| < PIPE_BUF_CAP then
        var done := Min(PIPE_BUF_CAP - |s.ring|, |data|);
        At(s, t, Moved).(ring := s.ring + data[..done], flowIn := s.flowIn + data[..done])
      else At(s, t, Parked).(lock := None, wq := [t] + s.wq)
    case CloseRead => At(s, t, Moved).(rdDead := true, readers := s.readers - 1)
    case CloseWrite => At(s, t, Moved).(wrDead := true, writers := s.writers - 1)
  }

  function Next(s: Sys, e: Event): Sys
    requires (match e case Start(t, op) => t < |s.tasks| case Step(t) => t < |s.tasks|)
  {
    match e
    case Start(t, op) => s.(tasks := s.tasks[t := Task(Top, op)])
    case Step(t) =>
      match s.tasks[t].pc
      case Top => At(s, t, Held).(lock := Some(t))
      case Held => Act(s, t)
      case Moved =>
        (match s.tasks[t].op
         case Read(n) => At(WakeWriters(s), t, Done)
         case Write(data) => At(WakeReaders(s), t, Done)
         case CloseRead => At(WakeWriters(WakeReaders(s)), t, Done)
         case CloseWrite => At(WakeWriters(WakeReaders(s)), t, Done))
      case Done => At(s, t, Idle).(lock := None)
      case Idle => s
      case Parked => s
  }

  // ---- the invariant -----------------------------------------------------------------------------------

  predicate Holds(pc: Pc) { pc == Held || pc == Moved || pc == Done }

  predicate Queues(x: Task, reading: bool) { x.pc == Parked && (if reading then x.op.Read? else x.op.Write?) }

  /** The queue lists exactly the tasks parked in that kind of call, once each. */
  ghost predicate QueueOk(tasks: seq<Task>, q: seq<nat>, reading: bool) {
    && Distinct(q)
    && (forall u: nat :: u in q <==> u < |tasks| && Queues(tasks[u], reading))
  }

  /** The lock holder has changed the pipe and not yet woken that queue. */
  ghost predicate WakePending(s: Sys, readers: bool) {
    && s.lock.Some? && s.lock.value < |s.tasks| && s.tasks[s.lock.value].pc == Moved
    && (if readers then !s.tasks[s.lock.value].op.Read? else !s.tasks[s.lock.value].op.Write?)
  }

  ghost predicate LockOk(s: Sys) {
    && (forall t: nat :: t < |s.tasks| ==> (Holds(s.tasks[t].pc) <==> s.lock == Some(t)))
    && (s.lock.Some? ==> s.lock.value < |s.tasks|)
    && (forall t :: 0 <= t < |s.tasks| && s.tasks[t].pc == Parked ==> s.tasks[t].op.Read? || s.tasks[t].op.Write?)
  }

  /** An end is closed once, by a call that runs alone on that end. */
  ghost predicate EndsOk(s: Sys) {
    && s.readers == (if s.rdDead then 0 else 1) && s.writers == (if s.wrDead then 0 else 1)
    && (forall t, u :: 0 <= t < |s.tasks| && 0 <= u < |s.tasks| && t != u && s.tasks[t].pc != Idle && s.tasks[u].pc != Idle ==>
          && (s.tasks[t].op.CloseRead? ==> !s.tasks[u].op.CloseRead? && !s.tasks[u].op.Read?)
          && (s.tasks[t].op.CloseWrite? ==> !s.tasks[u].op.CloseWrite? && !s.tasks[u].op.Write?))
    && (forall t :: 0 <= t < |s.tasks| && (s.tasks[t].pc == Top || s.tasks[t].pc == Held) ==>
          && (s.tasks[t].op.CloseRead? ==> !s.rdDead) && (s.tasks[t].op.CloseWrite? ==> !s.wrDead))
    && (forall t :: 0 <= t < |s.tasks| && s.tasks[t].pc != Idle ==> s.tasks[t].op != Read(0) && s.tasks[t].op != Write([]))
  }

  /** Bytes come out in the order they went in. */
  predicate Fifo(s: Sys) { s.flowOut + s.ring == s.flowIn && |s.ring| <= PIPE_BUF_CAP }

  /** A parked reader means an empty pipe with a live writer, a parked writer a full one with a
      live reader, unless a wake-up is still pending. */
  ghost predicate ParkOk(s: Sys) {
    && (s.rq != [] ==> WakePending(s, true) || (s.ring == [] && s.writers > 0))
    && (s.wq != [] ==> WakePending(s, false) || (|s.ring| == PIPE_BUF_CAP && s.readers > 0))
  }

  ghost predicate Inv(s: Sys) {
    Fifo(s) && LockOk(s) && EndsOk(s) && QueueOk(s.tasks, s.rq, true) && QueueOk(s.tasks, s.wq, false) && ParkOk(s)
  }

  lemma BootInv(nTasks: nat)
    ensures Inv(Boot(nTasks))
  {
  }

  // ---- the queues -----------------------------------------------------------------------------------------

  lemma SameQueue(tasks: seq<Task>, t: nat, x: Task, q: seq<nat>, reading: bool)
    requires QueueOk(tasks, q, reading) && t < |tasks| && Queues(tasks[t], reading) == Queues(x, reading)
    ensures QueueOk(tasks[t := x], q, reading)
  {
  }

  lemma Joins(tasks: seq<Task>, t: nat, x: Task, q: seq<nat>, reading: bool)
    requires QueueOk(tasks, q, reading) && t < |tasks| && !Queues(tasks[t], reading) && Queues(x, reading)
    ensures QueueOk(tasks[t := x], [t] + q, reading)
  {
    assert t !in q;
    forall u: nat ensures u in [t] + q <==> u < |tasks| && Queues(tasks[t := x][u], reading) {}
  }

  /** Waking a queue empties it and leaves the other one alone. */
  lemma Wakes(tasks: seq<Task>, q: seq<nat>, reading: bool, q': seq<nat>)
    requires QueueOk(tasks, q, reading) && QueueOk(tasks, q', !reading)
    ensures QueueOk(Woken(tasks, q), [], reading) && QueueOk(Woken(tasks, q), q', !reading)
  {
    forall u: nat | u < |tasks| ensures !Queues(Woken(tasks, q)[u], reading) {}
    forall u: nat | u < |tasks| ensures Queues(Woken(tasks, q)[u], !reading) <==> Queues(tasks[u], !reading) {}
  }

  // ---- every step keeps the invariant ------------------------------------------------------------------------

  lemma StartKeeps(s: Sys, t: nat, op: Op)
    requires Inv(s) && Enabled(s, Start(t, op))
    ensures Inv(Next(s, Start(t, op)))
  {
    SameQueue(s.tasks, t, Task(Top, op), s.rq, true);
    SameQueue(s.tasks, t, Task(Top, op), s.wq, false);
    StartEnds(s, t, op);
    hide QueueOk, EndsOk, Enabled;
  }

  lemma StartEnds(s: Sys, t: nat, op: Op)
    requires EndsOk(s) && Enabled(s, Start(t, op))
    ensures EndsOk(Next(s, Start(t, op)))
  {
  }

  lemma HeldKeeps(s: Sys, t: nat)
    requires Inv(s) && t < |s.tasks| && s.tasks[t].pc == Held
    ensures Inv(Act(s, t))
  {
    var r := Act(s, t);
    var x := r.tasks[t];
    assert r.tasks == s.tasks[t := x];
    HeldEnds(s, t);
    HeldFifo(s, t);
    if x.pc == Parked {
      if x.op.Read? {
        Joins(s.tasks, t, x, s.rq, true);
        SameQueue(s.tasks, t, x, s.wq, false);
      } else {
        Joins(s.tasks, t, x, s.wq, false);
        SameQueue(s.tasks, t, x, s.rq, true);
      }
    } else {
      SameQueue(s.tasks, t, x, s.rq, true);
      SameQueue(s.tasks, t, x, s.wq, false);
    }
    hide QueueOk, EndsOk, Fifo;
    assert LockOk(r);
  }

  lemma HeldEnds(s: Sys, t: nat)
    requires EndsOk(s) && t < |s.tasks| && s.tasks[t].pc == Held
    ensures EndsOk(Act(s, t))
  {
  }

  lemma HeldFifo(s: Sys, t: nat)
    requires Fifo(s) && t < |s.tasks|
    ensures Fifo(Act(s, t))
  {
    match s.tasks[t].op
    case Read(n) =>
      var take := Min(|s.ring|, n);
      assert s.flowOut + s.ring[..take] + s.ring[take..] == s.flowOut + s.ring;
    case Write(data) =>
      if |s.ring| < PIPE_BUF_CAP {
        var done := Min(PIPE_BUF_CAP - |s.ring|, |data|);
        assert s.flowOut + (s.ring + data[..done]) == s.flowOut + s.ring + data[..done];
      }
    case CloseRead =>
    case CloseWrite =>
  }

  /** Waking parked tasks changes neither who holds the lock nor which ends are closing. */
  lemma WokenRest(s: Sys, q: seq<nat>, r: Sys)
    requires LockOk(s) && EndsOk(s) && forall u :: u in q ==> u < |s.tasks| && s.tasks[u].pc == Parked
    requires r == s.(tasks := Woken(s.tasks, q), rq := r.rq, wq := r.wq)
    ensures LockOk(r) && EndsOk(r)
    ensures forall u :: 0 <= u < |s.tasks| && s.tasks[u].pc != Parked ==> r.tasks[u] == s.tasks[u]
  {
    forall u: nat | u < |s.tasks| ensures r.tasks[u].op == s.tasks[u].op && (r.tasks[u].pc == Idle <==> s.tasks[u].pc == Idle)
      && (r.tasks[u].pc == s.tasks[u].pc || (s.tasks[u].pc == Parked && r.tasks[u].pc == Top)) {}
  }

  lemma QueueParked(tasks: seq<Task>, q: seq<nat>, reading: bool)
    requires QueueOk(tasks, q, reading)
    ensures forall u :: u in q ==> u < |tasks| && tasks[u].pc == Parked
  {
  }

  /** All of the invariant but the parking condition. */
  ghost predicate Core(s: Sys) {
    Fifo(s) && LockOk(s) && EndsOk(s) && QueueOk(s.tasks, s.rq, true) && QueueOk(s.tasks, s.wq, false)
  }

  lemma WakeReadersKeeps(s: Sys, t: nat)
    requires Core(s) && t < |s.tasks| && s.tasks[t].pc == Moved
    ensures Core(WakeReaders(s)) && WakeReaders(s).tasks[t] == s.tasks[t]
  {
    QueueParked(s.tasks, s.rq, true);
    Wakes(s.tasks, s.rq, true, s.wq);
    hide QueueOk, LockOk, EndsOk;
    WokenRest(s, s.rq, WakeReaders(s));
  }

  lemma WakeWritersKeeps(s: Sys, t: nat)
    requires Core(s) && t < |s.tasks| && s.tasks[t].pc == Moved
    ensures Core(WakeWriters(s)) && WakeWriters(s).tasks[t] == s.tasks[t]
  {
    QueueParked(s.tasks, s.wq, false);
    Wakes(s.tasks, s.wq, false, s.rq);
    hide QueueOk, LockOk, EndsOk;
    WokenRest(s, s.wq, WakeWriters(s));
  }

  lemma FinishKeeps(s: Sys, t: nat)
    requires Core(s) && t < |s.tasks| && s.tasks[t].pc == Moved
    ensures Core(At(s, t, Done))
  {
    SameQueue(s.tasks, t, s.tasks[t].(pc := Done), s.rq, true);
    SameQueue(s.tasks, t, s.tasks[t].(pc := Done), s.wq, false);
    hide QueueOk;
  }

  lemma MovedKeeps(s: Sys, t: nat)
    requires Inv(s) && t < |s.tasks| && s.tasks[t].pc == Moved
    ensures Inv(Next(s, Step(t)))
  {
    assert s.lock == Some(t);
    hide Core, LockOk, EndsOk, QueueOk, Woken;
    assert Core(s) by { CoreOf(s); }
    match s.tasks[t].op
    case Read(n) =>
      WakeWritersKeeps(s, t);
      FinishKeeps(WakeWriters(s), t);
      CoreIs(Next(s, Step(t)));
    case Write(data) =>
      WakeReadersKeeps(s, t);
      FinishKeeps(WakeReaders(s), t);
      CoreIs(Next(s, Step(t)));
    case CloseRead =>
      WakeReadersKeeps(s, t);
      WakeWritersKeeps(WakeReaders(s), t);
      FinishKeeps(WakeWriters(WakeReaders(s)), t);
      CoreIs(Next(s, Step(t)));
    case CloseWrite =>
      WakeReadersKeeps(s, t);
      WakeWritersKeeps(WakeReaders(s), t);
      FinishKeeps(WakeWriters(WakeReaders(s)), t);
      CoreIs(Next(s, Step(t)));
  }

  lemma CoreOf(s: Sys)
    requires Inv(s)
    ensures Core(s)
  {
  }

  lemma CoreIs(s: Sys)
    requires Core(s)
    ensures ParkOk(s) <==> Inv(s)
  {
    hide LockOk, EndsOk, QueueOk, ParkOk;
  }

  lemma DoneKeeps(s: Sys, t: nat)
    requires Inv(s) && t < |s.tasks| && s.tasks[t].pc == Done
    ensures Inv(Next(s, Step(t)))
  {
    SameQueue(s.tasks, t, s.tasks[t].(pc := Idle), s.rq, true);
    SameQueue(s.tasks, t, s.tasks[t].(pc := Idle), s.wq, false);
    hide QueueOk;
  }

  lemma TopKeeps(s: Sys, t: nat)
    requires Inv(s) && t < |s.tasks| && s.tasks[t].pc == Top && s.lock == None
    ensures Inv(Next(s, Step(t)))
  {
    SameQueue(s.tasks, t, s.tasks[t].(pc := Held), s.rq, true);
    SameQueue(s.tasks, t, s.tasks[t].(pc := Held), s.wq, false);
    hide QueueOk;
  }

  lemma StepKeeps(s: Sys, e: Event)
    requires Inv(s) && Enabled(s, e)
    ensures Inv(Next(s, e))
  {
    hide Inv;
    match e
    case Start(t, op) => StartKeeps(s, t, op);
    case Step(t) =>
      match s.tasks[t].pc
      case Top => TopKeeps(s, t);
      case Held => HeldKeeps(s, t);
      case Moved => MovedKeeps(s, t);
      case Done => DoneKeeps(s, t);
      case _ =>
  }

  // ---- runs --------------------------------------------------------------------------------------------------

  ghost predicate Run(trace: seq<Sys>, events: seq<Event>, nTasks: nat) {
    && |trace| == |events| + 1 && trace[0] == Boot(nTasks)
    && forall i :: 0 <= i < |events| ==> Enabled(trace[i], events[i]) && trace[i + 1] == Next(trace[i], events[i])
  }

  lemma {:induction false} RunKeeps(trace: seq<Sys>, events: seq<Event>, nTasks: nat, i: nat)
    requires Run(trace, events, nTasks) && i < |trace|
    ensures Inv(trace[i])
    decreases i
  {
    hide Inv;
    if i == 0 {
      BootInv(nTasks);
    } else {
      RunKeeps(trace, events, nTasks, i - 1);
      StepKeeps(trace[i - 1], events[i - 1]);
    }
  }

  /** However readers and writers interleave, the bytes read so far followed by those queued are
      the bytes written so far; and with the lock free a parked reader implies an empty pipe with
      a live writer, a parked writer a full pipe with a live reader. */
  lemma ConcurrentFifo(trace: seq<Sys>, events: seq<Event>, nTasks: nat, i: nat)
    requires Run(trace, events, nTasks) && i < |trace|
    ensures var s := trace[i];
      && s.flowOut + s.ring == s.flowIn && |s.ring| <= PIPE_BUF_CAP
      && (s.lock == None ==> forall t :: 0 <= t < |s.tasks| && s.tasks[t].pc == Parked ==>
            if s.tasks[t].op.Read? then s.ring == [] && !s.wrDead else |s.ring| == PIPE_BUF_CAP && !s.rdDead)
  {
    RunKeeps(trace, events, nTasks, i);
    var s := trace[i];
    forall t: nat | t < |s.tasks| && s.tasks[t].pc == Parked ensures t in s.rq || t in s.wq {
      assert Queues(s.tasks[t], true) || Queues(s.tasks[t], false);
    }
  }

  /** A reader and a writer are never both parked while the lock is free: somebody can move. */
  lemma NeverBothParked(trace: seq<Sys>, events: seq<Event>, nTasks: nat, i: nat, t: nat, u: nat)
    requires Run(trace, events, nTasks) && i < |trace| && trace[i].lock == None
    requires t < |trace[i].tasks| && u < |trace[i].tasks| && trace[i].tasks[t].pc == Parked && trace[i].tasks[t].op.Read?
    ensures !(trace[i].tasks[u].pc == Parked && trace[i].tasks[u].op.Write?)
  {
    ConcurrentFifo(trace, events, nTasks, i);
  }

  /** What task t's locked section does to the pipe when it does not park: a read takes as many bytes
      as it asks for or are queued, in order, and none only at end of file; a write puts in as many
      as it has or find room, and none only when the read end is closed; a close latches its end. */
  ghost predicate Result(s: Sys, r: Sys, t: nat)
    requires t < |s.tasks|
  {
    match s.tasks[t].op
    case Read(n) => ReadResult(s, r, n)
    case Write(data) => WriteResult(s, r, data)
    case CloseRead => r.ring == s.ring && r.rdDead && !s.rdDead && r.wrDead == s.wrDead && r.flowIn == s.flowIn && r.flowOut == s.flowOut
    case CloseWrite => r.ring == s.ring && r.wrDead && !s.wrDead && r.rdDead == s.rdDead && r.flowIn == s.flowIn && r.flowOut == s.flowOut
  }

  ghost predicate ReadResult(s: Sys, r: Sys, n: nat) {
    exists got: seq<byte> :: r.flowOut == s.flowOut + got && s.ring == got + r.ring && r.flowIn == s.flowIn
      && |got| == (if n < |s.ring| then n else |s.ring|) && (got == [] <==> s.ring == [] && s.wrDead)
  }

  ghost predicate WriteResult(s: Sys, r: Sys, data: seq<byte>) {
    exists put: seq<byte> :: r.flowIn == s.flowIn + put && put <= data && r.ring == s.ring + put && r.flowOut == s.flowOut
      && |put| == (if s.rdDead then 0 else if |data| < PIPE_BUF_CAP - |s.ring| then |data| else PIPE_BUF_CAP - |s.ring|)
      && (put == [] <==> s.rdDead)
  }

  lemma ReadDoes(s: Sys, t: nat, n: nat)
    requires EndsOk(s) && t < |s.tasks| && s.tasks[t].pc == Held && s.tasks[t].op == Read(n) && Act(s, t).tasks[t].pc != Parked
    ensures ReadResult(s, Act(s, t), n)
  {
    var got, r := s.ring[..Min(|s.ring|, n)], Act(s, t);
    assert n > 0;
    hide EndsOk;
    assert r.flowOut == s.flowOut + got && s.ring == got + r.ring;
  }

  lemma WriteDoes(s: Sys, t: nat, data: seq<byte>)
    requires Fifo(s) && EndsOk(s) && t < |s.tasks| && s.tasks[t].pc == Held && s.tasks[t].op == Write(data) && Act(s, t).tasks[t].pc != Parked
    ensures WriteResult(s, Act(s, t), data)
  {
    var put, r := if s.rdDead then [] else data[..Min(PIPE_BUF_CAP - |s.ring|, |data|)], Act(s, t);
    assert data != [];
    hide EndsOk;
    assert r.flowIn == s.flowIn + put && r.ring == s.ring + put;
  }

  lemma CallResults(trace: seq<Sys>, events: seq<Event>, nTasks: nat, i: nat, t: nat)
    requires Run(trace, events, nTasks) && i < |events| && events[i] == Step(t) && trace[i].tasks[t].pc == Held
    requires trace[i + 1].tasks[t].pc != Parked
    ensures Result(trace[i], trace[i + 1], t)
  {
    RunKeeps(trace, events, nTasks, i);
    var s := trace[i];
    assert trace[i + 1] == Act(s, t);
    hide ReadResult, WriteResult;
    match s.tasks[t].op
    case Read(n) => ReadDoes(s, t, n);
    case Write(data) => WriteDoes(s, t, data);
    case _ =>
  }

  /** A call parks exactly when it can do nothing: a read of an empty pipe whose write end is open, a
      write to a full pipe whose read end is open. */
  lemma ParksExactly(trace: seq<Sys>, events: seq<Event>, nTasks: nat, i: nat, t: nat)
    requires Run(trace, events, nTasks) && i < |events| && events[i] == Step(t) && trace[i].tasks[t].pc == Held
    ensures var s, r := trace[i], trace[i + 1];
      r.tasks[t].pc == Parked <==>
        match s.tasks[t].op
        case Read(_) => s.ring == [] && !s.wrDead
        case Write(_) => |s.ring| == PIPE_BUF_CAP && !s.rdDead
        case _ => false
  {
    RunKeeps(trace, events, nTasks, i);
  }

  // ---- a call from start to return ------------------------------------------------------------------

  /** Nobody is in a call. */
  ghost predicate Quiet(s: Sys) {
    && s.lock == None && s.rq == [] && s.wq == [] && forall u :: 0 <= u < |s.tasks| ==> s.tasks[u].pc == Idle
  }

  lemma Longer(trace: seq<Sys>, events: seq<Event>, nTasks: nat, e: Event)
    requires Run(trace, events, nTasks) && Enabled(trace[|events|], e)
    ensures Run(trace + [Next(trace[|events|], e)], events + [e], nTasks)
  {
  }

  function Alone(s: Sys, t: nat, pc: Pc, op: Op): Sys
    requires t < |s.tasks|
  {
    s.(tasks := s.tasks[t := Task(pc, op)])
  }

  /** The pipe after a call that does not park, nobody else being in one. */
  function Called(s: Sys, t: nat, op: Op): Sys
    requires t < |s.tasks|
  {
    Alone(Act(Alone(s, t, Held, op), t), t, Idle, op).(lock := None)
  }

  ghost predicate Proceeds(s: Sys, op: Op) {
    match op
    case Read(n) => n > 0 && s.ring != [] && !s.rdDead
    case Write(data) => data != [] && |s.ring| < PIPE_BUF_CAP && s.readers > 0 && !s.rdDead && !s.wrDead
    case _ => false
  }

  lemma NothingWoken(tasks: seq<Task>)
    ensures Woken(tasks, []) == tasks
  {
  }

  /** The five steps of such a call. */
  lemma CallSteps(s: Sys, t: nat, op: Op)
    requires Quiet(s) && t < |s.tasks| && Proceeds(s, op)
    ensures Enabled(s, Start(t, op)) && Next(s, Start(t, op)) == Alone(s, t, Top, op)
    ensures var a := Alone(s, t, Top, op); Enabled(a, Step(t)) && Next(a, Step(t)) == Alone(s, t, Held, op).(lock := Some(t))
    ensures var a := Alone(s, t, Held, op).(lock := Some(t)); Enabled(a, Step(t)) && Next(a, Step(t)) == Act(a, t)
    ensures var a := Act(Alone(s, t, Held, op).(lock := Some(t)), t); Enabled(a, Step(t)) && Next(a, Step(t)) == At(a, t, Done)
    ensures var a := At(Act(Alone(s, t, Held, op).(lock := Some(t)), t), t, Done); Enabled(a, Step(t)) && Next(a, Step(t)) == Called(s, t, op)
    ensures Quiet(Called(s, t, op))
  {
    NothingWoken(Act(Alone(s, t, Held, op).(lock := Some(t)), t).tasks);
    hide Woken;
  }

  lemma CallRuns(trace: seq<Sys>, events: seq<Event>, nTasks: nat, t: nat, op: Op) returns (ss: seq<Sys>, es: seq<Event>)
    requires Run(trace, events, nTasks) && Quiet(trace[|events|]) && t < |trace[|events|].tasks| && Proceeds(trace[|events|], op)
    ensures Run(ss, es, nTasks) && es == events + [Start(t, op), Step(t), Step(t), Step(t), Step(t)]
    ensures ss[|es|] == Called(trace[|events|], t, op) && Quiet(ss[|es|])
  {
    var s := trace[|events|];
    CallSteps(s, t, op);
    hide Next, Enabled, Run, Called, Act, Proceeds, Quiet;
    ss, es := Extended(trace, events, nTasks, Start(t, op));
    ss, es := Extended(ss, es, nTasks, Step(t));
    ss, es := Extended(ss, es, nTasks, Step(t));
    ss, es := Extended(ss, es, nTasks, Step(t));
    ss, es := Extended(ss, es, nTasks, Step(t));
  }

  lemma Extended(trace: seq<Sys>, events: seq<Event>, nTasks: nat, e: Event) returns (ss: seq<Sys>, es: seq<Event>)
    requires |trace| == |events| + 1 && Run(trace, events, nTasks) && Enabled(trace[|events|], e)
    ensures |ss| == |es| + 1 && Run(ss, es, nTasks) && es == events + [e] && ss[|es|] == Next(trace[|events|], e)
  {
    ss, es := trace + [Next(trace[|events|], e)], events + [e];
    Longer(trace, events, nTasks, e);
  }

  /** What one task writes another reads: for any data that fits, a write and then a read are a run
      whose bytes out are the first n bytes of the data, the rest staying in the pipe. */
  lemma WriteThenRead(data: seq<byte>, n: nat) returns (ss: seq<Sys>, es: seq<Event>)
    requires 0 < |data| <= PIPE_BUF_CAP && n > 0
    ensures Run(ss, es, 2) && |ss| == |es| + 1
    ensures var s, k := ss[|es|], if n < |data| then n else |data|;
      Quiet(s) && s.flowIn == data && s.flowOut == data[..k] && s.ring == data[k..]
  {
    ss, es := [Boot(2)], [];
    ss, es := CallRuns(ss, es, 2, 0, Write(data));
    assert data[..|data|] == data && [] + data == data;
    ss, es := CallRuns(ss, es, 2, 1, Read(n));
    assert |ss| == |es| + 1;
  }
}
