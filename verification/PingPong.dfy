/** The scheduler's own client: two helpers hand a turn back and forth through
    wait_sleep_when and wait_wake_all (kernel/selftest_sched.c).  A schedule is any
    sequence of helper numbers; each entry lets that helper do its next action.  The
    wait checks its condition and enqueues in one locked section; a woken helper returns
    from the wait without looking at the condition again, as wait_sleep_when does. */
module PingPong {
  datatype Pc = Want | Parked | Past | Bumped | Turned | Done

  datatype Helper = Helper(pc: Pc, round: nat)

  /** `log` records who passed the order check, in order; `broken` is its panic. */
  datatype State = State(turn: nat, count: nat, a: Helper, b: Helper, log: seq<nat>, broken: bool)

  function Initial(rounds: nat): State {
    var h := Helper(if rounds == 0 then Done else Want, 0);
    State(0, 0, h, h, [], false)
  }

  function Get(s: State, h: nat): Helper {
    if h == 0 then s.a else s.b
  }

  function Put(s: State, h: nat, x: Helper): State {
    if h == 0 then s.(a := x) else s.(b := x)
  }

  function SetPc(s: State, h: nat, pc: Pc): State {
    Put(s, h, Get(s, h).(pc := pc))
  }

  /** wait_wake_all by helper h and the end of its round. */
  function WakeAndAdvance(rounds: nat, s: State, h: nat): State
    requires h < 2
  {
    var s1 := if Get(s, 1 - h).pc == Parked then SetPc(s, 1 - h, Past) else s;
    var r := Get(s, h).round + 1;
    Put(s1, h, Helper(if r == rounds then Done else Want, r))
  }

  /** One action of helper h.  With `atomic` the store to the turn and the wake are one
      action for the other helper; in the source they are two. */
  function Act(rounds: nat, atomic: bool, s: State, h: nat): State {
    if h >= 2 || s.broken then s else
    match Get(s, h).pc
    case Want => SetPc(s, h, if s.turn == h then Past else Parked)
    case Parked => s
    case Past =>
      if s.count != 2 * Get(s, h).round + h then s.(broken := true)
      else SetPc(s.(count := s.count + 1, log := s.log + [h]), h, Bumped)
    case Bumped =>
      var t := SetPc(s.(turn := 1 - h), h, Turned);
      if atomic then WakeAndAdvance(rounds, t, h) else t
    case Turned => WakeAndAdvance(rounds, s, h)
    case Done => s
  }

  function Play(rounds: nat, atomic: bool, schedule: seq<nat>): State {
    if schedule == [] then Initial(rounds)
    else Act(rounds, atomic, Play(rounds, atomic, schedule[..|schedule| - 1]), schedule[|schedule| - 1])
  }

  predicate Alternates(log: seq<nat>) {
    forall i :: 0 <= i < |log| ==> log[i] == i % 2
  }

  predicate Finished(s: State) {
    s.a.pc == Done && s.b.pc == Done
  }

  // ---- the invariant of the atomic hand-over ----------------------------------------------

  predicate AtomicInv(rounds: nat, s: State) {
    && s.turn < 2 && !s.broken && Alternates(s.log) && |s.log| == s.count
    && var t, o := Get(s, s.turn), Get(s, 1 - s.turn);
    && (t.pc == Want || t.pc == Past || t.pc == Bumped || t.pc == Done)
    && (o.pc == Want || o.pc == Parked || o.pc == Done)
    && t.round <= rounds && o.round <= rounds
    && (t.pc == Done <==> t.round == rounds) && (o.pc == Done <==> o.round == rounds)
    && s.a.round == s.b.round + s.turn
    && s.count == t.round + o.round + if t.pc == Bumped then 1 else 0
  }

  lemma AtomicStep(rounds: nat, s: State, h: nat)
    requires AtomicInv(rounds, s)
    ensures AtomicInv(rounds, Act(rounds, true, s, h))
  {
    if h == s.turn { AtomicHolder(rounds, s); } else if h < 2 { AtomicOther(rounds, s); }
  }

  lemma AtomicHolder(rounds: nat, s: State)
    requires AtomicInv(rounds, s)
    ensures AtomicInv(rounds, Act(rounds, true, s, s.turn))
  {
    if s.turn == 0 {} else {}
  }

  lemma AtomicOther(rounds: nat, s: State)
    requires AtomicInv(rounds, s)
    ensures AtomicInv(rounds, Act(rounds, true, s, 1 - s.turn))
  {
  }

  // ---- the single round, with the two-step hand-over -----------------------------------------

  predicate OneRoundInv(s: State) {
    && !s.broken
    && var a, b := s.a, s.b;
    && (a.round == if a.pc == Done then 1 else 0) && (b.round == if b.pc == Done then 1 else 0)
    && ((s.turn == 0 && s.log == [] && s.count == 0 && (a.pc == Want || a.pc == Past) && (b.pc == Want || b.pc == Parked))
     || (s.turn == 0 && s.log == [0] && s.count == 1 && a.pc == Bumped && (b.pc == Want || b.pc == Parked))
     || (s.turn == 1 && s.log == [0] && s.count == 1 && (a.pc == Turned || a.pc == Done) && (b.pc == Want || b.pc == Past))
     || (s.turn == 1 && s.log == [0] && s.count == 1 && a.pc == Turned && b.pc == Parked)
     || (s.turn == 1 && s.log == [0, 1] && s.count == 2 && (a.pc == Turned || a.pc == Done) && b.pc == Bumped)
     || (s.turn == 0 && s.log == [0, 1] && s.count == 2 && (a.pc == Turned || a.pc == Done) && (b.pc == Turned || b.pc == Done)))
  }

  lemma OneRoundStep(s: State, h: nat)
    requires OneRoundInv(s)
    ensures OneRoundInv(Act(1, false, s, h))
  {
  }

  predicate IdleInv(s: State) {
    !s.broken && s.log == [] && s.count == 0 && Finished(s)
  }

  lemma {:induction false} PlayInv(rounds: nat, atomic: bool, schedule: seq<nat>)
    requires atomic || rounds < 2
    ensures atomic ==> AtomicInv(rounds, Play(rounds, atomic, schedule))
    ensures rounds == 0 ==> IdleInv(Play(rounds, atomic, schedule))
    ensures rounds == 1 && !atomic ==> OneRoundInv(Play(rounds, atomic, schedule))
    decreases |schedule|
  {
    if schedule != [] {
      var before, h := schedule[..|schedule| - 1], schedule[|schedule| - 1];
      PlayInv(rounds, atomic, before);
      if atomic { AtomicStep(rounds, Play(rounds, atomic, before), h); }
      if rounds == 1 && !atomic { OneRoundStep(Play(rounds, atomic, before), h); }
    }
  }

  /** The helpers alternate strictly, never trip the order check, never stall, and finish
      with the count the selftest demands. */
  lemma StrictAlternation(rounds: nat, atomic: bool, schedule: seq<nat>)
    requires atomic || rounds < 2
    ensures var s := Play(rounds, atomic, schedule);
      && !s.broken && Alternates(s.log) && |s.log| == s.count
      && (Finished(s) ==> s.count == 2 * rounds)
      && (!Finished(s) ==> exists h :: 0 <= h < 2 && Act(rounds, atomic, s, h) != s)
  {
    PlayInv(rounds, atomic, schedule);
    var s := Play(rounds, atomic, schedule);
    if !Finished(s) { Progress(rounds, atomic, s); }
  }

  lemma Progress(rounds: nat, atomic: bool, s: State)
    requires !Finished(s)
    requires (atomic && AtomicInv(rounds, s)) || (rounds == 1 && !atomic && OneRoundInv(s))
    ensures exists h :: 0 <= h < 2 && Act(rounds, atomic, s, h) != s
  {
    var pc := Get(s, s.turn).pc;
    var h := if pc == Done || pc == Parked then 1 - s.turn else s.turn;
    assert Act(rounds, atomic, s, h) != s;
  }

  const LATE_WAKE: seq<nat> := [0, 0, 0, 1, 1, 1, 1, 1, 0, 1]

  /** Helper 1 gets through its whole round and parks again between helper 0's store and
      helper 0's wake; the late wake releases it out of turn. */
  lemma LateWakeBreaks(rounds: nat)
    requires rounds >= 2
    ensures Play(rounds, false, LATE_WAKE).broken
  {
    LateWakeHalf(rounds);
    var s5 := State(1, 2, Helper(Turned, 0), Helper(Bumped, 0), [0, 1], false);
    var s6 := After(rounds, LATE_WAKE[..5], 1, s5);
    var s7 := After(rounds, LATE_WAKE[..6], 1, s6);
    var s8 := After(rounds, LATE_WAKE[..7], 1, s7);
    var s9 := After(rounds, LATE_WAKE[..8], 0, s8);
    var s10 := After(rounds, LATE_WAKE[..9], 1, s9);
    assert LATE_WAKE[..10] == LATE_WAKE;
  }

  lemma After(rounds: nat, x: seq<nat>, h: nat, s: State) returns (r: State)
    requires s == Play(rounds, false, x) && |x| < |LATE_WAKE| && x == LATE_WAKE[..|x|] && h == LATE_WAKE[|x|]
    ensures r == Act(rounds, false, s, h) == Play(rounds, false, LATE_WAKE[..|x| + 1])
  {
    var y := LATE_WAKE[..|x| + 1];
    assert y[..|y| - 1] == x;
    r := Act(rounds, false, s, h);
  }

  lemma LateWakeHalf(rounds: nat)
    requires rounds >= 2
    ensures Play(rounds, false, LATE_WAKE[..5]) == State(1, 2, Helper(Turned, 0), Helper(Bumped, 0), [0, 1], false)
  {
    var s1 := After(rounds, [], 0, Initial(rounds));
    var s2 := After(rounds, LATE_WAKE[..1], 0, s1);
    var s3 := After(rounds, LATE_WAKE[..2], 0, s2);
    var s4 := After(rounds, LATE_WAKE[..3], 1, s3);
    var s5 := After(rounds, LATE_WAKE[..4], 1, s4);
  }

  /** Exactly when the client is right under every schedule: one round or fewer, or the
      store and the wake happen as one action. */
  lemma AlternationExactly(rounds: nat, atomic: bool)
    ensures (forall schedule: seq<nat> :: !Play(rounds, atomic, schedule).broken) <==> atomic || rounds < 2
  {
    if atomic || rounds < 2 {
      forall schedule: seq<nat> ensures !Play(rounds, atomic, schedule).broken {
        StrictAlternation(rounds, atomic, schedule);
      }
    } else {
      LateWakeBreaks(rounds);
    }
  }
}
