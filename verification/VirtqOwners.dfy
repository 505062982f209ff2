/** Whose request a callback finds: the owner recorded at submission stays with the head of its
    chain until the chain is released. */
module VirtqOwners {
  import opened Seqs
  import opened Wrappers
  import opened Virtqueue
  import opened VirtqRace

  /** d is the head of the chain it is in. */
  predicate IsHead(s: Sys, d: nat)
    requires Known(s) && d < VQ_NUM
  {
    s.place[d].InChain? && s.place[d].k < |s.chains| && HeadOf(s, s.place[d].k) == d
  }

  /** The owner of every head in flight is that of its submission, every other entry is 0, and the
      callbacks found the owners of the submissions completed, in that order. */
  ghost predicate OwnersKept(s: Sys) {
    && Known(s)
    && (forall k: nat :: InFlight(s, k) ==> s.v.owner[HeadOf(s, k)] == s.owners[k])
    && (forall d: nat :: d < VQ_NUM && !IsHead(s, d) ==> s.v.owner[d] == 0)
    && |s.served| == |s.called| <= |s.completions|
    && forall j :: 0 <= j < |s.served| ==> s.served[j] == s.owners[s.completions[j]]
  }

  lemma HeadFlies(s: Sys, k: nat)
    requires Inv(s) && InFlight(s, k)
    ensures Known(s) && HeadOf(s, k) < VQ_NUM && s.place[HeadOf(s, k)] == InChain(k) && IsHead(s, HeadOf(s, k))
  {
    HeadPlace(s, k);
  }

  /** A step that leaves owners, chains and flights alone. */
  lemma OwnersSame(s: Sys, t: Sys)
    requires Inv(s) && OwnersKept(s) && Known(t) && t.v.owner == s.v.owner && t.chains == s.chains && t.owners == s.owners
    requires t.called == s.called && t.served == s.served && t.freed == s.freed && s.completions <= t.completions
    requires forall d: nat :: d < VQ_NUM && s.place[d].InChain? ==> t.place[d] == s.place[d]
    ensures OwnersKept(t)
  {
    InvBounds(s);
    assert t.completions[..t.freed] == s.completions[..s.freed];
    assert forall k: nat :: k < |s.chains| ==> HeadOf(t, k) == HeadOf(s, k);
    forall d: nat | d < VQ_NUM && !IsHead(t, d) ensures t.v.owner[d] == 0 { assert !IsHead(s, d); }
    forall k: nat | InFlight(t, k) ensures t.v.owner[HeadOf(t, k)] == t.owners[k] { assert InFlight(s, k); }
  }

  lemma OwnersCall(s: Sys, i: nat)
    requires Inv(s) && OwnersKept(s) && Enabled(s, Call(i))
    ensures OwnersKept(Next(s, Call(i)))
  {
    KeepsCall(s, i);
    CallDue(s, i);
    var t := Next(s, Call(i));
    hide Inv, FlightsOk, Distinct, Linked;
    forall d: nat | d < VQ_NUM && !IsHead(t, d) ensures t.v.owner[d] == 0 { assert !IsHead(s, d); }
    forall k: nat | InFlight(t, k) ensures t.v.owner[HeadOf(t, k)] == t.owners[k] { assert InFlight(s, k); }
  }

  /** A callback is made at the first completion not yet called back, for the request it was of. */
  lemma CallDue(s: Sys, i: nat)
    requires Inv(s) && OwnersKept(s) && Enabled(s, Call(i))
    ensures Bounds(s) && |s.called| == s.freed < |s.completions| && Drained(s.v) == HeadOf(s, s.completions[s.freed])
    ensures OwnerAt(s.v, Drained(s.v)) == s.owners[s.completions[s.freed]]
  {
    DrainGuard(s);
    DrainReads(s);
    Undrained(s, s.freed);
    CallQuiet(s, i);
  }

  lemma CallQuiet(s: Sys, i: nat)
    requires Inv(s) && Enabled(s, Call(i))
    ensures |s.called| == s.freed
  {
  }

  lemma OwnersSubmit(s: Sys, chain: seq<nat>, owner: nat)
    requires Inv(s) && OwnersKept(s) && Enabled(s, SubmitEv(chain, owner))
    ensures OwnersKept(Next(s, SubmitEv(chain, owner)))
  {
    InvBounds(s);
    var t, n := Next(s, SubmitEv(chain, owner)), |s.chains|;
    SubmitBounds(s, chain, owner);
    assert t.v.owner == s.v.owner[chain[0] := owner] && chain[0] in chain && s.place[chain[0]] == Popped;
    forall k: nat | InFlight(t, k) ensures t.v.owner[HeadOf(t, k)] == t.owners[k] {
      if k < n {
        assert InFlight(s, k);
        HeadFlies(s, k);
      }
    }
    forall d: nat | d < VQ_NUM && !IsHead(t, d) ensures t.v.owner[d] == 0 {
      assert d in chain ==> s.place[d] == Popped;
      assert !IsHead(s, d);
    }
  }

  lemma OwnersFree(s: Sys, i: nat)
    requires Inv(s) && OwnersKept(s) && Enabled(s, FreeEv(i))
    ensures OwnersKept(Next(s, FreeEv(i)))
  {
    KnownKept(s, FreeEv(i));
    InvBounds(s);
    FreeStep(s, i);
    FreeMoves(s, i);
    var t, k0 := Next(s, FreeEv(i)), s.completions[s.freed];
    hide OwnersKept, Next, Enabled, Inv, Bounds, RingsOk, FlightsOk, FreeOk, Threaded, Linked, Distinct, Moved, InFlight;
    HeadFlies(s, k0);
    FreedHeads(s, t, k0);
    forall k: nat | InFlight(t, k) ensures k != k0 && InFlight(s, k) && HeadOf(s, k) != HeadOf(s, k0) {
      LeavesFlight(s, t, k) by { InvOrder(s); }
      HeadFlies(s, k);
    }
    OwnersReleased(s, t, k0);
  }

  lemma InvOrder(s: Sys)
    requires Inv(s)
    ensures Bounds(s) && OrderOk(s)
  {
  }

  /** Of the descriptors freed only the head had an owner. */
  lemma FreedHeads(s: Sys, t: Sys, k0: nat)
    requires Known(s) && Known(t) && k0 < |s.chains| == |t.chains| && t.chains == s.chains && Owned(s, k0)
    requires t.place == Moved(s.place, s.chains[k0], Free)
    ensures forall d: nat :: d < VQ_NUM && IsHead(s, d) && d != HeadOf(s, k0) ==> IsHead(t, d)
  {
    assert forall k: nat :: k < |s.chains| ==> HeadOf(t, k) == HeadOf(s, k);
    hide Linked, Distinct;
  }

  lemma OwnersReleased(s: Sys, t: Sys, k0: nat)
    requires OwnersKept(s) && Known(t) && k0 < |s.chains| && t.v.owner == s.v.owner[HeadOf(s, k0) := 0]
    requires t.chains == s.chains && t.owners == s.owners && t.called == s.called && t.served == s.served && t.completions == s.completions
    requires forall d: nat :: d < VQ_NUM && IsHead(s, d) && d != HeadOf(s, k0) ==> IsHead(t, d)
    requires forall k: nat :: InFlight(t, k) ==> k != k0 && InFlight(s, k) && HeadOf(s, k) != HeadOf(s, k0)
    ensures OwnersKept(t)
  {
    hide IsHead, InFlight;
    forall k: nat | InFlight(t, k) ensures k < |t.chains| && t.v.owner[HeadOf(t, k)] == t.owners[k] {
      assert InFlight(s, k);
      FliesIn(t, k);
      assert HeadOf(t, k) == HeadOf(s, k);
    }
  }

  lemma FliesIn(t: Sys, k: nat)
    requires InFlight(t, k)
    ensures k < |t.chains|
  {
  }

  lemma OwnersStep(s: Sys, e: Event)
    requires Inv(s) && OwnersKept(s) && Enabled(s, e)
    ensures OwnersKept(Next(s, e))
  {
    match e
    case SubmitEv(chain, owner) => OwnersSubmit(s, chain, owner);
    case Call(i) => OwnersCall(s, i);
    case FreeEv(i) => OwnersFree(s, i);
    case _ =>
      KnownKept(s, e);
      PlacesStay(s, e);
      OwnersSame(s, Next(s, e));
  }

  /** Pops, builds, fetches and completions move no descriptor of a chain and no owner. */
  lemma PlacesStay(s: Sys, e: Event)
    requires Inv(s) && Enabled(s, e) && !e.SubmitEv? && !e.Call? && !e.FreeEv?
    ensures var t := Next(s, e);
      && t.v.owner == s.v.owner && t.chains == s.chains && t.owners == s.owners && t.called == s.called && t.served == s.served
      && t.freed == s.freed && s.completions <= t.completions && |t.place| == |s.place| == VQ_NUM
      && forall d: nat :: d < VQ_NUM && s.place[d].InChain? ==> t.place[d] == s.place[d]
  {
    if e.PopEv? { KeepsPop(s); }
    hide FlightsOk, RingsOk, OrderOk, Distinct, Linked, Inv;
  }

  lemma SetupOwners(serial: bool, n: nat)
    ensures OwnersKept(Setup(serial, n))
  {
  }

  lemma {:induction false} RunOwners(serial: bool, n: nat, trace: seq<Sys>, events: seq<Event>, i: nat)
    requires Run(serial, n, trace, events) && i < |trace| && (serial || n <= 1)
    ensures OwnersKept(trace[i])
    decreases i
  {
    hide Inv, Next, OwnersKept, Known, Setup;
    if i == 0 {
      SetupOwners(serial, n);
    } else {
      RunOwners(serial, n, trace, events, i - 1);
      RunKeeps(serial, n, trace, events, i - 1);
      OwnersStep(trace[i - 1], events[i - 1]);
    }
  }

  /** In every reachable state the owners are kept, and a callback finds the owner of exactly the
      submission whose completion it is made for. */
  ghost predicate OwnerFound(s: Sys, e: Event)
    requires Known(s)
  {
    && OwnersKept(s)
    && (e.Call? ==> |s.called| < |s.completions| && OwnerAt(s.v, Drained(s.v)) == s.owners[s.completions[|s.called|]])
  }

  lemma OwnerOfEach(serial: bool, n: nat, s: Sys, e: Event)
    requires Reachable(serial, n, s) && Known(s) && Enabled(s, e) && (serial || n <= 1)
    ensures OwnerFound(s, e)
  {
    hide Inv, OwnersKept, Run, Next;
    var trace, events :| Run(serial, n, trace, events) && Ends(trace, s);
    RunOwners(serial, n, trace, events, |trace| - 1);
    ReachInv(serial, n, s);
    if e.Call? { CallDue(s, e.i); }
  }

  /** Two drainers that overlap make more callbacks than there are completions to have owners. */
  lemma OwnerLost(n: nat) returns (s: Sys)
    requires n >= 2
    ensures Reachable(false, n, s) && Known(s) && !OwnersKept(s) && Enabled(s, PopEv)
  {
    hide Reachable;
    s := TwoDrainers(n);
  }

  /** Exactly when every callback finds the owner of its submission. */
  lemma OwnersExactly(serial: bool, n: nat)
    ensures (forall s, e :: Reachable(serial, n, s) && Known(s) && Enabled(s, e) ==> OwnerFound(s, e)) <==> serial || n <= 1
  {
    hide Reachable, OwnersKept, Known, Enabled;
    if serial || n <= 1 {
      forall s, e | Reachable(serial, n, s) && Known(s) && Enabled(s, e) ensures OwnerFound(s, e) { OwnerOfEach(serial, n, s, e); }
    } else {
      var s := OwnerLost(n);
      assert !OwnerFound(s, PopEv);
    }
  }
}
