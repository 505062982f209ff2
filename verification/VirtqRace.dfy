/** Two drainers of one virtqueue: vm_bottom as a tasklet and in a poller, which
    drivers/virtio_mmio.c lets overlap. */
module VirtqRace {
  import opened Seqs
  import opened Virtqueue
  import opened Wrappers

  lemma SetupReached(n: nat)
    ensures Reachable(false, n, Setup(false, n)) && Known(Setup(false, n))
  {
    assert Run(false, n, [Setup(false, n)], []) && Ends([Setup(false, n)], Setup(false, n));
  }

  lemma Longer(n: nat, s: Sys, trace: seq<Sys>, events: seq<Event>, e: Event)
    requires Run(false, n, trace, events) && Ends(trace, s) && Known(s) && Enabled(s, e)
    ensures Run(false, n, trace + [Next(s, e)], events + [e]) && Ends(trace + [Next(s, e)], Next(s, e))
  {
    hide Known, Enabled, Next, Setup;
  }

  lemma Reaches(n: nat, s: Sys, e: Event) returns (t: Sys)
    requires Reachable(false, n, s) && Known(s) && Enabled(s, e)
    ensures t == Next(s, e) && Reachable(false, n, t) && Known(t)
  {
    hide Known, Enabled, Next, Run;
    var trace, events :| Run(false, n, trace, events) && Ends(trace, s);
    Longer(n, s, trace, events, e);
    KnownKept(s, e);
    t := Next(s, e);
  }

  /** Descriptor 0 was built as a chain of its own and is the one submission. */
  ghost predicate OneSubmission(s: Sys) {
    && Known(s) && s.v.desc[0].flags == 0 && s.chains == [[0]] && s.v.availIdx == 1
  }

  /** A run in which a client has submitted descriptor 0 and the device has completed it. */
  lemma Completed(n: nat) returns (s: Sys)
    ensures Reachable(false, n, s) && OneSubmission(s) && s.fetched == 1 && s.completions == [0] && s.called == [] && s.freed == 0
    ensures s.v.freeHead == 1 && s.v.freeCount == 127 && s.v.lastUsed == 0 && s.v.usedIdx == 1 && s.v.used[0] == 0
    ensures s.drains == seq(n, _ => None) && !s.serial
  {
    hide Reachable, Linked, Distinct;
    SetupReached(n);
    s := Reaches(n, Setup(false, n), PopEv);
    s := Reaches(n, s, Build(0, 0, 0));
    Single(s.v.desc);
    s := Reaches(n, s, SubmitEv([0], 1));
    s := Reaches(n, s, Fetch);
    s := Reaches(n, s, Complete(0, 0));
  }

  lemma Single(desc: seq<Desc>)
    requires desc != [] && desc[0].flags == 0
    ensures Linked(desc, [0]) && Distinct([0])
  {
  }

  /** Releasing descriptor 0, a chain of its own. */
  lemma ReleaseZero(v: Vq)
    requires Shape(v) && v.desc[0].flags == 0
    ensures FreeChain(v, 0, VQ_NUM) == v.(desc := v.desc[0 := Desc(0, v.freeHead)], freeHead := 0, freeCount := v.freeCount + 1)
  {
  }

  /** From two drainers on, both can look at the guard before either has moved last_used: the one
      completion is called back twice, its descriptor is put on the free list twice and then
      follows itself there, and the drained index is past the used one. */
  lemma TwoDrainers(n: nat) returns (s: Sys)
    requires n >= 2
    ensures Reachable(false, n, s) && OneSubmission(s) && s.v.desc[0] == Desc(0, 0) && s.v.freeHead == 0 && s.v.freeCount == VQ_NUM + 1
    ensures s.fetched == 1 && s.completions == [0] && s.called == [0, 0] && s.v.lastUsed == 2 && s.v.usedIdx == 1
  {
    hide Reachable, FreeChain;
    s := Completed(n);
    s := Reaches(n, s, Call(0));
    s := Reaches(n, s, Call(1));
    ReleaseZero(s.v);
    s := Reaches(n, s, FreeEv(0));
    ReleaseZero(s.v);
    s := Reaches(n, s, FreeEv(1));
  }

  /** The next pop hands out descriptor 0, and the one after it hands it out again. */
  lemma PoppedTwice(n: nat) returns (s: Sys)
    requires n >= 2
    ensures Reachable(false, n, s) && !PopsUnused(s)
  {
    hide Reachable;
    s := TwoDrainers(n);
    s := Reaches(n, s, PopEv);
    assert s.place[0] == Popped && Pop(s.v).1 == 0;
  }

  /** After m more submissions, every one of them of descriptor 0. */
  ghost predicate Flooded(s: Sys, m: nat) {
    && Known(s) && s.v.desc[0] == Desc(0, 0) && s.v.freeHead == 0 && s.v.freeCount == VQ_NUM + 1 - m
    && s.fetched == 1 && |s.chains| == m + 1 && s.v.availIdx == m + 1
  }

  lemma {:induction false} Flood(n: nat, m: nat) returns (s: Sys)
    requires n >= 2 && m <= VQ_NUM
    ensures Reachable(false, n, s) && Flooded(s, m)
    decreases m
  {
    hide Reachable;
    if m == 0 {
      s := TwoDrainers(n);
    } else {
      s := Flood(n, m - 1);
      s := FloodMore(n, s, m - 1);
    }
  }

  lemma FloodMore(n: nat, s: Sys, m: nat) returns (t: Sys)
    requires Reachable(false, n, s) && Flooded(s, m) && m < VQ_NUM
    ensures Reachable(false, n, t) && Flooded(t, m + 1)
  {
    hide Reachable, Linked, Distinct;
    t := Reaches(n, s, PopEv);
    Single(t.v.desc);
    t := Reaches(n, t, SubmitEv([0], 1));
  }

  /** Submitting descriptor 0 over and over runs into an entry the device has not fetched. */
  lemma Overrun(n: nat) returns (s: Sys)
    requires n >= 2
    ensures Reachable(false, n, s) && Known(s) && Enabled(s, SubmitEv([0], 1)) && !SlotSafe(s, SubmitEv([0], 1))
  {
    hide Reachable, Linked, Distinct;
    s := Flood(n, VQ_NUM);
    s := Reaches(n, s, PopEv);
    Single(s.v.desc);
    assert s.v.availIdx % VQ_NUM == 1 % VQ_NUM;
  }

  /** 129 distinct free descriptors are one too many. */
  lemma TooManyFree(s: Sys)
    requires s.v.freeCount > VQ_NUM
    ensures !Partition(s)
  {
    if Partition(s) {
      DistinctFits(s.free, VQ_NUM);
    }
  }

  // ---- exactly when drainers do not overlap ----------------------------------------------------------------

  /** Exactly when every run keeps the 128 descriptors partitioned. */
  lemma PartitionExactly(serial: bool, n: nat)
    ensures (forall s :: Reachable(serial, n, s) ==> Partition(s)) <==> serial || n <= 1
  {
    hide Reachable, Partition, OneSubmission;
    if serial || n <= 1 {
      forall s | Reachable(serial, n, s) ensures Partition(s) { Partitioned(serial, n, s); }
    } else {
      var s := TwoDrainers(n);
      TooManyFree(s);
    }
  }

  /** Exactly when no pop hands out a descriptor in use. */
  lemma PopExactly(serial: bool, n: nat)
    ensures (forall s :: Reachable(serial, n, s) ==> PopsUnused(s)) <==> serial || n <= 1
  {
    hide Reachable, PopsUnused;
    if serial || n <= 1 {
      forall s | Reachable(serial, n, s) ensures PopsUnused(s) { PopUnused(serial, n, s); }
    } else {
      var s := PoppedTwice(n);
    }
  }

  /** Exactly when no completion is called back twice. */
  lemma CallbackExactly(serial: bool, n: nat)
    ensures (forall s :: Reachable(serial, n, s) ==> CalledOnce(s)) <==> serial || n <= 1
  {
    hide Reachable, OneSubmission;
    if serial || n <= 1 {
      forall s | Reachable(serial, n, s) ensures CalledOnce(s) { ExactlyOnce(serial, n, s); }
    } else {
      var s := TwoDrainers(n);
      assert |s.called| > |s.completions|;
    }
  }

  /** Exactly when no ring slot is overwritten before it is consumed. */
  lemma SlotsExactly(serial: bool, n: nat)
    ensures (forall s, e :: Reachable(serial, n, s) && Known(s) && Enabled(s, e) ==> SlotSafe(s, e)) <==> serial || n <= 1
  {
    hide Reachable, SlotSafe, Known, Enabled;
    if serial || n <= 1 {
      forall s, e | Reachable(serial, n, s) && Known(s) && Enabled(s, e) ensures SlotSafe(s, e) { NoOverrun(serial, n, s, e); }
    } else {
      var s := Overrun(n);
    }
  }
}
