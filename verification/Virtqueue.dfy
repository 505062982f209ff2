/** The split virtqueue of drivers/virtio_mmio.c: the free list threaded through the
    descriptor table, the two rings and their 16-bit indices, driven by clients that pop,
    build and submit chains and by a device that takes and completes them in any order. */
module Virtqueue {
  import opened Seqs
  import opened Wrappers

  const VQ_NUM: nat := 128
  const VQ_NONE: nat := 0xFFFF
  const WRAP: nat := 0x1_0000

  /** Flags and next; the address and length of a descriptor are payload. */
  datatype Desc = Desc(flags: nat, next: nat)

  predicate HasNext(d: Desc) { d.flags % 2 == 1 }

  datatype Vq = Vq(desc: seq<Desc>, owner: seq<nat>, avail: seq<nat>, availIdx: nat, used: seq<nat>, usedIdx: nat,
                   lastUsed: nat, freeHead: nat, freeCount: nat)

  predicate Shape(v: Vq) {
    && |v.desc| == VQ_NUM && |v.owner| == VQ_NUM && |v.avail| == VQ_NUM && |v.used| == VQ_NUM
    && v.availIdx < WRAP && v.usedIdx < WRAP && v.lastUsed < WRAP
  }

  // ---- the driver's operations on values ---------------------------------------------------

  /** virtq_pop_desc */
  function Pop(v: Vq): (Vq, nat)
    requires Shape(v) && (v.freeCount > 0 ==> v.freeHead < VQ_NUM)
  {
    if v.freeCount == 0 then (v, VQ_NONE)
    else (v.(freeHead := v.desc[v.freeHead].next, freeCount := v.freeCount - 1), v.freeHead)
  }

  /** virtq_submit */
  function Submit(v: Vq, head: nat, owner: nat): Vq
    requires Shape(v) && head < VQ_NUM
  {
    v.(owner := v.owner[head := owner], avail := v.avail[v.availIdx % VQ_NUM := head], availIdx := (v.availIdx + 1) % WRAP)
  }

  /** One turn of virtq_free_chain. */
  function Push(v: Vq, i: nat): Vq
    requires Shape(v) && i < VQ_NUM
  {
    v.(desc := v.desc[i := Desc(if HasNext(v.desc[i]) then 1 else 0, v.freeHead)], freeHead := i, freeCount := v.freeCount + 1)
  }

  /** virtq_free_chain from descriptor i on (a walk of more than `fuel` descriptors is cut short). */
  function FreeChain(v: Vq, i: nat, fuel: nat): (r: Vq)
    requires Shape(v)
    ensures Shape(r)
    decreases fuel
  {
    if i >= VQ_NUM || fuel == 0 then v
    else
      var w := Push(v, i);
      if HasNext(v.desc[i]) then FreeChain(w, v.desc[i].next, fuel - 1) else w
  }

  /** xs is linked by NEXT flags and ends at a descriptor without one. */
  ghost predicate Linked(desc: seq<Desc>, xs: seq<nat>) {
    && xs != [] && (forall i :: 0 <= i < |xs| ==> xs[i] < |desc|)
    && (forall i :: 0 <= i < |xs| - 1 ==> HasNext(desc[xs[i]]) && desc[xs[i]].next == xs[i + 1])
    && !HasNext(desc[xs[|xs| - 1]])
  }

  /** The free list: exactly freeCount distinct nodes threaded from freeHead. */
  ghost predicate Threaded(v: Vq, free: seq<nat>) {
    && v.freeCount == |free| && Distinct(free)
    && (forall i :: 0 <= i < |free| ==> free[i] < |v.desc|)
    && (free != [] ==> v.freeHead == free[0])
    && (forall i :: 0 <= i < |free| - 1 ==> v.desc[free[i]].next == free[i + 1])
  }

  // ---- the whole system -----------------------------------------------------------------------

  /** Where a descriptor is: on the free list, popped by a client, or in the chain of one submission. */
  datatype Place = Free | Popped | InChain(k: nat)

  /** Submissions are numbered.  chains[k] is what submission k put in flight, `fetched` of them
      the device has read from the avail ring, `completions` lists the submissions in the order
      the device put them in the used ring, `called` the heads of the callbacks made, and `freed`
      counts the releases.  owners[k] is the request submission k was for, `served` lists the
      requests the callbacks found at their heads.  drains[i] is the head drainer i has called back and not yet released;
      `serial` says that a drainer waits while another one is at an entry; the driver has no lock
      for that. */
  datatype Sys = Sys(v: Vq, free: seq<nat>, place: seq<Place>, chains: seq<seq<nat>>, fetched: nat,
                     completions: seq<nat>, called: seq<nat>, freed: nat, owners: seq<nat>, served: seq<nat>,
                     drains: seq<Option<nat>>, serial: bool)

  datatype Event =
    | PopEv
    | Build(d: nat, flags: nat, next: nat)
    | SubmitEv(chain: seq<nat>, owner: nat)
    | Fetch
    | Complete(k: nat, head: nat)
    | Call(i: nat)
    | FreeEv(i: nat)

  /** A queue just set up, for n callers of virtq_drain_used. */
  function Setup(serial: bool, n: nat): (s: Sys)
    ensures Shape(s.v)
  {
    var desc := seq(VQ_NUM, i requires 0 <= i < VQ_NUM => Desc(if i == VQ_NUM - 1 then 0 else 1, i + 1));
    var none := seq(VQ_NUM, _ => 0);
    Sys(Vq(desc, none, none, 0, none, 0, 0, 0, VQ_NUM), seq(VQ_NUM, i => i), seq(VQ_NUM, _ => Free), [], 0, [], [], 0, [], [],
        seq(n, _ => None), serial)
  }

  /** The numbers a step follows are in range.  Every step keeps this, whatever the drainers do
      (KnownKept). */
  predicate Known(s: Sys) {
    && Shape(s.v) && |s.place| == VQ_NUM
    && (forall k :: 0 <= k < |s.chains| ==> s.chains[k] != [])
    && (forall k, i :: 0 <= k < |s.chains| && 0 <= i < |s.chains[k]| ==> s.chains[k][i] < VQ_NUM)
    && s.fetched <= |s.chains| == |s.owners|
    && (forall j :: 0 <= j < |s.completions| ==> s.completions[j] < |s.chains|)
  }

  predicate Bounds(s: Sys) {
    && Known(s) && (s.v.freeCount > 0 ==> s.v.freeHead < VQ_NUM && s.free != [])
    && s.freed <= |s.called| <= |s.completions|
  }

  /** No drainer is between a callback and its release. */
  predicate Quiet(s: Sys) { forall j :: 0 <= j < |s.drains| ==> s.drains[j].None? }

  /** The client owns the descriptors it writes and submits a chain it has linked (a pop that
      would follow a head outside the table is undefined, and no step); the device completes what
      it has fetched, once; a drainer looks at the guard and calls back, then releases. */
  ghost predicate Enabled(s: Sys, e: Event)
    requires Known(s)
  {
    match e
    case PopEv => s.v.freeCount > 0 ==> s.v.freeHead < VQ_NUM
    case Build(d, flags, next) => d < VQ_NUM && s.place[d] == Popped
    case SubmitEv(chain, owner) =>
      Linked(s.v.desc, chain) && Distinct(chain) && forall i :: 0 <= i < |chain| ==> s.place[chain[i]] == Popped
    case Fetch => s.fetched < |s.chains|
    case Complete(k, head) => k < s.fetched && k !in s.completions && head == HeadOf(s, k)
    case Call(i) => i < |s.drains| && s.drains[i].None? && s.v.lastUsed != s.v.usedIdx && (s.serial ==> Quiet(s))
    case FreeEv(i) => i < |s.drains| && s.drains[i].Some?
  }

  function HeadOf(s: Sys, k: nat): (r: nat)
    requires Known(s) && k < |s.chains|
    ensures r < VQ_NUM
  {
    s.chains[k][0]
  }

  function Heads(s: Sys, ks: seq<nat>): (r: seq<nat>)
    requires Known(s) && forall i :: 0 <= i < |ks| ==> ks[i] < |s.chains|
    ensures |r| == |ks| && forall i :: 0 <= i < |r| ==> r[i] == HeadOf(s, ks[i])
  {
    seq(|ks|, i requires 0 <= i < |ks| => HeadOf(s, ks[i]))
  }

  ghost function Moved(place: seq<Place>, xs: seq<nat>, to: Place): (r: seq<Place>)
    ensures |r| == |place|
  {
    seq(|place|, d requires 0 <= d < |place| => if d in xs then to else place[d])
  }

  function Reversed(xs: seq<nat>): (r: seq<nat>)
    ensures |r| == |xs| && forall i :: 0 <= i < |xs| ==> r[i] == xs[|xs| - 1 - i]
  {
    seq(|xs|, i requires 0 <= i < |xs| => xs[|xs| - 1 - i])
  }

  /** The head the drain loop reads from the used ring. */
  function Drained(v: Vq): nat
    requires Shape(v)
  {
    v.used[v.lastUsed % VQ_NUM]
  }

  /** The request a callback finds at its head. */
  function OwnerAt(v: Vq, head: nat): nat
    requires Shape(v)
  {
    if head < VQ_NUM then v.owner[head] else 0
  }

  /** The chain of the completion a drain loop is at, as far as there is one. */
  function AtHand(s: Sys): seq<nat>
    requires Known(s)
  {
    if s.freed < |s.completions| then s.chains[s.completions[s.freed]] else []
  }

  ghost function Next(s: Sys, e: Event): Sys
    requires Known(s) && Enabled(s, e)
  {
    match e
    case PopEv =>
      var (v, d) := Pop(s.v);
      if d == VQ_NONE then s
      else s.(v := v, free := if s.free == [] then [] else s.free[1..], place := s.place[d := Popped])
    case Build(d, flags, next) => s.(v := s.v.(desc := s.v.desc[d := Desc(flags, next)]))
    case SubmitEv(chain, owner) =>
      s.(v := Submit(s.v, chain[0], owner), chains := s.chains + [chain], owners := s.owners + [owner], place := Moved(s.place, chain, InChain(|s.chains|)))
    case Fetch => s.(fetched := s.fetched + 1)
    case Complete(k, head) =>
      var v := s.v.(used := s.v.used[s.v.usedIdx % VQ_NUM := head], usedIdx := (s.v.usedIdx + 1) % WRAP);
      s.(v := v, completions := s.completions + [k])
    case Call(i) =>
      s.(called := s.called + [Drained(s.v)], served := s.served + [OwnerAt(s.v, Drained(s.v))],
         drains := s.drains[i := Some(Drained(s.v))])
    case FreeEv(i) =>
      var h := s.drains[i].value;
      var v := FreeChain(s.v, h, VQ_NUM);
      var owner := if h < VQ_NUM then v.owner[h := 0] else v.owner;
      s.(v := v.(owner := owner, lastUsed := (v.lastUsed + 1) % WRAP),
         free := Reversed(AtHand(s)) + s.free, place := Moved(s.place, AtHand(s), Free), freed := s.freed + 1,
         drains := s.drains[i := None])
  }

  lemma KnownKept(s: Sys, e: Event)
    requires Known(s) && Enabled(s, e)
    ensures Known(Next(s, e))
  {
    hide FreeChain, Distinct;
  }

  // ---- the invariant ------------------------------------------------------------------------

  predicate InFlight(s: Sys, k: nat) { k < |s.chains| && s.freed <= |s.completions| && k !in s.completions[..s.freed] }

  /** The free list is threaded through the table and holds exactly the free descriptors. */
  ghost predicate FreeOk(s: Sys) {
    && |s.place| == VQ_NUM && |s.v.desc| == VQ_NUM && Threaded(s.v, s.free)
    && forall d :: 0 <= d < VQ_NUM ==> (s.place[d] == Free <==> d in s.free)
  }

  /** The chain of submission k is intact and its descriptors are its own. */
  ghost predicate Owned(s: Sys, k: nat)
    requires k < |s.chains| && |s.place| == VQ_NUM
  {
    && Linked(s.v.desc, s.chains[k]) && Distinct(s.chains[k]) && |s.v.desc| == VQ_NUM
    && forall d :: 0 <= d < VQ_NUM ==> (s.place[d] == InChain(k) <==> d in s.chains[k])
  }

  ghost predicate FlightsOk(s: Sys) {
    && |s.place| == VQ_NUM
    && (forall k :: InFlight(s, k) ==> Owned(s, k))
    && (forall d :: 0 <= d < VQ_NUM && s.place[d].InChain? ==> InFlight(s, s.place[d].k))
  }

  /** The entries not yet consumed are still in the rings, and the indices count modulo 2^16. */
  ghost predicate RingsOk(s: Sys)
    requires Bounds(s)
  {
    && |s.chains| - s.fetched <= VQ_NUM && |s.completions| - s.freed <= VQ_NUM
    && s.v.availIdx == |s.chains| % WRAP && s.v.usedIdx == |s.completions| % WRAP && s.v.lastUsed == s.freed % WRAP
    && (forall k :: s.fetched <= k < |s.chains| ==> s.v.avail[k % VQ_NUM] == HeadOf(s, k))
    && (forall j :: s.freed <= j < |s.completions| ==> s.v.used[j % VQ_NUM] == HeadOf(s, s.completions[j]))
  }

  /** Every submission completes at most once, and callbacks come in used-ring order. */
  ghost predicate OrderOk(s: Sys)
    requires Bounds(s)
  {
    && Distinct(s.completions) && (forall j :: 0 <= j < |s.completions| ==> s.completions[j] < s.fetched)
    && |s.called| <= s.freed + 1
    && forall j :: 0 <= j < |s.called| ==> s.called[j] == HeadOf(s, s.completions[j])
  }

  /** At most one drainer is between a callback and its release, at the completion it has called
      back. */
  ghost predicate DrainOk(s: Sys)
    requires Bounds(s)
  {
    && (s.serial || |s.drains| <= 1)
    && (if Quiet(s) then |s.called| == s.freed else s.freed < |s.completions| && |s.called| == s.freed + 1)
    && (forall i, j :: 0 <= i < j < |s.drains| ==> s.drains[i].None? || s.drains[j].None?)
    && forall i :: 0 <= i < |s.drains| && s.drains[i].Some? ==> s.drains[i].value == HeadOf(s, s.completions[s.freed])
  }

  ghost predicate Inv(s: Sys) {
    Bounds(s) && FreeOk(s) && FlightsOk(s) && RingsOk(s) && OrderOk(s) && DrainOk(s)
  }

  lemma SetupInv(serial: bool, n: nat)
    requires serial || n <= 1
    ensures Inv(Setup(serial, n))
  {
    var s := Setup(serial, n);
    assert Threaded(s.v, s.free);
    forall d | 0 <= d < VQ_NUM ensures d in s.free { assert s.free[d] == d; }
  }

  // ---- one descriptor per head: neither ring overruns ---------------------------------------------

  lemma HeadPlace(s: Sys, k: nat)
    requires Bounds(s) && FlightsOk(s) && InFlight(s, k)
    ensures HeadOf(s, k) < VQ_NUM && s.place[HeadOf(s, k)] == InChain(k)
  {
    assert Owned(s, k);
    assert s.chains[k][0] in s.chains[k];
  }

  /** Room for one more in the avail ring: the new head is a descriptor no unfetched entry names. */
  lemma AvailHasRoom(s: Sys, d: nat)
    requires Inv(s) && d < VQ_NUM && s.place[d] == Popped
    ensures |s.chains| - s.fetched < VQ_NUM
  {
    hide FreeOk, RingsOk, FlightsOk, Owned;
    var n := |s.chains| - s.fetched;
    var heads := Heads(s, seq(n, i requires 0 <= i < n => s.fetched + i)) + [d];
    forall i | 0 <= i < n ensures InFlight(s, s.fetched + i) && heads[i] < VQ_NUM && s.place[heads[i]] == InChain(s.fetched + i) {
      var k := s.fetched + i;
      forall j | 0 <= j < s.freed ensures s.completions[..s.freed][j] != k {}
      HeadPlace(s, k);
    }
    DistinctFits(heads, VQ_NUM);
  }

  /** Room in the used ring: the completed submission's head differs from every undrained one. */
  lemma UsedHasRoom(s: Sys, k: nat)
    requires Inv(s) && k < s.fetched && k !in s.completions
    ensures |s.completions| - s.freed < VQ_NUM
  {
    hide FreeOk, RingsOk, FlightsOk, Owned;
    var n := |s.completions| - s.freed;
    var heads := Heads(s, s.completions[s.freed..]) + [HeadOf(s, k)];
    assert InFlight(s, k);
    HeadPlace(s, k);
    forall i | 0 <= i < n
      ensures heads[i] < VQ_NUM && s.place[heads[i]] == InChain(s.completions[s.freed + i])
    {
      Undrained(s, s.freed + i);
      HeadPlace(s, s.completions[s.freed + i]);
    }
    forall i, j | 0 <= i < j < n + 1 ensures heads[i] != heads[j] {
      assert s.completions[s.freed + i] in s.completions;
      if j < n { assert s.completions[s.freed + i] != s.completions[s.freed + j]; }
    }
    DistinctFits(heads, VQ_NUM);
  }

  /** A completion not yet drained is still in flight. */
  lemma Undrained(s: Sys, j: nat)
    requires Bounds(s) && OrderOk(s) && s.freed <= j < |s.completions|
    ensures InFlight(s, s.completions[j])
  {
    forall i | 0 <= i < s.freed ensures s.completions[..s.freed][i] != s.completions[j] {}
  }

  // ---- the operations keep the free list -----------------------------------------------------------

  lemma PushThreads(v: Vq, free: seq<nat>, i: nat)
    requires Shape(v) && Threaded(v, free) && i < VQ_NUM && i !in free
    ensures Threaded(Push(v, i), [i] + free)
  {
    var fl := [i] + free;
    forall j | 0 <= j < |fl| - 1 ensures Push(v, i).desc[fl[j]].next == fl[j + 1] {
      if j > 0 { assert fl[j] == free[j - 1] && free[j - 1] in free; }
    }
  }

  lemma PushLinks(v: Vq, xs: seq<nat>)
    requires Shape(v) && Linked(v.desc, xs) && Distinct(xs) && |xs| > 1
    ensures HasNext(v.desc[xs[0]]) && v.desc[xs[0]].next == xs[1]
    ensures Linked(Push(v, xs[0]).desc, xs[1..]) && Distinct(xs[1..]) && xs[0] !in xs[1..]
  {
    var rest, w := xs[1..], Push(v, xs[0]);
    assert HasNext(v.desc[xs[0]]);
    forall i | 0 <= i < |rest| ensures rest[i] == xs[i + 1] && w.desc[rest[i]] == v.desc[rest[i]] {}
  }

  lemma ReversedMore(xs: seq<nat>, free: seq<nat>)
    requires xs != []
    ensures Reversed(xs[1..]) + ([xs[0]] + free) == Reversed(xs) + free
  {
  }

  lemma FreeChainStep(v: Vq, i: nat, fuel: nat)
    requires Shape(v) && i < VQ_NUM && fuel > 0
    ensures FreeChain(v, i, fuel) == if HasNext(v.desc[i]) then FreeChain(Push(v, i), v.desc[i].next, fuel - 1) else Push(v, i)
    ensures var w := Push(v, i);
      && (forall d :: 0 <= d < VQ_NUM && d != i ==> w.desc[d] == v.desc[d])
      && w.desc[i].flags == (if HasNext(v.desc[i]) then 1 else 0)
      && w == v.(desc := w.desc, freeHead := w.freeHead, freeCount := w.freeCount) && Shape(w)
  {
  }

  lemma ChainStarts(v: Vq, xs: seq<nat>)
    requires Shape(v) && Linked(v.desc, xs)
    ensures xs != [] && xs[0] < VQ_NUM && (|xs| == 1 ==> !HasNext(v.desc[xs[0]]))
  {
  }

  /** virtq_free_chain returns exactly the chain it is given, its last descriptor first in line and
      every flag but NEXT cleared, and nothing else in the table changes. */
  lemma {:induction false} FreesChain(v: Vq, free: seq<nat>, xs: seq<nat>, fuel: nat)
    requires Shape(v) && Threaded(v, free) && xs != [] && Linked(v.desc, xs) && Distinct(xs) && |xs| <= fuel
    requires forall d :: d in xs ==> d !in free
    ensures var w := FreeChain(v, xs[0], fuel);
      && Threaded(w, Reversed(xs) + free)
      && (forall d :: 0 <= d < VQ_NUM && d !in xs ==> w.desc[d] == v.desc[d])
      && (forall d :: 0 <= d < VQ_NUM && d in xs ==> w.desc[d].flags == if HasNext(v.desc[d]) then 1 else 0)
      && w == v.(desc := w.desc, freeHead := w.freeHead, freeCount := w.freeCount)
    decreases |xs|
  {
    hide Threaded, FreeChain, Push, Linked, Distinct;
    var x, rest := xs[0], xs[1..];
    assert x in xs && xs == [x] + rest;
    ChainStarts(v, xs);
    FreeChainStep(v, x, fuel);
    var w := Push(v, x);
    PushThreads(v, free, x);
    ReversedMore(xs, free);
    if |xs| == 1 {
      assert Reversed(rest) + ([x] + free) == [x] + free;
    } else {
      assert forall d :: d in xs ==> d == x || d in rest;
      PushLinks(v, xs);
      hide Reversed;
      FreesChain(w, [x] + free, rest, fuel - 1);
    }
  }

  // ---- every step keeps the invariant ----------------------------------------------------------------

  lemma KeepsPop(s: Sys)
    requires Inv(s)
    ensures Inv(Next(s, PopEv))
    ensures s.v.freeCount > 0 ==> s.free != [] && s.v.freeHead == s.free[0] < VQ_NUM && s.place[s.v.freeHead] == Free
  {
    var t := Next(s, PopEv);
    if s.v.freeCount > 0 {
      var d := s.free[0];
      assert d in s.free;
      PopFree(s);
      OtherFlights(s, t, [d]);
      assert Bounds(t);
    }
  }

  lemma PopFree(s: Sys)
    requires Bounds(s) && FreeOk(s) && s.v.freeCount > 0
    ensures s.v.freeHead == s.free[0] < VQ_NUM
    ensures FreeOk(Next(s, PopEv))
  {
    var t := Next(s, PopEv);
    var d := s.free[0];
    assert s.free == [d] + t.free;
    forall i | 0 <= i < |t.free| ensures t.free[i] == s.free[i + 1] {}
    forall e | 0 <= e < VQ_NUM ensures t.place[e] == Free <==> e in t.free {
      if e in t.free { assert e in s.free; }
    }
  }

  /** Chains untouched by a step stay intact. */
  lemma OtherFlights(s: Sys, t: Sys, touched: seq<nat>)
    requires Bounds(s) && FlightsOk(s) && |t.place| == VQ_NUM && |t.v.desc| == VQ_NUM
    requires t.chains == s.chains && t.completions == s.completions && t.freed == s.freed
    requires forall d :: 0 <= d < VQ_NUM && d !in touched ==> t.place[d] == s.place[d] && t.v.desc[d] == s.v.desc[d]
    requires forall d :: 0 <= d < VQ_NUM && d in touched ==> !s.place[d].InChain? && !t.place[d].InChain?
    ensures FlightsOk(t)
  {
    forall k: nat | InFlight(t, k) ensures Owned(t, k) {
      assert InFlight(s, k) && Owned(s, k);
      forall i | 0 <= i < |t.chains[k]| ensures t.v.desc[t.chains[k][i]] == s.v.desc[s.chains[k][i]] {
        assert s.chains[k][i] in s.chains[k];
      }
    }
    forall d | 0 <= d < VQ_NUM && t.place[d].InChain? ensures InFlight(t, t.place[d].k) {
      assert InFlight(s, s.place[d].k);
    }
  }

  lemma KeepsBuild(s: Sys, d: nat, flags: nat, next: nat)
    requires Inv(s) && Enabled(s, Build(d, flags, next))
    ensures Inv(Next(s, Build(d, flags, next)))
  {
    var t := Next(s, Build(d, flags, next));
    OtherFlights(s, t, [d]);
    assert d !in s.free;
    forall i | 0 <= i < |s.free| ensures s.free[i] != d { assert s.free[i] in s.free; }
  }

  lemma SubmitFlights(s: Sys, chain: seq<nat>, owner: nat)
    requires Inv(s) && Enabled(s, SubmitEv(chain, owner))
    ensures FlightsOk(Next(s, SubmitEv(chain, owner))) && FreeOk(Next(s, SubmitEv(chain, owner)))
  {
    var t := Next(s, SubmitEv(chain, owner));
    hide RingsOk, OrderOk;
    var n := |s.chains|;
    forall d | d in chain ensures d < VQ_NUM && s.place[d] == Popped {}
    forall k: nat | InFlight(t, k) ensures Owned(t, k) {
      if k < n {
        assert InFlight(s, k) && Owned(s, k);
        forall d | 0 <= d < VQ_NUM ensures t.place[d] == InChain(k) <==> d in t.chains[k] {}
      } else {
        forall d | 0 <= d < VQ_NUM ensures t.place[d] == InChain(n) <==> d in chain {
          assert s.place[d].InChain? ==> InFlight(s, s.place[d].k);
        }
      }
    }
    assert InFlight(t, n) by {
      forall j | 0 <= j < t.freed ensures t.completions[..t.freed][j] != n { assert s.completions[j] < n; }
    }
    forall d | 0 <= d < VQ_NUM && t.place[d].InChain? ensures InFlight(t, t.place[d].k) {
      if d !in chain { assert InFlight(s, s.place[d].k); }
    }
  }

  lemma SubmitBounds(s: Sys, chain: seq<nat>, owner: nat)
    requires Inv(s) && Enabled(s, SubmitEv(chain, owner))
    ensures Bounds(Next(s, SubmitEv(chain, owner)))
    ensures var t := Next(s, SubmitEv(chain, owner));
      forall k :: 0 <= k < |s.chains| ==> t.chains[k] == s.chains[k] && HeadOf(t, k) == HeadOf(s, k)
  {
    hide FlightsOk, FreeOk, RingsOk, OrderOk;
  }

  lemma KeepsSubmit(s: Sys, chain: seq<nat>, owner: nat)
    requires Inv(s) && Enabled(s, SubmitEv(chain, owner))
    ensures Inv(Next(s, SubmitEv(chain, owner)))
  {
    var t := Next(s, SubmitEv(chain, owner));
    AvailHasRoom(s, chain[0]);
    SubmitFlights(s, chain, owner);
    SubmitBounds(s, chain, owner);
    hide FlightsOk, FreeOk, Bounds, HeadOf, Moved, Linked, Distinct;
    SlotsApart(s.fetched, |s.chains|);
    WrapSlots(|s.chains|);
    assert RingsOk(t) by {
      forall k | t.fetched <= k < |t.chains| ensures t.v.avail[k % VQ_NUM] == HeadOf(t, k) {
        if k == |s.chains| { HeadIs(t, k); }
      }
    }
  }

  lemma HeadIs(s: Sys, k: nat)
    requires Bounds(s) && k < |s.chains|
    ensures s.chains[k] != [] && HeadOf(s, k) == s.chains[k][0]
  {
  }

  /** Fewer than 128 consecutive entries lie in distinct slots, none of them that of the next. */
  lemma SlotsApart(from: nat, to: nat)
    requires to - from < VQ_NUM
    ensures forall k :: from <= k < to ==> k % VQ_NUM != to % VQ_NUM
  {
  }

  /** 2^16 is a multiple of the ring size, so a wrapped index still names the right slot. */
  lemma WrapSlots(n: nat)
    ensures (n % WRAP) % VQ_NUM == n % VQ_NUM
    ensures (n + 1) % WRAP == (n % WRAP + 1) % WRAP
  {
  }

  lemma KeepsComplete(s: Sys, k: nat, head: nat)
    requires Inv(s) && Enabled(s, Complete(k, head))
    ensures Inv(Next(s, Complete(k, head)))
  {
    var t := Next(s, Complete(k, head));
    UsedHasRoom(s, k);
    assert Bounds(t);
    assert t.completions[..t.freed] == s.completions[..s.freed];
    assert FreeOk(t);
    assert forall j :: InFlight(t, j) <==> InFlight(s, j);
    assert FlightsOk(t) by {
      forall j: nat | InFlight(t, j) ensures Owned(t, j) { assert Owned(s, j); }
    }
    hide FlightsOk, FreeOk;
    assert forall j :: 0 <= j < |s.chains| ==> HeadOf(t, j) == HeadOf(s, j);
    SlotsApart(s.freed, |s.completions|);
    WrapSlots(|s.completions|);
    assert forall j :: 0 <= j < |s.completions| ==> s.completions[j] in s.completions;
  }

  lemma DrainReads(s: Sys)
    requires Inv(s) && s.freed < |s.completions|
    ensures Drained(s.v) == HeadOf(s, s.completions[s.freed])
  {
    WrapSlots(s.freed);
  }

  /** The wrapped indices differ exactly when something is left to drain. */
  lemma DrainGuard(s: Sys)
    requires Inv(s)
    ensures s.v.lastUsed != s.v.usedIdx <==> s.freed < |s.completions|
  {
    WrapApart(s.freed, |s.completions|);
  }

  lemma WrapApart(a: nat, b: nat)
    requires a <= b <= a + VQ_NUM
    ensures a % WRAP == b % WRAP <==> a == b
  {
    var q, r := a / WRAP, b / WRAP;
    assert a == WRAP * q + a % WRAP && b == WRAP * r + b % WRAP;
  }

  lemma KeepsCall(s: Sys, i: nat)
    requires Inv(s) && Enabled(s, Call(i))
    ensures Inv(Next(s, Call(i)))
  {
    var t := Next(s, Call(i));
    DrainGuard(s);
    DrainReads(s);
    assert FlightsOk(t) by {
      assert forall j :: InFlight(t, j) <==> InFlight(s, j);
      forall j: nat | InFlight(t, j) ensures Owned(t, j) { assert Owned(s, j); }
    }
    CallBounds(s, i);
    hide FlightsOk, FreeOk, Bounds, HeadOf, RingsOk, OrderOk, DrainOk;
    assert RingsOk(t) && OrderOk(t) by { CallOrder(s, i); }
    assert DrainOk(t) by { CallDrains(s, i); }
  }

  lemma CallBounds(s: Sys, i: nat)
    requires Bounds(s) && Enabled(s, Call(i)) && |s.called| < |s.completions|
    ensures Bounds(Next(s, Call(i))) && forall k :: 0 <= k < |s.chains| ==> HeadOf(Next(s, Call(i)), k) == HeadOf(s, k)
  {
  }

  lemma CallOrder(s: Sys, i: nat)
    requires Bounds(s) && RingsOk(s) && OrderOk(s) && DrainOk(s) && Enabled(s, Call(i)) && s.freed < |s.completions|
    requires Drained(s.v) == HeadOf(s, s.completions[s.freed]) && Bounds(Next(s, Call(i)))
    requires forall k :: 0 <= k < |s.chains| ==> HeadOf(Next(s, Call(i)), k) == HeadOf(s, k)
    ensures Quiet(s) && RingsOk(Next(s, Call(i))) && OrderOk(Next(s, Call(i)))
  {
    hide HeadOf, Drained, Distinct;
  }

  lemma CallDrains(s: Sys, i: nat)
    requires Bounds(s) && DrainOk(s) && Enabled(s, Call(i)) && s.freed < |s.completions| && Quiet(s)
    requires Drained(s.v) == HeadOf(s, s.completions[s.freed]) && Bounds(Next(s, Call(i)))
    requires forall k :: 0 <= k < |s.chains| ==> HeadOf(Next(s, Call(i)), k) == HeadOf(s, k)
    ensures DrainOk(Next(s, Call(i)))
  {
    hide HeadOf, Drained, Distinct;
    assert Next(s, Call(i)).drains[i].Some?;
  }

  lemma KeepsFetch(s: Sys)
    requires Inv(s) && Enabled(s, Fetch)
    ensures Inv(Next(s, Fetch))
  {
    var t := Next(s, Fetch);
    assert FlightsOk(t) by {
      assert forall j :: InFlight(t, j) <==> InFlight(s, j);
      forall j: nat | InFlight(t, j) ensures Owned(t, j) { assert Owned(s, j); }
    }
    hide FlightsOk, FreeOk;
    assert Bounds(t);
    assert forall k :: 0 <= k < |s.chains| ==> HeadOf(t, k) == HeadOf(s, k);
  }

  /** The chain about to be freed is intact and off the free list. */
  lemma DrainTarget(s: Sys, i: nat) returns (xs: seq<nat>)
    requires Inv(s) && Enabled(s, FreeEv(i))
    ensures s.freed < |s.completions| && i < |s.drains|
    ensures xs == AtHand(s) == s.chains[s.completions[s.freed]] && Linked(s.v.desc, xs) && Distinct(xs) && |xs| <= VQ_NUM
    ensures Drained(s.v) == s.drains[i].value == xs[0] < VQ_NUM && forall d :: d in xs ==> d !in s.free
    ensures InFlight(s, s.completions[s.freed]) && Owned(s, s.completions[s.freed]) && Threaded(s.v, s.free)
    ensures Shape(s.v)
  {
    var k := s.completions[s.freed];
    xs := s.chains[k];
    Undrained(s, s.freed);
    DrainReads(s);
    assert Owned(s, k);
    DistinctFits(xs, VQ_NUM);
    forall d | d in xs ensures d !in s.free { assert s.place[d] == InChain(k); }
  }

  lemma FreedValue(s: Sys, i: nat)
    requires Bounds(s) && Enabled(s, FreeEv(i)) && s.drains[i].value < VQ_NUM
    ensures var h := s.drains[i].value; var w := FreeChain(s.v, h, VQ_NUM);
      Next(s, FreeEv(i)).v == w.(owner := w.owner[h := 0], lastUsed := (w.lastUsed + 1) % WRAP)
  {
    hide FreeChain;
  }

  /** w is v after virtq_free_chain of the chain xs and the drain loop's step of last_used. */
  ghost predicate Freed(v: Vq, w: Vq, free: seq<nat>, xs: seq<nat>) {
    && Shape(v) && Shape(w) && xs != [] && Drained(v) == xs[0] < VQ_NUM && Threaded(w, free)
    && (forall d :: 0 <= d < VQ_NUM && d !in xs ==> w.desc[d] == v.desc[d])
    && w == v.(desc := w.desc, freeHead := w.freeHead, freeCount := w.freeCount,
               owner := v.owner[xs[0] := 0], lastUsed := (v.lastUsed + 1) % WRAP)
  }

  lemma FreedBy(v: Vq, w: Vq, free: seq<nat>, xs: seq<nat>)
    requires Shape(v) && Threaded(v, free) && Linked(v.desc, xs) && Distinct(xs) && |xs| <= VQ_NUM
    requires Drained(v) == xs[0] && forall d :: d in xs ==> d !in free
    requires var u := FreeChain(v, xs[0], VQ_NUM);
      w == u.(owner := u.owner[xs[0] := 0], lastUsed := (u.lastUsed + 1) % WRAP)
    ensures Freed(v, w, Reversed(xs) + free, xs)
  {
    hide FreeChain, Threaded, Distinct, Reversed, Drained;
    FreesChain(v, free, xs, VQ_NUM);
    SameThread(FreeChain(v, xs[0], VQ_NUM), w, Reversed(xs) + free);
  }

  /** The drain loop frees exactly the chain of the completion it is at. */
  lemma FreeStep(s: Sys, i: nat)
    requires Inv(s) && Enabled(s, FreeEv(i))
    ensures s.freed < |s.completions| && i < |s.drains|
    ensures InFlight(s, s.completions[s.freed]) && Owned(s, s.completions[s.freed])
    ensures Freed(s.v, Next(s, FreeEv(i)).v, Next(s, FreeEv(i)).free, s.chains[s.completions[s.freed]])
  {
    var xs := DrainTarget(s, i);
    FreedValue(s, i);
    FreeMoves(s, i);
    hide Inv, Bounds, Enabled, FreeChain, Threaded, Linked, Distinct, Next, Drained, Owned, Moved, Reversed, Freed;
    FreedBy(s.v, Next(s, FreeEv(i)).v, s.free, xs);
  }

  lemma SameThread(v: Vq, w: Vq, free: seq<nat>)
    requires Threaded(v, free) && w.desc == v.desc && w.freeHead == v.freeHead && w.freeCount == v.freeCount
    ensures Threaded(w, free)
  {
  }

  /** One more freed: that submission alone leaves flight. */
  lemma LeavesFlight(s: Sys, t: Sys, k: nat)
    requires Bounds(s) && OrderOk(s) && s.freed < |s.completions| && t.freed == s.freed + 1
    requires t.chains == s.chains && t.completions == s.completions
    ensures InFlight(t, k) <==> InFlight(s, k) && k != s.completions[s.freed]
  {
    assert t.completions[..t.freed] == s.completions[..s.freed] + [s.completions[s.freed]];
  }

  lemma FreeFlights(s: Sys, i: nat)
    requires Inv(s) && Enabled(s, FreeEv(i))
    ensures FlightsOk(Next(s, FreeEv(i))) && FreeOk(Next(s, FreeEv(i)))
  {
    FreeStep(s, i);
    var t, k := Next(s, FreeEv(i)), s.completions[s.freed];
    var xs := s.chains[k];
    hide RingsOk, FreeChain, Threaded, Next, Enabled;
    assert t.free == Reversed(xs) + s.free && t.place == Moved(s.place, xs, Free) by { FreeMoves(s, i); }
    FreeMoves(s, i);
    forall j: nat | InFlight(t, j) ensures Owned(t, j) {
      LeavesFlight(s, t, j);
      assert Owned(s, j);
      ChainKept(s, t, j, k);
    }
    forall d | 0 <= d < VQ_NUM && t.place[d].InChain? ensures InFlight(t, t.place[d].k) {
      assert InFlight(s, s.place[d].k);
      LeavesFlight(s, t, s.place[d].k);
    }
    ReversedSame(xs);
  }

  lemma FreeMoves(s: Sys, i: nat)
    requires Bounds(s) && Enabled(s, FreeEv(i)) && s.freed < |s.completions|
    ensures var t, xs := Next(s, FreeEv(i)), s.chains[s.completions[s.freed]];
      && t.free == Reversed(xs) + s.free && t.place == Moved(s.place, xs, Free) && t.chains == s.chains
      && t.completions == s.completions && t.freed == s.freed + 1 && t.called == s.called && t.fetched == s.fetched
      && t.owners == s.owners && t.served == s.served
      && t.drains == s.drains[i := None] && t.serial == s.serial
  {
  }

  lemma ReversedSame(xs: seq<nat>)
    ensures forall d :: d in Reversed(xs) <==> d in xs
  {
    forall d | d in xs ensures d in Reversed(xs) {
      var i :| 0 <= i < |xs| && xs[i] == d;
      assert Reversed(xs)[|xs| - 1 - i] == d;
    }
  }

  lemma ChainKept(s: Sys, t: Sys, j: nat, k: nat)
    requires j < |s.chains| && k < |s.chains| && j != k && |s.place| == VQ_NUM && |t.place| == VQ_NUM && t.chains == s.chains
    requires Owned(s, j) && Owned(s, k) && |t.v.desc| == VQ_NUM && t.place == Moved(s.place, s.chains[k], Free)
    requires forall d :: 0 <= d < VQ_NUM && d !in s.chains[k] ==> t.v.desc[d] == s.v.desc[d]
    ensures Owned(t, j)
  {
    var xs := s.chains[j];
    forall i | 0 <= i < |xs| ensures t.v.desc[xs[i]] == s.v.desc[xs[i]] && xs[i] !in s.chains[k] {
      assert xs[i] in xs && s.place[xs[i]] == InChain(j);
    }
  }

  /** The bookkeeping of a free step. */
  ghost predicate OneFreed(s: Sys, t: Sys, xs: seq<nat>) {
    && t.chains == s.chains && t.owners == s.owners && t.completions == s.completions && t.called == s.called && t.fetched == s.fetched
    && t.freed == s.freed + 1 <= |s.called| && Freed(s.v, t.v, t.free, xs)
  }

  lemma FreeBounds(s: Sys, t: Sys, xs: seq<nat>)
    requires Bounds(s) && OneFreed(s, t, xs) && FreeOk(t)
    ensures Bounds(t) && forall k :: 0 <= k < |s.chains| ==> HeadOf(t, k) == HeadOf(s, k)
  {
    ThreadHead(t);
    hide FreeOk, Threaded, Drained;
  }

  lemma FreeRings(s: Sys, t: Sys, xs: seq<nat>)
    requires Bounds(s) && Bounds(t) && RingsOk(s) && OrderOk(s) && OneFreed(s, t, xs)
    requires forall k :: 0 <= k < |s.chains| ==> HeadOf(t, k) == HeadOf(s, k)
    ensures RingsOk(t) && OrderOk(t)
  {
    hide HeadOf, Distinct, Threaded, Drained;
    WrapSlots(s.freed);
  }

  lemma KeepsFree(s: Sys, i: nat)
    requires Inv(s) && Enabled(s, FreeEv(i))
    ensures Inv(Next(s, FreeEv(i)))
  {
    FreeStep(s, i);
    var t, xs := Next(s, FreeEv(i)), s.chains[s.completions[s.freed]];
    FreeFlights(s, i);
    FreeMoves(s, i);
    assert t.freed <= |s.called| && t.drains == s.drains[i := None] && Quiet(t);
    hide FlightsOk, FreeOk, Next, Bounds, HeadOf, RingsOk, OrderOk, Enabled, InFlight, Owned, Moved, Reversed, Freed;
    assert OneFreed(s, t, xs);
    FreeBounds(s, t, xs);
    FreeRings(s, t, xs);
  }

  lemma ThreadHead(t: Sys)
    requires FreeOk(t)
    ensures t.v.freeCount > 0 ==> t.free != [] && t.v.freeHead < VQ_NUM
  {
  }

  /** Every step of the system keeps the invariant. */
  lemma StepKeeps(s: Sys, e: Event)
    requires Inv(s) && Enabled(s, e)
    ensures Inv(Next(s, e))
  {
    hide FlightsOk, FreeOk, RingsOk, OrderOk, Next;
    match e
    case PopEv => KeepsPop(s);
    case Build(d, flags, next) => KeepsBuild(s, d, flags, next);
    case SubmitEv(chain, owner) => KeepsSubmit(s, chain, owner);
    case Fetch => KeepsFetch(s);
    case Complete(k, head) => KeepsComplete(s, k, head);
    case Call(i) => KeepsCall(s, i);
    case FreeEv(i) => KeepsFree(s, i);
  }

  // ---- runs -------------------------------------------------------------------------------------------

  /** trace[i + 1] follows from trace[i] by events[i], from a queue just set up for n drainers. */
  ghost predicate Run(serial: bool, n: nat, trace: seq<Sys>, events: seq<Event>) {
    && |trace| == |events| + 1 && trace[0] == Setup(serial, n)
    && forall i :: 0 <= i < |events| ==> Known(trace[i]) && Enabled(trace[i], events[i]) && trace[i + 1] == Next(trace[i], events[i])
  }

  lemma {:induction false} RunKeeps(serial: bool, n: nat, trace: seq<Sys>, events: seq<Event>, i: nat)
    requires Run(serial, n, trace, events) && i < |trace| && (serial || n <= 1)
    ensures Inv(trace[i])
    decreases i
  {
    hide Inv, Next;
    if i == 0 {
      SetupInv(serial, n);
    } else {
      RunKeeps(serial, n, trace, events, i - 1);
      StepKeeps(trace[i - 1], events[i - 1]);
    }
  }

  predicate Ends(trace: seq<Sys>, s: Sys) { trace != [] && trace[|trace| - 1] == s }

  /** Some run ends in s. */
  ghost predicate Reachable(serial: bool, n: nat, s: Sys) {
    exists trace, events :: Run(serial, n, trace, events) && Ends(trace, s)
  }

  lemma ReachInv(serial: bool, n: nat, s: Sys)
    requires Reachable(serial, n, s) && (serial || n <= 1)
    ensures Inv(s)
  {
    hide Inv, Run;
    var trace, events :| Run(serial, n, trace, events) && Ends(trace, s);
    RunKeeps(serial, n, trace, events, |trace| - 1);
  }

  /** d is in no chain in flight but, possibly, that of submission `except`. */
  ghost predicate OnlyIn(s: Sys, d: nat, except: Option<nat>) {
    forall k: nat :: InFlight(s, k) ==> (d in s.chains[k] <==> except == Some(k))
  }

  /** The 128 descriptors are partitioned among the free list, the popped ones and the chains in
      flight, the free list being exactly freeCount distinct nodes from freeHead. */
  ghost predicate Partition(s: Sys) {
    && Shape(s.v) && |s.place| == VQ_NUM && Threaded(s.v, s.free)
    && forall d: nat :: d < VQ_NUM ==>
         match s.place[d]
         case Free => d in s.free && OnlyIn(s, d, None)
         case Popped => d !in s.free && OnlyIn(s, d, None)
         case InChain(k) => d !in s.free && InFlight(s, k) && OnlyIn(s, d, Some(k))
  }

  lemma Partitioned(serial: bool, n: nat, s: Sys)
    requires Reachable(serial, n, s) && (serial || n <= 1)
    ensures Partition(s)
  {
    ReachInv(serial, n, s);
    hide RingsOk, OrderOk, Reachable;
    forall d: nat, k: nat | d < VQ_NUM && InFlight(s, k) ensures d in s.chains[k] <==> s.place[d] == InChain(k) {
      assert Owned(s, k);
    }
  }

  /** A pop would hand out a descriptor nobody uses, or none exactly when every one is in use. */
  ghost predicate PopsUnused(s: Sys) {
    && Known(s) && (s.v.freeCount > 0 ==> s.v.freeHead < VQ_NUM)
    && var d := Pop(s.v).1;
       if d == VQ_NONE then forall e :: 0 <= e < VQ_NUM ==> s.place[e] != Free
       else d < VQ_NUM && s.place[d] == Free && OnlyIn(s, d, None)
  }

  lemma PopUnused(serial: bool, n: nat, s: Sys)
    requires Reachable(serial, n, s) && (serial || n <= 1)
    ensures PopsUnused(s)
  {
    ReachInv(serial, n, s);
    Partitioned(serial, n, s);
    KeepsPop(s);
  }

  /** The slot a submission or a completion writes holds no entry still to be fetched or drained,
      however often the indices wrapped, and such entries are intact. */
  ghost predicate SlotSafe(s: Sys, e: Event) {
    Known(s) &&
    forall j: nat ::
      && (e.SubmitEv? && s.fetched <= j < |s.chains| ==> s.v.availIdx % VQ_NUM != j % VQ_NUM)
      && (e.Complete? && s.freed <= j < |s.completions| ==> s.v.usedIdx % VQ_NUM != j % VQ_NUM)
      && (s.fetched <= j < |s.chains| ==> s.v.avail[j % VQ_NUM] == HeadOf(s, j))
      && (s.freed <= j < |s.completions| ==> s.v.used[j % VQ_NUM] == HeadOf(s, s.completions[j]))
  }

  lemma NoOverrun(serial: bool, n: nat, s: Sys, e: Event)
    requires Reachable(serial, n, s) && Known(s) && Enabled(s, e) && (serial || n <= 1)
    ensures SlotSafe(s, e)
  {
    ReachInv(serial, n, s);
    WrapSlots(|s.chains|);
    WrapSlots(|s.completions|);
    if e.SubmitEv? {
      assert s.place[e.chain[0]] == Popped;
      AvailHasRoom(s, e.chain[0]);
      SlotsApart(s.fetched, |s.chains|);
    }
    if e.Complete? {
      UsedHasRoom(s, e.k);
      SlotsApart(s.freed, |s.completions|);
    }
    hide FlightsOk, FreeOk;
  }

  /** Callbacks come in used-ring order, each with the head of a different completed submission, and
      the drain guard is true exactly while some completion has not been drained. */
  ghost predicate CalledOnce(s: Sys) {
    && Known(s) && Distinct(s.completions) && |s.called| <= |s.completions|
    && (forall j :: 0 <= j < |s.called| ==> s.called[j] == HeadOf(s, s.completions[j]))
    && (s.v.lastUsed != s.v.usedIdx <==> s.freed < |s.completions|)
    && (|s.called| == |s.chains| ==> forall k :: 0 <= k < |s.chains| ==> k in s.completions)
  }

  lemma ExactlyOnce(serial: bool, n: nat, s: Sys)
    requires Reachable(serial, n, s) && (serial || n <= 1)
    ensures CalledOnce(s)
  {
    ReachInv(serial, n, s);
    DrainGuard(s);
    if |s.called| == |s.chains| {
      DistinctFits(s.completions, |s.chains|);
      forall k: nat | k < |s.chains| ensures k in s.completions { DistinctCovers(s.completions, |s.chains|, k); }
    }
  }

  // ---- a client that loses descriptors -------------------------------------------------------------

  const NEXT: nat := 1
  const WRITE: nat := 2

  /** Popping yields a descriptor. */
  predicate CanPop(v: Vq) { v.freeCount > 0 && v.freeHead < VQ_NUM }

  /** One request of vblk_rw from the three pops to the drain: the header links to the data
      descriptor, which carries no NEXT flag, so the status descriptor is in no chain.  With
      fewer than three descriptors left the request fails and keeps the ones it popped. */
  function BlockRequest(v: Vq, write: bool): (r: Vq)
    requires Shape(v)
    ensures Shape(r)
  {
    if !CanPop(v) then v
    else
      var (v1, h) := Pop(v);
      if !CanPop(v1) then v1
      else
        var (v2, d1) := Pop(v1);
        if !CanPop(v2) then v2
        else
          var (v3, d2) := Pop(v2);
          var built := v3.(desc := v3.desc[h := Desc(NEXT, d1)][d1 := Desc(if write then 0 else WRITE, d2)][d2 := Desc(WRITE, 0)]);
          FreeChain(built, h, VQ_NUM)
  }

  lemma PopThreads(v: Vq, free: seq<nat>)
    requires Shape(v) && Threaded(v, free) && free != []
    ensures v.freeCount > 0 && v.freeHead == free[0] < VQ_NUM
    ensures Pop(v).1 == free[0] && Threaded(Pop(v).0, free[1..]) && Pop(v).0.desc == v.desc && Shape(Pop(v).0)
  {
    forall i | 0 <= i < |free[1..]| ensures free[1..][i] == free[i + 1] {}
  }

  /** The queue after three pops. */
  function ThreePops(v: Vq): (r: Vq)
    requires Shape(v) && v.freeCount >= 3 && v.freeHead < VQ_NUM
    ensures Shape(r)
  {
    var v1 := Pop(v).0;
    if v1.freeHead >= VQ_NUM then v1
    else
      var v2 := Pop(v1).0;
      if v2.freeHead >= VQ_NUM then v2 else Pop(v2).0
  }

  lemma ThreePopsThread(v: Vq, a: nat, b: nat, c: nat, rest: seq<nat>)
    requires Shape(v) && Threaded(v, [a, b, c] + rest)
    ensures v.freeCount >= 3 && v.freeHead == a < VQ_NUM && b < VQ_NUM && c < VQ_NUM
    ensures Pop(v).0.freeHead == b && Pop(Pop(v).0).0.freeHead == c
    ensures Threaded(ThreePops(v), rest) && ThreePops(v).desc == v.desc
  {
    var f3, f2, f1 := [a, b, c] + rest, [b, c] + rest, [c] + rest;
    assert f3[1..] == f2 && f2[1..] == f1 && f1[1..] == rest;
    assert v.freeCount >= 3;
    hide Threaded;
    PopThreads(v, f3);
    PopThreads(Pop(v).0, f2);
    PopThreads(Pop(Pop(v).0).0, f1);
  }

  function Chained(desc: seq<Desc>, a: nat, b: nat, c: nat, write: bool): (r: seq<Desc>)
    requires a < |desc| && b < |desc| && c < |desc|
    ensures |r| == |desc|
  {
    desc[a := Desc(NEXT, b)][b := Desc(if write then 0 else WRITE, c)][c := Desc(WRITE, 0)]
  }

  lemma ChainedTwo(desc: seq<Desc>, a: nat, b: nat, c: nat, write: bool)
    requires a < |desc| && b < |desc| && c < |desc| && a != b && b != c && a != c
    ensures Linked(Chained(desc, a, b, c, write), [a, b]) && Distinct([a, b]) && Reversed([a, b]) == [b, a]
  {
  }

  /** Descriptors off the free list may be rewritten. */
  lemma ChainedOff(v: Vq, free: seq<nat>, a: nat, b: nat, c: nat, write: bool)
    requires Shape(v) && Threaded(v, free) && a < VQ_NUM && b < VQ_NUM && c < VQ_NUM && a !in free && b !in free && c !in free
    ensures Threaded(v.(desc := Chained(v.desc, a, b, c, write)), free)
  {
    forall i | 0 <= i < |free| ensures free[i] in free {}
  }

  lemma ThreeApart(v: Vq, a: nat, b: nat, c: nat, rest: seq<nat>)
    requires Threaded(v, [a, b, c] + rest)
    ensures a != b && b != c && a != c && a !in rest && b !in rest && c !in rest
  {
    var f := [a, b, c] + rest;
    assert f[0] == a && f[1] == b && f[2] == c;
    forall i | 0 <= i < |rest| ensures rest[i] == f[i + 3] {}
  }

  /** Three popped, two returned. */
  lemma RequestLoses(v: Vq, a: nat, b: nat, c: nat, rest: seq<nat>, write: bool)
    requires Shape(v) && Threaded(v, [a, b, c] + rest)
    ensures Threaded(BlockRequest(v, write), [b, a] + rest)
  {
    ThreePopsThread(v, a, b, c, rest);
    ThreeApart(v, a, b, c, rest);
    hide Threaded, FreeChain, Linked, Distinct, Reversed, Chained;
    var v3 := ThreePops(v);
    var built := v3.(desc := Chained(v.desc, a, b, c, write));
    ChainedOff(v3, rest, a, b, c, write);
    ChainedTwo(v.desc, a, b, c, write);
    FreesChain(built, rest, [a, b], VQ_NUM);
    RequestIs(v, a, b, c, write);
  }

  lemma RequestIs(v: Vq, a: nat, b: nat, c: nat, write: bool)
    requires Shape(v) && v.freeCount >= 3 && v.freeHead == a < VQ_NUM && b < VQ_NUM && c < VQ_NUM
    requires Pop(v).0.freeHead == b && Pop(Pop(v).0).0.freeHead == c
    ensures ThreePops(v).desc == v.desc
    ensures BlockRequest(v, write) == FreeChain(ThreePops(v).(desc := Chained(v.desc, a, b, c, write)), a, VQ_NUM)
  {
    hide FreeChain;
  }

  /** With one or two descriptors left a request fails and they are gone too. */
  lemma FailedRequestKeeps(v: Vq, free: seq<nat>, write: bool)
    requires Shape(v) && Threaded(v, free) && |free| < 3
    ensures Threaded(BlockRequest(v, write), [])
  {
    hide FreeChain;
    if free != [] {
      PopThreads(v, free);
      if |free| == 2 { PopThreads(Pop(v).0, free[1..]); }
    }
  }

  function Requests(v: Vq, n: nat, write: bool): (r: Vq)
    requires Shape(v)
    ensures Shape(r)
    decreases n
  {
    if n == 0 then v else BlockRequest(Requests(v, n - 1, write), write)
  }

  /** Every block request costs a descriptor: after n of them 128 - n are free, up to 126. */
  lemma {:induction false} RequestsRunDry(n: nat, write: bool) returns (free: seq<nat>)
    requires n <= 126
    ensures Threaded(Requests(Setup(false, 1).v, n, write), free) && |free| == VQ_NUM - n == Requests(Setup(false, 1).v, n, write).freeCount
    decreases n
  {
    hide Threaded, BlockRequest, Setup;
    if n == 0 {
      free := Setup(false, 1).free;
      FreshList();
    } else {
      var f := RequestsRunDry(n - 1, write);
      assert f == [f[0], f[1], f[2]] + f[3..];
      RequestLoses(Requests(Setup(false, 1).v, n - 1, write), f[0], f[1], f[2], f[3..], write);
      free := [f[1], f[0]] + f[3..];
    }
    CountIs(Requests(Setup(false, 1).v, n, write), free);
  }

  /** The 127th request finds two, too few, and keeps them: then none is left. */
  lemma NoneLeft(write: bool)
    ensures Threaded(Requests(Setup(false, 1).v, 127, write), []) && Requests(Setup(false, 1).v, 127, write).freeCount == 0
  {
    hide Threaded, BlockRequest, Setup;
    var free := RequestsRunDry(126, write);
    FailedRequestKeeps(Requests(Setup(false, 1).v, 126, write), free, write);
    CountIs(Requests(Setup(false, 1).v, 127, write), []);
  }

  lemma FreshList()
    ensures Threaded(Setup(false, 1).v, Setup(false, 1).free) && |Setup(false, 1).free| == VQ_NUM
  {
    SetupInv(false, 1);
  }

  lemma CountIs(v: Vq, free: seq<nat>)
    requires Threaded(v, free)
    ensures v.freeCount == |free|
  {
  }

  // ---- the driver's code -----------------------------------------------------------------------

  /** struct virtq: the table and rings are arrays shared with the device. */
  class Virtq {
    const desc: array<Desc>
    const owner: array<nat>
    const avail: array<nat>
    const used: array<nat>
    var availIdx: nat
    var usedIdx: nat
    var lastUsed: nat
    var freeHead: nat
    var freeCount: nat

    ghost predicate Apart() {
      && desc.Length == VQ_NUM && owner.Length == VQ_NUM && avail.Length == VQ_NUM && used.Length == VQ_NUM
      && owner != avail && owner != used && avail != used
    }

    ghost function Now(): Vq
      reads this, desc, owner, avail, used
    {
      Vq(desc[..], owner[..], avail[..], availIdx, used[..], usedIdx, lastUsed, freeHead, freeCount)
    }

    /** virtq_setup: thread the free list. */
    constructor ()
      ensures Apart() && fresh(desc) && fresh(owner) && fresh(avail) && fresh(used)
      ensures Now() == Setup(false, 1).v
    {
      desc := new Desc[VQ_NUM](_ => Desc(0, 0));
      owner, avail, used := new nat[VQ_NUM](_ => 0), new nat[VQ_NUM](_ => 0), new nat[VQ_NUM](_ => 0);
      availIdx, usedIdx, lastUsed, freeHead, freeCount := 0, 0, 0, 0, VQ_NUM;
      new;
      for i := 0 to VQ_NUM
        invariant forall k :: 0 <= k < i ==> desc[k] == Desc(1, k + 1)
        invariant forall k :: 0 <= k < VQ_NUM ==> owner[k] == 0
        modifies desc, owner
      {
        desc[i] := Desc(1, i + 1);
        owner[i] := 0;
      }
      desc[VQ_NUM - 1] := Desc(0, VQ_NUM);
      assert desc[..] == Setup(false, 1).v.desc;
    }

    /** virtq_pop_desc */
    method PopDesc() returns (d: nat)
      requires Apart() && Shape(Now()) && (freeCount > 0 ==> freeHead < VQ_NUM)
      modifies this`freeHead, this`freeCount
      ensures (Now(), d) == Pop(old(Now()))
    {
      if freeCount == 0 { return VQ_NONE; }
      d := freeHead;
      freeHead := desc[d].next;
      freeCount := freeCount - 1;
    }

    /** virtq_submit */
    method SubmitHead(head: nat, o: nat)
      requires Apart() && Shape(Now()) && head < VQ_NUM
      modifies this`availIdx, owner, avail
      ensures Now() == Submit(old(Now()), head, o)
    {
      var slot := availIdx % VQ_NUM;
      owner[head] := o;
      avail[slot] := head;
      availIdx := (availIdx + 1) % WRAP;
    }

    /** virtq_free_chain: the walk ends, having done what FreeChain says. */
    method FreeChainFrom(head: nat, ghost xs: seq<nat>)
      requires Apart() && Shape(Now()) && xs != [] && Linked(desc[..], xs) && Distinct(xs) && |xs| <= VQ_NUM && head == xs[0]
      modifies this`freeHead, this`freeCount, desc, owner
      ensures head < VQ_NUM
      ensures var u := FreeChain(old(Now()), head, VQ_NUM); Now() == u.(owner := u.owner[head := 0])
    {
      hide Linked, Distinct, FreeChain;
      ghost var v0 := Now();
      ghost var rest, fuel := xs, VQ_NUM;
      var i := head;
      ChainStarts(Now(), xs);
      while true
        invariant Shape(Now()) && rest != [] && Linked(desc[..], rest) && Distinct(rest) && |rest| <= fuel && i == rest[0]
        invariant FreeChain(Now(), i, fuel) == FreeChain(v0, head, VQ_NUM) && owner[..] == v0.owner
        decreases |rest|
      {
        ChainStarts(Now(), rest);
        FreeChainStep(Now(), i, fuel);
        RestLinked(Now(), rest);
        ghost var v := Now();
        var nextFlag, next := HasNext(desc[i]), desc[i].next;
        desc[i] := Desc(if nextFlag then 1 else 0, freeHead);
        freeHead := i;
        freeCount := freeCount + 1;
        assert Now() == Push(v, i);
        if !nextFlag { break; }
        i := next;
        rest, fuel := rest[1..], fuel - 1;
      }
      owner[head] := 0;
    }

    /** One step of the device or a client. */
    method Perform(e: Event, ghost s: Sys)
      requires Apart() && Known(s) && Now() == s.v && Enabled(s, e) && !e.Call? && !e.FreeEv?
      modifies this, desc, owner, avail, used
      ensures Now() == Next(s, e).v
    {
      hide Distinct;
      match e
      case PopEv => var _ := PopDesc();
      case Build(d, flags, next) => desc[d] := Desc(flags, next);
      case SubmitEv(chain, o) => SubmitHead(chain[0], o);
      case Fetch =>
      case Complete(k, head) =>
        used[usedIdx % VQ_NUM] := head;
        usedIdx := (usedIdx + 1) % WRAP;
    }

    method PerformAll(es: seq<Event>, ghost s: Sys)
      requires Apart() && Inv(s) && Now() == s.v && Possible(s, es) && NoDrain(es)
      modifies this, desc, owner, avail, used
      ensures Now() == After(s, es).v
    {
      hide Inv, Possible, After, Next, NoDrain;
      ghost var t := s;
      var i := 0;
      assert es[i..] == es;
      while i < |es|
        invariant i <= |es| && Apart() && Inv(t) && Now() == t.v && Possible(t, es[i..]) && After(t, es[i..]) == After(s, es)
      {
        OneMore(t, es, i);
        Perform(es[i], t);
        t := Next(t, es[i]);
        i := i + 1;
      }
      NoMore(t, es[i..]);
    }

    /** virtq_drain_used, the one drainer: one callback per completion, in used-ring order, and
        then that chain returns to the free list.  turns[i] is what clients and device do during
        and after callback i; after those they are quiet.  `requests` are the owners the callbacks
        find at their heads. */
    method DrainUsed(turns: seq<Meanwhile>, ghost s: Sys)
        returns (calls: seq<nat>, requests: seq<nat>, ghost t: Sys, ghost events: seq<Event>)
      requires Apart() && Inv(s) && Now() == s.v && s.drains == [None] && Goes(s, turns)
      modifies this, desc, owner, avail, used
      ensures Possible(s, events) && t == After(s, events) && Inv(t) && Now() == t.v && t.drains == [None]
      ensures t.freed == |t.completions| && t.called == s.called + calls && calls == Heads(t, t.completions[s.freed..])
      ensures t.served == s.served + requests
      ensures turns == [] ==> t.chains == s.chains && t.completions == s.completions
      ensures turns == [] ==>
        forall d :: d in t.free <==> d in s.free || exists j :: s.freed <= j < |s.completions| && d in s.chains[s.completions[j]]
    {
      hide Inv, Possible, After, Next, Goes, Pooled, NoDrain, FreeChain, Linked, Distinct, Enabled, Turn, Threaded, Owned;
      calls, requests, t, events := [], [], s, [];
      var left := turns;
      NoMore(s, []);
      DrainStarts(s);
      while lastUsed != usedIdx
        invariant Apart() && Inv(t) && Now() == t.v && t.drains == [None] && Goes(t, left) && t.called == s.called + calls
        invariant Possible(s, events) && t == After(s, events) && t.served == s.served + requests
        invariant turns == [] ==> left == [] && t.chains == s.chains && t.completions == s.completions && Pooled(s, t)
        decreases |left|, |t.completions| - t.freed
      {
        var w := if left == [] then Meanwhile([], []) else left[0];
        TurnGoes(t, left, w);
        ghost var c := Next(t, Call(0));
        ghost var f := After(c, w.during);
        ghost var u := Next(f, FreeEv(0));
        ghost var t' := After(u, w.after);
        ghost var xs := Releases(f, u);
        var head := used[lastUsed % VQ_NUM];
        calls, requests := calls + [head], requests + [owner[head]];
        PerformAll(w.during, c);
        FreeChainFrom(head, xs);
        lastUsed := (lastUsed + 1) % WRAP;
        PerformAll(w.after, u);
        if left == [] { QuietTurn(t, t'); }
        if turns == [] { PooledMore(s, t, t'); }
        AfterBoth(s, events, Turn(w));
        events, t := events + Turn(w), t';
        left := Rest(left);
      }
      DrainDone(s, t, calls);
      if turns == [] { AllPooled(s, t); }
    }
  }

  // ---- what goes on while the queue is drained ---------------------------------------------------

  datatype Meanwhile = Meanwhile(during: seq<Event>, after: seq<Event>)

  ghost predicate NoDrain(es: seq<Event>) { forall i :: 0 <= i < |es| ==> !es[i].Call? && !es[i].FreeEv? }

  ghost predicate Possible(s: Sys, es: seq<Event>)
    decreases |es|
  {
    es == [] || (Known(s) && Enabled(s, es[0]) && Possible(Next(s, es[0]), es[1..]))
  }

  ghost function After(s: Sys, es: seq<Event>): Sys
    requires Possible(s, es)
    decreases |es|
  {
    if es == [] then s else After(Next(s, es[0]), es[1..])
  }

  /** One turn of the drain loop. */
  function Turn(w: Meanwhile): seq<Event> { [Call(0)] + w.during + [FreeEv(0)] + w.after }

  function Rest(turns: seq<Meanwhile>): seq<Meanwhile> { if turns == [] then [] else turns[1..] }

  /** With the loop at its guard in s, clients and device can do what `turns` says, turn by turn. */
  ghost predicate Goes(s: Sys, turns: seq<Meanwhile>)
    decreases |turns|
  {
    turns == [] || s.v.lastUsed == s.v.usedIdx ||
    (NoDrain(turns[0].during) && NoDrain(turns[0].after) && Possible(s, Turn(turns[0])) && Goes(After(s, Turn(turns[0])), turns[1..]))
  }

  lemma NoMore(s: Sys, es: seq<Event>)
    requires es == []
    ensures Possible(s, es) && After(s, es) == s
  {
  }

  lemma OneMore(s: Sys, es: seq<Event>, i: nat)
    requires i < |es| && Inv(s) && Possible(s, es[i..]) && NoDrain(es)
    ensures Known(s) && Enabled(s, es[i]) && !es[i].Call? && !es[i].FreeEv? && Inv(Next(s, es[i]))
    ensures Possible(Next(s, es[i]), es[i + 1..]) && After(Next(s, es[i]), es[i + 1..]) == After(s, es[i..])
  {
    assert es[i..][1..] == es[i + 1..];
    InvBounds(s);
    hide Inv, Enabled, Next, Known;
    StepKeeps(s, es[i]);
  }

  lemma {:induction false} AfterBoth(s: Sys, es: seq<Event>, fs: seq<Event>)
    ensures Possible(s, es + fs) <==> Possible(s, es) && Possible(After(s, es), fs)
    ensures Possible(s, es + fs) ==> After(s, es + fs) == After(After(s, es), fs)
    decreases |es|
  {
    hide Enabled, Next, Known;
    if es == [] {
      assert es + fs == fs;
    } else {
      assert (es + fs)[0] == es[0] && (es + fs)[1..] == es[1..] + fs;
      if Known(s) && Enabled(s, es[0]) { AfterBoth(Next(s, es[0]), es[1..], fs); }
    }
  }

  lemma OneStep(s: Sys, e: Event)
    ensures Possible(s, [e]) <==> Known(s) && Enabled(s, e)
    ensures Possible(s, [e]) ==> After(s, [e]) == Next(s, e)
  {
    hide Enabled, Next, Known;
    assert [e][1..] == [];
  }

  /** Clients and device leave the drainer where it is. */
  lemma {:induction false} AfterKeeps(s: Sys, es: seq<Event>)
    requires Inv(s) && Possible(s, es) && NoDrain(es)
    ensures Inv(After(s, es))
    ensures var t := After(s, es); t.drains == s.drains && t.called == s.called && t.served == s.served && t.freed == s.freed
    decreases |es|
  {
    hide Enabled, Next, Known, Inv;
    if es != [] {
      assert es[0..] == es;
      OneMore(s, es, 0);
      StaysPut(s, es[0]);
      AfterKeeps(Next(s, es[0]), es[1..]);
    }
  }

  lemma StaysPut(s: Sys, e: Event)
    requires Known(s) && Enabled(s, e) && !e.Call? && !e.FreeEv?
    ensures var t := Next(s, e); t.drains == s.drains && t.called == s.called && t.served == s.served && t.freed == s.freed
  {
    hide Enabled, Known;
  }

  /** The states within one turn: called back (c), about to release (f), released (u), and at the
      guard again (t'). */
  lemma TurnGoes(t: Sys, left: seq<Meanwhile>, w: Meanwhile)
    requires Inv(t) && t.drains == [None] && t.v.lastUsed != t.v.usedIdx && Goes(t, left)
    requires w == if left == [] then Meanwhile([], []) else left[0]
    ensures Shape(t.v) && Known(t) && Enabled(t, Call(0)) && Possible(t, Turn(w)) && NoDrain(w.during) && NoDrain(w.after)
    ensures var c := Next(t, Call(0));
      && Inv(c) && c.v == t.v && Possible(c, w.during) && var f := After(c, w.during);
      && Inv(f) && f.drains == [Some(Drained(t.v))] && Known(f) && Enabled(f, FreeEv(0)) && var u := Next(f, FreeEv(0));
      && Inv(u) && Possible(u, w.after) && var t' := After(u, w.after);
      && Inv(t') && t'.drains == [None] && t'.called == t.called + [Drained(t.v)]
      && t'.served == t.served + [OwnerAt(t.v, Drained(t.v))] && Goes(t', Rest(left))
      && t' == After(t, Turn(w))
  {
    hide Inv, Possible, After, Next, Enabled, Drained, Known;
    InvBounds(t);
    CallMoves(t);
    var c := Next(t, Call(0));
    StepKeeps(t, Call(0));
    if left == [] {
      InvBounds(c);
      NoMore(c, w.during);
      CanFree(c);
      NoMore(Next(c, FreeEv(0)), w.after);
    }
    TurnSplit(t, w);
    var f := After(c, w.during);
    AfterKeeps(c, w.during);
    InvBounds(f);
    CanFree(f);
    var u := Next(f, FreeEv(0));
    StepKeeps(f, FreeEv(0));
    FreeLeaves(f);
    AfterKeeps(u, w.after);
  }

  lemma FreeLeaves(f: Sys)
    requires Inv(f) && Enabled(f, FreeEv(0)) && |f.drains| == 1
    ensures var u := Next(f, FreeEv(0)); u.drains == [None] && u.called == f.called && u.served == f.served
  {
    FreeStep(f, 0);
    hide Inv, Enabled, Next;
    FreeMoves(f, 0);
  }

  lemma TurnSplit(t: Sys, w: Meanwhile)
    ensures Possible(t, Turn(w)) <==>
      && Known(t) && Enabled(t, Call(0)) && var c := Next(t, Call(0));
      && Possible(c, w.during) && var f := After(c, w.during);
      && Known(f) && Enabled(f, FreeEv(0)) && Possible(Next(f, FreeEv(0)), w.after)
    ensures Possible(t, Turn(w)) ==>
      After(t, Turn(w)) == After(Next(After(Next(t, Call(0)), w.during), FreeEv(0)), w.after)
  {
    hide Possible, After, Next, Enabled, Known;
    AfterBoth(t, [Call(0)] + w.during + [FreeEv(0)], w.after);
    AfterBoth(t, [Call(0)] + w.during, [FreeEv(0)]);
    AfterBoth(t, [Call(0)], w.during);
    OneStep(t, Call(0));
    if Possible(t, [Call(0)] + w.during) { OneStep(After(t, [Call(0)] + w.during), FreeEv(0)); }
  }

  /** The chain the drainer is about to release, in the form the code follows. */
  lemma Releases(f: Sys, u: Sys) returns (xs: seq<nat>)
    requires Inv(f) && Enabled(f, FreeEv(0)) && u == Next(f, FreeEv(0))
    ensures Shape(f.v) && xs != [] && Linked(f.v.desc, xs) && Distinct(xs) && |xs| <= VQ_NUM && f.drains[0].value == xs[0] < VQ_NUM
    ensures var w := FreeChain(f.v, xs[0], VQ_NUM);
      u.v == w.(owner := w.owner[xs[0] := 0], lastUsed := (w.lastUsed + 1) % WRAP)
  {
    hide *;
    InvBounds(f);
    xs := DrainTarget(f, 0);
    ChainStarts(f.v, xs);
    FreedValue(f, 0);
  }

  /** With nothing going on meanwhile, a turn releases one chain. */
  lemma QuietTurn(t: Sys, t': Sys)
    requires Inv(t) && t.drains == [None] && t.v.lastUsed != t.v.usedIdx
    requires Possible(t, Turn(Meanwhile([], []))) && t' == After(t, Turn(Meanwhile([], [])))
    ensures t'.chains == t.chains && t'.completions == t.completions && t.freed < |t.completions| && t'.freed == t.freed + 1
    ensures t.completions[t.freed] < |t.chains| && t'.free == Reversed(t.chains[t.completions[t.freed]]) + t.free
  {
    TurnSplit(t, Meanwhile([], []));
    CallMoves(t);
    StepKeeps(t, Call(0));
    var c := Next(t, Call(0));
    hide Possible, Next, Enabled, Inv, Reversed, Drained;
    NoMore(c, []);
    NoMore(Next(c, FreeEv(0)), []);
    InvBounds(c);
    FreeStep(c, 0);
    FreeMoves(c, 0);
  }

  lemma DrainDone(s: Sys, t: Sys, calls: seq<nat>)
    requires Inv(s) && Inv(t) && t.v.lastUsed == t.v.usedIdx && s.drains == t.drains == [None]
    requires t.called == s.called + calls
    ensures Known(t) && t.freed == |t.completions| && s.freed <= |t.completions| && calls == Heads(t, t.completions[s.freed..])
  {
    DrainGuard(t);
    hide FreeOk, FlightsOk, RingsOk;
    forall i | 0 <= i < |calls| ensures calls[i] == HeadOf(t, t.completions[s.freed..][i]) {
      assert t.called[s.freed + i] == calls[i];
    }
  }

  /** The free list of t holds that of s and the chains freed since. */
  ghost predicate Pooled(s: Sys, t: Sys) {
    && s.freed <= t.freed <= |s.completions| && (forall j :: 0 <= j < |s.completions| ==> s.completions[j] < |s.chains|)
    && forall d :: d in t.free <==> d in s.free || exists j :: s.freed <= j < t.freed && d in s.chains[s.completions[j]]
  }

  lemma DrainStarts(s: Sys)
    requires Inv(s)
    ensures Pooled(s, s) && s.freed <= |s.completions|
  {
  }

  lemma AllPooled(s: Sys, t: Sys)
    requires Pooled(s, t) && t.freed == |s.completions|
    ensures forall j :: 0 <= j < |s.completions| ==> s.completions[j] < |s.chains|
    ensures forall d :: d in t.free <==> d in s.free || exists j :: s.freed <= j < |s.completions| && d in s.chains[s.completions[j]]
  {
  }

  lemma PooledMore(s: Sys, t: Sys, u: Sys)
    requires Pooled(s, t) && t.freed < |s.completions| && u.freed == t.freed + 1
    requires u.free == Reversed(s.chains[s.completions[t.freed]]) + t.free
    ensures Pooled(s, u)
  {
    ReversedSame(s.chains[s.completions[t.freed]]);
  }

  lemma CallMoves(t: Sys)
    requires Known(t) && t.drains == [None] && t.v.lastUsed != t.v.usedIdx
    ensures Enabled(t, Call(0)) && Shape(t.v)
    ensures Next(t, Call(0)) == t.(called := t.called + [Drained(t.v)], served := t.served + [OwnerAt(t.v, Drained(t.v))],
                                   drains := t.drains[0 := Some(Drained(t.v))])
  {
  }

  lemma CanFree(c: Sys)
    requires Known(c) && |c.drains| == 1 && c.drains[0].Some?
    ensures Enabled(c, FreeEv(0))
  {
  }

  lemma InvBounds(s: Sys)
    requires Inv(s)
    ensures Bounds(s) && Known(s) && Shape(s.v)
  {
  }

  lemma RestLinked(v: Vq, xs: seq<nat>)
    requires Shape(v) && xs != [] && Linked(v.desc, xs) && Distinct(xs) && xs[0] < VQ_NUM
    ensures HasNext(v.desc[xs[0]]) <==> |xs| > 1
    ensures |xs| > 1 ==> v.desc[xs[0]].next == xs[1] && Linked(Push(v, xs[0]).desc, xs[1..]) && Distinct(xs[1..])
  {
    hide Distinct;
    if |xs| > 1 { PushLinks(v, xs); }
  }
}
