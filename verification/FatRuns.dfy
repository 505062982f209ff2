/** Whole runs of chain_grow and chain_free on a freshly formatted table: what the link
    walks read back after each operation, and the exact table size up to which it is what
    was written. */
module FatRuns {
  import opened Seqs
  import opened Wrappers
  import opened FatTable

  // ---- the walks -------------------------------------------------------------------

  /** The clusters chain_len and chain_free visit from c (the loop guard bounds the walk). */
  function Walk(fat: seq<nat>, c: nat, fuel: nat): seq<nat>
    decreases fuel
  {
    if c < 2 || IsEoc(c) || c >= |fat| || fuel == 0 then [] else [c] + Walk(fat, fat[c], fuel - 1)
  }

  function ChainOf(fat: seq<nat>, first: nat): seq<nat> {
    Walk(fat, first, |fat|)
  }

  /** chain_grow's walk from a used cluster to the end of its chain. */
  function TailFrom(fat: seq<nat>, c: nat, fuel: nat): (r: nat)
    requires c < |fat|
    ensures r < |fat|
    decreases fuel
  {
    if fuel == 0 || fat[c] == 0 || IsEoc(fat[c]) || fat[c] >= |fat| then c else TailFrom(fat, fat[c], fuel - 1)
  }

  function Tail(fat: seq<nat>, first: nat): (r: nat)
    requires first < |fat|
    ensures r < |fat|
  {
    if first < 2 then 0 else TailFrom(fat, first, |fat|)
  }

  ghost function SetOf(xs: seq<nat>): set<nat> {
    set x | x in xs
  }

  lemma {:induction false} DistinctSize(xs: seq<nat>)
    requires Distinct(xs)
    ensures |SetOf(xs)| == |xs|
    decreases |xs|
  {
    if xs != [] {
      DistinctSize(xs[1..]);
      assert xs == [xs[0]] + xs[1..];
      assert SetOf(xs) == {xs[0]} + SetOf(xs[1..]);
    }
  }

  lemma {:induction false} RangeSize(s: set<nat>, lo: nat, hi: nat)
    requires lo <= hi && forall x :: x in s ==> lo <= x < hi
    ensures |s| <= hi - lo
    decreases hi - lo
  {
    if lo < hi {
      var t := s - {hi - 1};
      RangeSize(t, lo, hi - 1);
      assert s <= t + {hi - 1};
      assert |s| <= |t| + 1 by {
        if hi - 1 in s { assert s == t + {hi - 1}; } else { assert s == t; }
      }
    } else {
      assert s == {};
    }
  }

  /** A chain has no more clusters than the table, so chain_len's loop guard never trips. */
  lemma ChainFits(fat: seq<nat>, xs: seq<nat>)
    requires |fat| >= 2 && Distinct(xs) && forall i :: 0 <= i < |xs| ==> 2 <= xs[i] < |fat|
    ensures |xs| <= |fat| - 2
  {
    DistinctSize(xs);
    RangeSize(SetOf(xs), 2, |fat|);
  }

  /** Walking from the head of a chain whose clusters are below the end marks reads the chain. */
  lemma {:induction false} WalkReads(fat: seq<nat>, xs: seq<nat>, fuel: nat)
    requires IsChain(fat, xs) && xs != [] && |xs| <= fuel
    requires forall i :: 0 <= i < |xs| ==> xs[i] < FAT_EOC
    ensures Walk(fat, xs[0], fuel) == xs
    decreases |xs|
  {
    if |xs| == 1 {
      assert Walk(fat, fat[xs[0]], fuel - 1) == [];
    } else {
      assert fat[xs[0]] == xs[1];
      WalkReads(fat, xs[1..], fuel - 1);
    }
  }

  lemma {:induction false} TailReads(fat: seq<nat>, xs: seq<nat>, fuel: nat)
    requires IsChain(fat, xs) && xs != [] && |xs| <= fuel
    requires forall i :: 0 <= i < |xs| ==> xs[i] < FAT_EOC
    ensures TailFrom(fat, xs[0], fuel) == Last(xs)
    decreases |xs|
  {
    if |xs| > 1 {
      assert fat[xs[0]] == xs[1];
      TailReads(fat, xs[1..], fuel - 1);
    }
  }

  lemma WalksRead(fat: seq<nat>, xs: seq<nat>)
    requires |fat| >= 2 && IsChain(fat, xs) && Distinct(xs)
    requires forall i :: 0 <= i < |xs| ==> xs[i] < FAT_EOC
    ensures xs != [] ==> ChainOf(fat, xs[0]) == xs && Tail(fat, xs[0]) == Last(xs)
  {
    if xs != [] {
      ChainFits(fat, xs);
      WalkReads(fat, xs, |fat|);
      TailReads(fat, xs, |fat|);
    }
  }

  // ---- runs --------------------------------------------------------------------------

  /** The table and the first cluster of every file; 0 is an empty file. */
  datatype Volume = Volume(fat: seq<nat>, firsts: map<nat, nat>)

  datatype Op = GrowOp(id: nat, count: nat) | FreeOp(id: nat)

  function First(v: Volume, id: nat): nat {
    if id in v.firsts then v.firsts[id] else 0
  }

  ghost predicate InRange(v: Volume) {
    |v.fat| >= 3 && forall id :: First(v, id) < |v.fat|
  }

  ghost function Added(v: Volume, op: Op): (seq<nat>, seq<nat>)
    requires InRange(v) && op.GrowOp?
  {
    Grow(v.fat, Tail(v.fat, First(v, op.id)), op.count)
  }

  ghost function Apply(v: Volume, op: Op): (r: Volume)
    requires InRange(v)
    ensures InRange(r)
  {
    match op
    case GrowOp(id, count) =>
      var (fat', added) := Added(v, op);
      var first := if First(v, id) >= 2 then First(v, id) else if added == [] then First(v, id) else added[0];
      var w := Volume(fat', v.firsts[id := first]);
      assert forall k :: First(w, k) == if k == id then first else First(v, k);
      w
    case FreeOp(id) =>
      WalkInRange(v.fat, First(v, id), |v.fat|);
      var w := Volume(Release(v.fat, ChainOf(v.fat, First(v, id)), |ChainOf(v.fat, First(v, id))|), v.firsts[id := 0]);
      assert forall k :: First(w, k) == if k == id then 0 else First(v, k);
      w
  }

  lemma {:induction false} WalkInRange(fat: seq<nat>, c: nat, fuel: nat)
    ensures forall i :: 0 <= i < |Walk(fat, c, fuel)| ==> 2 <= Walk(fat, c, fuel)[i] < |fat|
    decreases fuel
  {
    if !(c < 2 || IsEoc(c) || c >= |fat| || fuel == 0) {
      WalkInRange(fat, fat[c], fuel - 1);
    }
  }

  /** The table fat32_mkfs writes for N entries: the root directory owns cluster 2 (file 0). */
  function Formatted(N: nat): Volume
    requires N >= 3
  {
    Volume(seq(N, i => if i == 0 then 0x0FFF_FFF8 else if i <= 2 then 0x0FFF_FFFF else 0), map[0 := 2])
  }

  ghost function After(N: nat, ops: seq<Op>): (v: Volume)
    requires N >= 3
    ensures InRange(v)
    decreases |ops|
  {
    if ops == [] then Formatted(N) else Apply(After(N, ops[..|ops| - 1]), ops[|ops| - 1])
  }

  /** The operation did to the chains what it says: grow appends distinct formerly free
      clusters, as many as asked unless the table is full; free releases exactly the chain;
      no other file's chain changes. */
  ghost predicate Faithful(v: Volume, op: Op)
    requires InRange(v)
  {
    var w := Apply(v, op);
    && (forall id :: id != op.id ==> ChainOf(w.fat, First(w, id)) == ChainOf(v.fat, First(v, id)))
    && match op
       case GrowOp(id, count) =>
         var added := Added(v, op).1;
         && ChainOf(w.fat, First(w, id)) == ChainOf(v.fat, First(v, id)) + added
         && Distinct(added) && (forall i :: 0 <= i < |added| ==> Free(v.fat, added[i]))
         && (|added| < count ==> forall n :: !Free(w.fat, n))
       case FreeOp(id) =>
         && ChainOf(w.fat, First(w, id)) == []
         && forall n :: 2 <= n < |v.fat| ==> w.fat[n] == if n in ChainOf(v.fat, First(v, id)) then 0 else v.fat[n]
  }

  // ---- small tables: every operation is faithful ------------------------------------------

  function ChainIn(l: Layout, id: nat): seq<nat> {
    if id in l.chains then l.chains[id] else []
  }

  /** The layout l describes v: every file's chain hangs off its first cluster. */
  ghost predicate Describes(v: Volume, l: Layout) {
    && InRange(v) && WellFormed(v.fat, l)
    && forall id :: HeadIs(v, l, id)
  }

  predicate HeadIs(v: Volume, l: Layout, id: nat) {
    First(v, id) == if ChainIn(l, id) == [] then 0 else ChainIn(l, id)[0]
  }

  lemma ReadsBack(v: Volume, l: Layout, id: nat)
    requires Describes(v, l)
    ensures ChainOf(v.fat, First(v, id)) == ChainIn(l, id)
    ensures Tail(v.fat, First(v, id)) == Last(ChainIn(l, id))
    ensures forall i :: 0 <= i < |ChainIn(l, id)| ==> 2 <= ChainIn(l, id)[i] < |v.fat|
  {
    assert HeadIs(v, l, id);
    if id in l.chains {
      assert Owns(v.fat, l, id);
      WalksRead(v.fat, l.chains[id]);
    }
  }

  /** A file that does not exist yet owns no cluster. */
  lemma NewFile(fat: seq<nat>, l: Layout, id: nat) returns (l': Layout)
    requires WellFormed(fat, l)
    ensures WellFormed(fat, l') && id in l'.chains && l'.chains[id] == ChainIn(l, id)
    ensures forall k :: ChainIn(l', k) == ChainIn(l, k)
  {
    l' := if id in l.chains then l else Layout(l.chains[id := []], l.own);
    if id !in l.chains {
      forall k | k in l'.chains ensures Owns(fat, l', k) {
        if k != id { assert Owns(fat, l, k); }
        else {
          forall n | 2 <= n < |fat| ensures l'.own[n] != Some(id) { assert l.own[n] == l.own[n]; }
        }
      }
    }
  }

  lemma GrowFaithful(v: Volume, l0: Layout, id: nat, count: nat) returns (l': Layout)
    requires Describes(v, l0)
    ensures Faithful(v, GrowOp(id, count)) && Describes(Apply(v, GrowOp(id, count)), l')
  {
    hide WellFormed;
    var l := NewFile(v.fat, l0, id);
    assert Describes(v, l) by {
      forall k ensures HeadIs(v, l, k) { assert HeadIs(v, l0, k); }
    }
    ReadsBack(v, l, id);
    l' := GrowKeeps(v.fat, l, id, count);
    var w := Apply(v, GrowOp(id, count));
    var added := Added(v, GrowOp(id, count)).1;
    forall k ensures HeadIs(w, l', k) && (k != id ==> ChainIn(l', k) == ChainIn(l, k)) {
      assert HeadIs(v, l, k);
      if k == id { assert ChainIn(l', id) == ChainIn(l, id) + added; }
    }
    forall k ensures ChainOf(w.fat, First(w, k)) == ChainIn(l', k) && ChainOf(v.fat, First(v, k)) == ChainIn(l, k) {
      ReadsBack(w, l', k);
      ReadsBack(v, l, k);
    }
  }

  lemma FreeFaithful(v: Volume, l0: Layout, id: nat) returns (l': Layout)
    requires Describes(v, l0)
    ensures Faithful(v, FreeOp(id)) && Describes(Apply(v, FreeOp(id)), l')
  {
    hide WellFormed;
    var l := NewFile(v.fat, l0, id);
    assert Describes(v, l) by {
      forall k ensures HeadIs(v, l, k) { assert HeadIs(v, l0, k); }
    }
    ReadsBack(v, l, id);
    l' := ReleaseKeeps(v.fat, l, id);
    var w := Apply(v, FreeOp(id));
    forall k ensures HeadIs(w, l', k) && (k != id ==> ChainIn(l', k) == ChainIn(l, k)) {
      assert HeadIs(v, l, k);
    }
    forall k ensures ChainOf(w.fat, First(w, k)) == ChainIn(l', k) && ChainOf(v.fat, First(v, k)) == ChainIn(l, k) {
      ReadsBack(w, l', k);
      ReadsBack(v, l, k);
    }
  }

  ghost function RootLayout(N: nat): Layout
    requires N >= 3
  {
    Layout(map[0 := [2]], seq(N, i => if i == 2 then Some(0) else None))
  }

  lemma FormattedDescribed(N: nat)
    requires 3 <= N <= FAT_EOC
    ensures Describes(Formatted(N), RootLayout(N))
  {
    var v, l := Formatted(N), RootLayout(N);
    assert Owns(v.fat, l, 0);
    forall id ensures HeadIs(v, l, id) {}
  }

  lemma {:induction false} RunDescribed(N: nat, ops: seq<Op>) returns (l: Layout)
    requires 3 <= N <= FAT_EOC
    ensures Describes(After(N, ops), l)
    decreases |ops|
  {
    if ops == [] {
      FormattedDescribed(N);
      l := RootLayout(N);
    } else {
      var before, op := ops[..|ops| - 1], ops[|ops| - 1];
      var l0 := RunDescribed(N, before);
      match op
      case GrowOp(id, count) => l := GrowFaithful(After(N, before), l0, id, count);
      case FreeOp(id) => l := FreeFaithful(After(N, before), l0, id);
    }
  }

  lemma SmallTablesFaithful(N: nat, ops: seq<Op>, op: Op)
    requires 3 <= N <= FAT_EOC
    ensures Faithful(After(N, ops), op)
  {
    var l0 := RunDescribed(N, ops);
    match op
    case GrowOp(id, count) => var l := GrowFaithful(After(N, ops), l0, id, count);
    case FreeOp(id) => var l := FreeFaithful(After(N, ops), l0, id);
  }

  // ---- large tables: cluster 0x0FFFFFF8 reads as an end mark ---------------------------------

  lemma FirstFreeIs(fat: seq<nat>, f: nat)
    requires Free(fat, f) && forall k :: 2 <= k < f ==> !Free(fat, k)
    ensures FirstFree(fat, 2) == Some(f)
  {
    assert FirstFree(fat, 2).Some?;
    assert !(FirstFree(fat, 2).value < f);
  }

  /** Growing in a table with a free entry below n is growing in its first n entries. */
  lemma {:induction false} GrowPrefix(fat: seq<nat>, n: nat, prev: nat, count: nat)
    requires 2 <= n <= |fat| && prev < n && |Grow(fat[..n], prev, count).1| == count
    ensures Grow(fat, prev, count).1 == Grow(fat[..n], prev, count).1
    ensures Grow(fat, prev, count).0 == Grow(fat[..n], prev, count).0 + fat[n..]
    decreases count
  {
    if count == 0 {
      assert fat == fat[..n] + fat[n..];
    } else {
      var f := FirstFree(fat[..n], 2).value;
      forall k | 2 <= k < f ensures !Free(fat, k) {
        assert !Free(fat[..n], k);
      }
      FirstFreeIs(fat, f);
      var fat1 := Append(fat, prev, f);
      assert fat1[..n] == Append(fat[..n], prev, f);
      assert fat1[n..] == fat[n..];
      GrowPrefix(fat1, n, f, count - 1);
    }
  }

  /** When exactly the entries from `from` up are free, growing takes them in order. */
  lemma {:induction false} GrowSweeps(fat: seq<nat>, prev: nat, from: nat, count: nat)
    requires 2 <= from && from + count <= |fat| && prev < from
    requires forall k :: 2 <= k < |fat| ==> (fat[k] == 0 <==> k >= from)
    ensures |Grow(fat, prev, count).1| == count
    ensures count > 0 ==> Grow(fat, prev, count).1[0] == from
    ensures count > 0 ==> Last(Grow(fat, prev, count).1) == from + count - 1
    ensures forall k :: 2 <= k < |fat| ==> (Grow(fat, prev, count).0[k] == 0 <==> k >= from + count)
    decreases count
  {
    if count > 0 {
      FirstFreeIs(fat, from);
      GrowSweeps(Append(fat, prev, from), from, from + 1, count - 1);
    }
  }

  /** In a table of exactly 0x0FFFFFF8 entries, file 1 can take every free cluster. */
  lemma SmallFull() returns (fat: seq<nat>, xs: seq<nat>)
    ensures (fat, xs) == Grow(Formatted(FAT_EOC).fat, 0, FAT_EOC - 3) && |xs| == FAT_EOC - 3
    ensures |fat| == FAT_EOC && IsChain(fat, xs) && Distinct(xs) && xs[0] == 3 && Last(xs) == FAT_EOC - 1
    ensures forall k :: 2 <= k < FAT_EOC ==> fat[k] != 0
  {
    var small := Formatted(FAT_EOC).fat;
    GrowSweeps(small, 0, 3, FAT_EOC - 3);
    FormattedDescribed(FAT_EOC);
    var l := NewFile(small, RootLayout(FAT_EOC), 1);
    hide Grow, Formatted;
    var l' := GrowKeeps(small, l, 1, FAT_EOC - 3);
    var r := Grow(small, 0, FAT_EOC - 3);
    fat, xs := r.0, r.1;
    assert l'.chains[1] == xs;
    assert Owns(fat, l', 1);
  }

  /** The state in which every cluster below 0x0FFFFFF8 is in use, all but the root's by file 1. */
  lemma FullToTheMark(N: nat) returns (v: Volume, xs: seq<nat>)
    requires N > FAT_EOC
    ensures v == After(N, [GrowOp(1, FAT_EOC - 3)]) && |v.fat| == N
    ensures IsChain(v.fat, xs) && Distinct(xs) && xs != [] && First(v, 1) == xs[0] && Last(xs) == FAT_EOC - 1
    ensures forall i :: 0 <= i < |xs| ==> xs[i] < FAT_EOC
    ensures forall k :: 2 <= k < N ==> (v.fat[k] == 0 <==> k >= FAT_EOC)
  {
    var big := Formatted(N);
    var op := GrowOp(1, FAT_EOC - 3);
    assert [op][..0] == [];
    v := Apply(big, op);
    assert v == After(N, [op]);
    var fat;
    fat, xs := SmallFull();
    assert big.fat[..FAT_EOC] == Formatted(FAT_EOC).fat;
    GrowPrefix(big.fat, FAT_EOC, 0, FAT_EOC - 3);
    hide Grow, After;
    assert First(big, 1) == 0 && Tail(big.fat, 0) == 0;
    assert v.fat == fat + big.fat[FAT_EOC..];
    forall k | 2 <= k < N ensures v.fat[k] == 0 <==> k >= FAT_EOC {
      if k >= FAT_EOC { assert v.fat[k] == big.fat[k]; }
    }
    forall i | 0 <= i < |xs| - 1 ensures v.fat[xs[i]] == xs[i + 1] {
      assert fat[xs[i]] == xs[i + 1];
    }
  }

  /** One more cluster for that file: 0x0FFFFFF8 is allocated, and the walk does not reach it. */
  lemma MarkLost(N: nat)
    requires N > FAT_EOC
    ensures !Faithful(After(N, [GrowOp(1, FAT_EOC - 3)]), GrowOp(1, 1))
  {
    var v, xs := FullToTheMark(N);
    WalksRead(v.fat, xs);
    var p := FAT_EOC - 1;
    FirstFreeIs(v.fat, FAT_EOC);
    var fat' := Append(v.fat, p, FAT_EOC);
    assert Grow(fat', FAT_EOC, 0) == (fat', []);
    assert [FAT_EOC] + [] == [FAT_EOC];
    assert Grow(v.fat, p, 1) == (fat', [FAT_EOC]);
    assert Added(v, GrowOp(1, 1)) == (fat', [FAT_EOC]);
    forall i | 0 <= i < |xs| - 1 ensures fat'[xs[i]] == xs[i + 1] {
      assert xs[i] != xs[|xs| - 1];
    }
    assert IsChain(fat', xs);
    WalksRead(fat', xs);
    assert ChainOf(fat', xs[0]) == xs != xs + [FAT_EOC];
  }

  /** Exactly when every operation of every run is faithful: the table has at most
      0x0FFFFFF8 entries, that is, the volume at most 0x0FFFFFF6 clusters. */
  lemma FaithfulExactly(N: nat)
    requires N >= 3
    ensures (forall ops: seq<Op>, op :: Faithful(After(N, ops), op)) <==> N <= FAT_EOC
  {
    if N <= FAT_EOC {
      forall ops: seq<Op>, op ensures Faithful(After(N, ops), op) {
        SmallTablesFaithful(N, ops, op);
      }
    } else {
      MarkLost(N);
    }
  }
}
