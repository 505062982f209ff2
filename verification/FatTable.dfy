/** The FAT as a table of 32-bit entries: chains threaded through it, the allocator
    (chain_grow) and the release walk (chain_free), and how many clusters a table may
    have before the links themselves read as end-of-chain marks. */
module FatTable {
  import opened Seqs
  import opened Wrappers

  const FAT_EOC: nat := 0x0FFF_FFF8

  predicate IsEoc(v: nat) { FAT_EOC <= v <= 0x0FFF_FFFF }

  predicate Free(fat: seq<nat>, n: nat) { 2 <= n < |fat| && fat[n] == 0 }

  /** xs is linked through the table and ends in an end-of-chain mark. */
  ghost predicate IsChain(fat: seq<nat>, xs: seq<nat>) {
    && (forall i :: 0 <= i < |xs| ==> 2 <= xs[i] < |fat|)
    && (forall i :: 0 <= i < |xs| - 1 ==> fat[xs[i]] == xs[i + 1])
    && (xs != [] ==> IsEoc(fat[xs[|xs| - 1]]))
  }

  /** The chain of every file (empty for an empty file), and the file owning each cluster. */
  datatype Layout = Layout(chains: map<nat, seq<nat>>, own: seq<Option<nat>>)

  ghost predicate Owns(fat: seq<nat>, l: Layout, id: nat)
    requires id in l.chains && |l.own| == |fat|
  {
    && IsChain(fat, l.chains[id]) && Distinct(l.chains[id])
    && forall n :: n in l.chains[id] <==> 2 <= n < |fat| && l.own[n] == Some(id)
  }

  /** The used entries of the table are exactly the disjoint acyclic chains of the layout,
      each ending in an end-of-chain mark. */
  ghost predicate WellFormed(fat: seq<nat>, l: Layout) {
    && 2 <= |fat| <= FAT_EOC && |l.own| == |fat|
    && (forall id {:trigger l.chains[id]} :: id in l.chains ==> Owns(fat, l, id))
    && (forall n {:trigger l.own[n]} :: 2 <= n < |fat| ==>
          (fat[n] == 0 <==> l.own[n] == None) && (l.own[n].Some? ==> l.own[n].value in l.chains))
  }

  lemma Sizes(fat: seq<nat>, l: Layout)
    requires WellFormed(fat, l)
    ensures 2 <= |fat| <= FAT_EOC && |l.own| == |fat|
  {
  }

  // ---- allocation -----------------------------------------------------------------

  /** The scan for a free entry from n up. */
  function FirstFree(fat: seq<nat>, n: nat): (r: Option<nat>)
    requires 2 <= n
    ensures r.Some? ==> n <= r.value && Free(fat, r.value) && forall k :: n <= k < r.value ==> !Free(fat, k)
    ensures r.None? ==> forall k :: n <= k < |fat| ==> !Free(fat, k)
    decreases |fat| - n
  {
    if n >= |fat| then None
    else if fat[n] == 0 then Some(n)
    else FirstFree(fat, n + 1)
  }

  /** Mark f used and hang it behind prev (prev < 2: it starts a chain). */
  function Append(fat: seq<nat>, prev: nat, f: nat): (r: seq<nat>)
    requires f < |fat| && prev < |fat|
    ensures |r| == |fat|
  {
    var marked := fat[f := FAT_EOC];
    if prev >= 2 then marked[prev := f] else marked
  }

  /** The table and the clusters added after growing by up to `count`. */
  function Grow(fat: seq<nat>, prev: nat, count: nat): (r: (seq<nat>, seq<nat>))
    requires prev < |fat|
    ensures |r.0| == |fat| && |r.1| <= count
    ensures forall i :: 0 <= i < |r.1| ==> 2 <= r.1[i] < |fat|
    decreases count
  {
    if count == 0 then (fat, []) else
    match FirstFree(fat, 2)
    case None => (fat, [])
    case Some(f) =>
      var rest := Grow(Append(fat, prev, f), f, count - 1);
      (rest.0, [f] + rest.1)
  }

  ghost function FreeSet(fat: seq<nat>): set<nat> { set c: nat | c < |fat| && Free(fat, c) }

  /** How many clusters the table has left. */
  ghost function Left(fat: seq<nat>): nat { |FreeSet(fat)| }

  function Last(xs: seq<nat>): nat {
    if xs == [] then 0 else xs[|xs| - 1]
  }

  ghost function Extended(l: Layout, id: nat, f: nat): Layout
    requires id in l.chains && f < |l.own|
  {
    Layout(l.chains[id := l.chains[id] + [f]], l.own[f := Some(id)])
  }

  lemma TailOwned(fat: seq<nat>, l: Layout, id: nat)
    requires WellFormed(fat, l) && id in l.chains
    ensures var p := Last(l.chains[id]);
      p < |fat| && (l.chains[id] != [] ==> p >= 2 && p in l.chains[id] && l.own[p] == Some(id) && fat[p] != 0)
  {
    assert Owns(fat, l, id);
    var xs := l.chains[id];
    if xs != [] {
      assert xs[|xs| - 1] in xs;
      assert l.own[xs[|xs| - 1]] == Some(id);
    }
  }

  lemma AppendOwn(fat: seq<nat>, l: Layout, id: nat, f: nat)
    requires WellFormed(fat, l) && id in l.chains && Free(fat, f) && Last(l.chains[id]) < |fat|
    ensures Owns(Append(fat, Last(l.chains[id]), f), Extended(l, id, f), id)
  {
    var xs := l.chains[id];
    var p := Last(xs);
    var fat' := Append(fat, p, f);
    assert Owns(fat, l, id);
    TailOwned(fat, l, id);
    assert l.own[f] == None;
    assert f !in xs;
    var ys := xs + [f];
    forall i | 0 <= i < |ys| - 1 ensures fat'[ys[i]] == ys[i + 1] {
      assert xs[i] in xs;
      if i < |xs| - 1 { assert xs[i] != xs[|xs| - 1]; }
    }
    assert fat'[f] == FAT_EOC;
    forall n ensures n in ys <==> n in xs || n == f {}
  }

  lemma AppendOther(fat: seq<nat>, l: Layout, id: nat, f: nat, k: nat)
    requires WellFormed(fat, l) && id in l.chains && Free(fat, f) && Last(l.chains[id]) < |fat|
    requires k in l.chains && k != id
    ensures Owns(Append(fat, Last(l.chains[id]), f), Extended(l, id, f), k)
  {
    assert Owns(fat, l, k);
    TailOwned(fat, l, id);
    var ys := l.chains[k];
    var fat' := Append(fat, Last(l.chains[id]), f);
    forall i | 0 <= i < |ys| ensures fat'[ys[i]] == fat[ys[i]] {
      assert ys[i] in ys;
      assert l.own[ys[i]] == Some(k) && l.own[f] == None;
    }
  }

  /** One allocation keeps the table well formed and extends one chain by a free cluster. */
  lemma AppendKeeps(fat: seq<nat>, l: Layout, id: nat, f: nat)
    requires WellFormed(fat, l) && id in l.chains && Free(fat, f) && Last(l.chains[id]) < |fat|
    ensures WellFormed(Append(fat, Last(l.chains[id]), f), Extended(l, id, f))
  {
    var fat', l' := Append(fat, Last(l.chains[id]), f), Extended(l, id, f);
    TailOwned(fat, l, id);
    forall k | k in l'.chains ensures Owns(fat', l', k) {
      if k == id { AppendOwn(fat, l, id, f); } else { AppendOther(fat, l, id, f, k); }
    }
    forall n | 2 <= n < |fat'|
      ensures (fat'[n] == 0 <==> l'.own[n] == None) && (l'.own[n].Some? ==> l'.own[n].value in l'.chains)
    {
      assert l.own[n] == l.own[n];
    }
  }

  /** Marking f used without linking it leaves it the one-cluster chain of a file that has none yet. */
  lemma OrphanKeeps(fat: seq<nat>, l: Layout, id: nat, f: nat)
    requires WellFormed(fat, l) && Free(fat, f) && id !in l.chains
    ensures WellFormed(fat[f := FAT_EOC], Extended(l.(chains := l.chains[id := []]), id, f))
  {
    var l0 := l.(chains := l.chains[id := []]);
    assert WellFormed(fat, l0) by {
      forall k | k in l0.chains ensures Owns(fat, l0, k) {
        if k != id { assert Owns(fat, l, k); }
        else {
          forall n | 2 <= n < |fat| ensures l0.own[n] != Some(id) { assert l.own[n] == l.own[n]; }
        }
      }
    }
    AppendKeeps(fat, l0, id, f);
  }

  /** What growing the chain of file id by up to `count` comes to. */
  ghost predicate Grown(fat: seq<nat>, l: Layout, id: nat, count: nat, fat': seq<nat>, added: seq<nat>, l': Layout)
    requires id in l.chains
  {
    && WellFormed(fat', l') && |fat'| == |fat|
    && l'.chains == l.chains[id := l.chains[id] + added]
    && |added| <= count && Distinct(added)
    && (forall i :: 0 <= i < |added| ==> Free(fat, added[i]))
    && (|added| < count ==> forall n :: !Free(fat', n))
    && (forall n :: 0 <= n < |fat| && n !in added && n != Last(l.chains[id]) ==> fat'[n] == fat[n])
  }

  lemma GrownOneMore(fat: seq<nat>, l: Layout, id: nat, count: nat, fat': seq<nat>, rest: seq<nat>, l': Layout, f: nat)
    requires WellFormed(fat, l) && id in l.chains && Free(fat, f) && Last(l.chains[id]) < |fat| && count > 0
    requires Grown(Append(fat, Last(l.chains[id]), f), Extended(l, id, f), id, count - 1, fat', rest, l')
    ensures Grown(fat, l, id, count, fat', [f] + rest, l')
  {
    hide WellFormed;
    Sizes(fat, l);
    var xs := l.chains[id];
    var fat1 := Append(fat, Last(xs), f);
    TailOwned(fat, l, id);
    assert xs + [f] + rest == xs + ([f] + rest);
    assert Extended(l, id, f).chains[id := xs + [f] + rest] == l.chains[id := xs + ([f] + rest)];
    forall i | 0 <= i < |rest| ensures Free(fat, rest[i]) && rest[i] != f {
      assert Free(fat1, rest[i]);
    }
    forall n | 0 <= n < |fat| && n !in [f] + rest && n != Last(xs) ensures fat'[n] == fat[n] {
      assert n !in rest && n != f;
      assert Last(xs + [f]) == f;
    }
  }

  lemma GrownNone(fat: seq<nat>, l: Layout, id: nat, count: nat)
    requires WellFormed(fat, l) && id in l.chains && (count > 0 ==> forall n :: !Free(fat, n))
    ensures Grown(fat, l, id, count, fat, [], l)
  {
    assert l.chains[id] + [] == l.chains[id];
  }

  /** Growing appends formerly free clusters in order, as many as asked unless the table is
      full, and touches only them and the old tail. */
  lemma {:induction false} GrowKeeps(fat: seq<nat>, l: Layout, id: nat, count: nat) returns (l': Layout)
    requires WellFormed(fat, l) && id in l.chains && Last(l.chains[id]) < |fat|
    ensures var (fat', added) := Grow(fat, Last(l.chains[id]), count);
      Grown(fat, l, id, count, fat', added, l')
    decreases count
  {
    hide WellFormed, Grown;
    Sizes(fat, l);
    var xs := l.chains[id];
    if count > 0 && FirstFree(fat, 2).Some? {
      var f := FirstFree(fat, 2).value;
      AppendKeeps(fat, l, id, f);
      assert Last(xs + [f]) == f && f < |Append(fat, Last(xs), f)|;
      l' := GrowKeeps(Append(fat, Last(xs), f), Extended(l, id, f), id, count - 1);
      var r := Grow(Append(fat, Last(xs), f), f, count - 1);
      GrownOneMore(fat, l, id, count, r.0, r.1, l', f);
      assert Grow(fat, Last(xs), count) == (r.0, [f] + r.1);
    } else {
      l' := l;
      GrownNone(fat, l, id, count);
    }
  }

  /** Growing finds as many clusters as are asked for, or all there are. */
  lemma {:induction false} GrowFinds(fat: seq<nat>, prev: nat, n: nat)
    requires prev < |fat| && !Free(fat, prev)
    ensures |Grow(fat, prev, n).1| == if n <= Left(fat) then n else Left(fat)
    decreases n
  {
    match FirstFree(fat, 2)
    case None => assert FreeSet(fat) == {};
    case Some(f) =>
      assert f in FreeSet(fat);
      if n > 0 {
        var fat1 := Append(fat, prev, f);
        assert FreeSet(fat1) == FreeSet(fat) - {f};
        GrowFinds(fat1, f, n - 1);
      }
  }

  /** Growing by one more: the next free cluster goes behind the last one added. */
  lemma {:induction false} GrowSnoc(fat: seq<nat>, prev: nat, k: nat)
    requires prev < |fat| && |Grow(fat, prev, k).1| == k
    ensures var g := Grow(fat, prev, k); var tail := if k == 0 then prev else Last(g.1);
      && tail < |fat|
      && Grow(fat, prev, k + 1) ==
         match FirstFree(g.0, 2)
         case None => g
         case Some(f) => (Append(g.0, tail, f), g.1 + [f])
    decreases k
  {
    if k == 0 {
      assert Grow(fat, prev, 0) == (fat, []);
      match FirstFree(fat, 2)
      case None =>
      case Some(f) =>
        assert Grow(Append(fat, prev, f), f, 0) == (Append(fat, prev, f), []);
        assert [f] + [] == [] + [f];
    } else {
      var f := FirstFree(fat, 2).value;
      var fat1 := Append(fat, prev, f);
      GrowSnoc(fat1, f, k - 1);
      var h := Grow(fat1, f, k - 1);
      assert Grow(fat, prev, k) == (h.0, [f] + h.1);
      assert Last([f] + h.1) == if k == 1 then f else Last(h.1);
      match FirstFree(h.0, 2)
      case None =>
      case Some(e) => assert [f] + (h.1 + [e]) == [f] + h.1 + [e];
    }
  }

  /** xs is a chain that visits no cluster twice. */
  ghost predicate Acyclic(fat: seq<nat>, xs: seq<nat>) {
    IsChain(fat, xs) && Distinct(xs)
  }

  lemma ChainEnds(fat: seq<nat>, xs: seq<nat>)
    requires |fat| >= 2 && Acyclic(fat, xs)
    ensures Last(xs) < |fat|
  {
  }

  /** Grown by k clusters, a chain is still one chain, new clusters last. */
  lemma {:induction false} GrowChain(fat: seq<nat>, xs: seq<nat>, k: nat)
    requires 2 <= |fat| <= FAT_EOC && Acyclic(fat, xs)
    ensures Last(xs) < |fat|
    ensures Acyclic(Grow(fat, Last(xs), k).0, xs + Grow(fat, Last(xs), k).1)
    decreases k
  {
    hide Acyclic;
    ChainEnds(fat, xs);
    if k == 0 || FirstFree(fat, 2).None? {
      assert xs + [] == xs;
      assert Grow(fat, Last(xs), k) == (fat, []);
    } else {
      var f := FirstFree(fat, 2).value;
      ChainAppend(fat, xs, f);
      var fat1 := Append(fat, Last(xs), f);
      GrowChain(fat1, xs + [f], k - 1);
      var g := Grow(fat1, f, k - 1);
      assert Last(xs + [f]) == f;
      assert xs + [f] + g.1 == xs + ([f] + g.1);
    }
  }

  lemma ChainAppend(fat: seq<nat>, xs: seq<nat>, f: nat)
    requires 2 <= |fat| <= FAT_EOC && Acyclic(fat, xs) && Free(fat, f)
    ensures Last(xs) < |fat| && Acyclic(Append(fat, Last(xs), f), xs + [f])
  {
    var fat' := Append(fat, Last(xs), f);
    var ys := xs + [f];
    forall i | 0 <= i < |xs| ensures xs[i] != f {
      if i < |xs| - 1 { assert fat[xs[i]] == xs[i + 1]; }
    }
    forall i | 0 <= i < |ys| - 1 ensures fat'[ys[i]] == ys[i + 1] {
      if i < |xs| - 1 { assert xs[i] != xs[|xs| - 1] && fat[xs[i]] == xs[i + 1]; }
    }
  }

  /** The clusters of a chain are in use. */
  lemma ChainUsed(fat: seq<nat>, xs: seq<nat>, i: nat)
    requires IsChain(fat, xs) && i < |xs|
    ensures !Free(fat, xs[i])
  {
    if i < |xs| - 1 { assert fat[xs[i]] == xs[i + 1]; }
  }

  // ---- release ------------------------------------------------------------------------

  /** chain_free after k clusters of xs. */
  function Release(fat: seq<nat>, xs: seq<nat>, k: nat): (r: seq<nat>)
    requires k <= |xs| && forall i :: 0 <= i < |xs| ==> xs[i] < |fat|
    ensures |r| == |fat|
    decreases k
  {
    if k == 0 then fat else Release(fat, xs, k - 1)[xs[k - 1] := 0]
  }

  lemma {:induction false} ReleaseHead(fat: seq<nat>, xs: seq<nat>, k: nat)
    requires 1 <= k <= |xs| && forall i :: 0 <= i < |xs| ==> xs[i] < |fat|
    ensures Release(fat, xs, k) == Release(fat[xs[0] := 0], xs[1..], k - 1)
    decreases k
  {
    if k > 1 {
      ReleaseHead(fat, xs, k - 1);
      assert xs[1..][k - 2] == xs[k - 1];
    } else {
      assert Release(fat, xs, 0) == fat;
    }
  }

  ghost function Dropped(l: Layout, id: nat): Layout
    requires id in l.chains && l.chains[id] != [] && l.chains[id][0] < |l.own|
  {
    Layout(l.chains[id := l.chains[id][1..]], l.own[l.chains[id][0] := None])
  }

  lemma DropOwn(fat: seq<nat>, l: Layout, id: nat)
    requires WellFormed(fat, l) && id in l.chains && l.chains[id] != [] && l.chains[id][0] < |fat|
    ensures Owns(fat[l.chains[id][0] := 0], Dropped(l, id), id)
  {
    var xs := l.chains[id];
    assert Owns(fat, l, id);
    var h, ys := xs[0], xs[1..];
    assert xs == [h] + ys;
    forall i | 0 <= i < |ys| ensures ys[i] == xs[i + 1] && ys[i] != h {}
    forall n ensures n in ys <==> n in xs && n != h {}
  }

  lemma DropOther(fat: seq<nat>, l: Layout, id: nat, k: nat)
    requires WellFormed(fat, l) && id in l.chains && l.chains[id] != [] && l.chains[id][0] < |fat|
    requires k in l.chains && k != id
    ensures Owns(fat[l.chains[id][0] := 0], Dropped(l, id), k)
  {
    assert Owns(fat, l, id) && Owns(fat, l, k);
    var h, ys := l.chains[id][0], l.chains[k];
    assert h in l.chains[id] && l.own[h] == Some(id);
    forall i | 0 <= i < |ys| ensures ys[i] != h {
      assert ys[i] in ys;
    }
  }

  /** Freeing the first cluster of a chain leaves the rest of it a chain of the same file. */
  lemma DropHead(fat: seq<nat>, l: Layout, id: nat)
    requires WellFormed(fat, l) && id in l.chains && l.chains[id] != [] && l.chains[id][0] < |fat|
    ensures WellFormed(fat[l.chains[id][0] := 0], Dropped(l, id))
  {
    var h := l.chains[id][0];
    var fat', l' := fat[h := 0], Dropped(l, id);
    assert Owns(fat, l, id) && h in l.chains[id];
    forall k | k in l'.chains ensures Owns(fat', l', k) {
      if k == id { DropOwn(fat, l, id); } else { DropOther(fat, l, id, k); }
    }
    forall n | 2 <= n < |fat'|
      ensures (fat'[n] == 0 <==> l'.own[n] == None) && (l'.own[n].Some? ==> l'.own[n].value in l'.chains)
    {
      assert l.own[n] == l.own[n];
    }
  }

  // ---- interrupted operations ------------------------------------------------------------

  lemma {:induction false} ReleaseAt(fat: seq<nat>, xs: seq<nat>, k: nat)
    requires k <= |xs| && forall i :: 0 <= i < |xs| ==> xs[i] < |fat|
    ensures forall n :: 0 <= n < |fat| ==> Release(fat, xs, k)[n] == if n in xs[..k] then 0 else fat[n]
    decreases k
  {
    if k > 0 {
      ReleaseAt(fat, xs, k - 1);
      assert xs[..k] == xs[..k - 1] + [xs[k - 1]];
    }
  }

  /** Whenever chain_free stops, what it has not reached is still a chain of the same file. */
  lemma {:induction false} PartReleaseKeeps(fat: seq<nat>, l: Layout, id: nat, k: nat) returns (l': Layout)
    requires WellFormed(fat, l) && id in l.chains && k <= |l.chains[id]|
    requires forall i :: 0 <= i < |l.chains[id]| ==> l.chains[id][i] < |fat|
    ensures WellFormed(Release(fat, l.chains[id], k), l') && l'.chains == l.chains[id := l.chains[id][k..]]
    decreases k
  {
    hide WellFormed;
    Sizes(fat, l);
    var xs := l.chains[id];
    l' := l;
    if k == 0 {
      assert l.chains == l.chains[id := xs[0..]];
    } else {
      DropHead(fat, l, id);
      l' := PartReleaseKeeps(fat[xs[0] := 0], Dropped(l, id), id, k - 1);
      ReleaseHead(fat, xs, k);
      assert xs[1..][k - 1..] == xs[k..];
      assert Dropped(l, id).chains[id := xs[k..]] == l.chains[id := xs[k..]];
    }
  }

  /** Releasing a chain frees exactly its clusters and leaves every other chain alone. */
  lemma ReleaseKeeps(fat: seq<nat>, l: Layout, id: nat) returns (l': Layout)
    requires WellFormed(fat, l) && id in l.chains
    requires forall i :: 0 <= i < |l.chains[id]| ==> l.chains[id][i] < |fat|
    ensures var xs := l.chains[id]; var fat' := Release(fat, xs, |xs|);
      && WellFormed(fat', l') && l'.chains == l.chains[id := []]
      && forall n :: 0 <= n < |fat| ==> fat'[n] == if n in xs then 0 else fat[n]
  {
    hide WellFormed;
    var xs := l.chains[id];
    l' := PartReleaseKeeps(fat, l, id, |xs|);
    ReleaseAt(fat, xs, |xs|);
    assert xs[..|xs|] == xs && xs[|xs|..] == [];
  }

  /** Whenever chain_grow stops, the table is well formed: the chain has a prefix of its new
      clusters, and a cluster marked but not yet linked is a one-cluster chain of its own
      (`spare` is a file number not in use). */
  lemma PartGrowKeeps(fat: seq<nat>, l: Layout, id: nat, k: nat, spare: nat, orphan: bool) returns (l': Layout)
    requires WellFormed(fat, l) && id in l.chains && spare !in l.chains && Last(l.chains[id]) < |fat|
    requires var g := Grow(fat, Last(l.chains[id]), k); orphan ==> FirstFree(g.0, 2).Some?
    ensures var g := Grow(fat, Last(l.chains[id]), k);
      && WellFormed(if orphan then g.0[FirstFree(g.0, 2).value := FAT_EOC] else g.0, l')
      && (forall j :: j in l.chains && j != id ==> j in l'.chains && l'.chains[j] == l.chains[j])
      && id in l'.chains && l'.chains[id] == l.chains[id] + g.1
  {
    hide WellFormed;
    Sizes(fat, l);
    l' := GrowKeeps(fat, l, id, k);
    var g := Grow(fat, Last(l.chains[id]), k);
    if orphan {
      var f := FirstFree(g.0, 2).value;
      Sizes(g.0, l');
      OrphanKeeps(g.0, l', spare, f);
      l' := Extended(l'.(chains := l'.chains[spare := []]), spare, f);
    }
  }
}
