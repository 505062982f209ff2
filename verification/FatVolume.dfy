/** The mounted volume: the sector-by-sector code of fs/fat32.c that walks, grows and frees
    chains.  A device transfer may fail at any time; a failed write leaves the disk as it
    was. */
module FatVolume {
  import opened Bytes
  import opened Errno
  import opened Limits
  import opened Seqs
  import opened Wrappers
  import opened FatTable
  import opened FatDisk
  import opened FatRuns
  import opened FatFormat

  /** The table after k complete allocations behind prev, or those and one more cluster
      marked but not linked. */
  ghost predicate PartlyGrown(fat: seq<nat>, prev: nat, k: nat, fat': seq<nat>)
    requires prev < |fat|
  {
    var g := Grow(fat, prev, k);
    && |g.1| == k
    && (fat' == g.0 || (FirstFree(g.0, 2).Some? && fat' == g.0[FirstFree(g.0, 2).value := FAT_EOC]))
  }

  /** The data sectors outside the free clusters of `fat` are the same on both disks. */
  ghost predicate DataKept(d: Disk, d': Disk, g: Geo, fat: seq<nat>)
    requires GeoOk(g, |d|) && |d'| == |d|
  {
    forall c :: 2 <= c < Entries(g) && !Free(fat, c) ==> Data(d', g, c) == Data(d, g, c)
  }

  /** d' is d with entry n set to v in the table in use, or (a failed call) with an unchanged table. */
  ghost predicate EntrySet(d: Disk, d': Disk, g: Geo, n: nat, v: nat, complete: bool)
    requires GeoOk(g, |d|) && n < Entries(g)
  {
    && |d'| == |d|
    && (Fat(d', g, 0) == Fat(d, g, 0)[n := v] || (!complete && Fat(d', g, 0) == Fat(d, g, 0)))
    && (forall c :: 2 <= c < Entries(g) ==> Data(d', g, c) == Data(d, g, c))
    && (complete && Mirrored(d, g) ==> Mirrored(d', g))
  }

  lemma EntryIsSet(d: Disk, g: Geo, n: nat, v: nat, k: nat)
    requires GeoOk(g, |d|) && n < Entries(g) && v < 0x1_0000_0000 && k <= g.nfats
    ensures EntrySet(d, SetCopies(d, g, n, v, k), g, n, v, k == g.nfats)
  {
    var d' := SetCopies(d, g, n, v, k);
    if k >= 1 { SetReads(d, g, n, v, k); }
    forall c | 2 <= c < Entries(g) ensures Data(d', g, c) == Data(d, g, c) {
      SetFrames(d, g, n, v, k, DataLba(g, c));
    }
    if k == g.nfats && Mirrored(d, g) { SetMirrors(d, g, n, v); }
  }

  /** The write of one more copy. */
  lemma OneMoreCopy(d: Disk, g: Geo, n: nat, v: nat, i: nat)
    requires GeoOk(g, |d|) && n < Entries(g) && i < g.nfats
    ensures g.reserved + n / 128 < |d| && g.reserved + n / 128 + i * g.fatsz < |d|
    ensures SetCopies(d, g, n, v, 0) == d && Patched(d, g, n, v) == Wr32(d[g.reserved + n / 128], (n % 128) * 4, v)
    ensures SetCopies(d, g, n, v, i + 1) == SetCopies(d, g, n, v, i)[g.reserved + n / 128 + i * g.fatsz := Patched(d, g, n, v)]
  {
    EntryInRange(g, 0, n);
    EntryInRange(g, i, n);
    hide Wr32, Entries;
  }

  /** first is the recorded first cluster of the chain xs. */
  ghost predicate HeadedBy(fat: seq<nat>, first: nat, xs: seq<nat>) {
    && 2 <= |fat| <= FAT_EOC && IsChain(fat, xs) && Distinct(xs)
    && first == if xs == [] then 0 else xs[0]
  }

  lemma LinksFit(fat: seq<nat>, xs: seq<nat>)
    requires 2 <= |fat| <= FAT_EOC && IsChain(fat, xs) && Distinct(xs)
    ensures |xs| <= |fat| - 2
    ensures forall i :: 0 <= i < |xs| ==> 2 <= xs[i] < FAT_EOC
  {
    ChainFits(fat, xs);
  }

  /** What one turn of chain_grow leaves: done, the disk full, or a device error part-way. */
  ghost predicate Appended(d: Disk, d': Disk, g: Geo, prev: nat, r: int, f: nat)
    requires GeoOk(g, |d|) && prev < Entries(g)
  {
    var fat := Fat(d, g, 0);
    && |d'| == |d| && (r == 0 || r == ENOSPC || r == DEVERR)
    && (FirstFree(fat, 2) == None ==> d' == d)
    && DataKept(d, d', g, fat)
    && (r == 0 ==> FirstFree(fat, 2) == Some(f) && Fat(d', g, 0) == Append(fat, prev, f) && Data(d', g, f) == Zeros(512)
                   && (Mirrored(d, g) ==> Mirrored(d', g))
                   && forall c :: 2 <= c < Entries(g) && c != f ==> Data(d', g, c) == Data(d, g, c))
    && (r == ENOSPC ==> FirstFree(fat, 2) == None)
    && (r == DEVERR && Fat(d', g, 0) != fat ==>
        && FirstFree(fat, 2) == Some(f)
        && (Fat(d', g, 0) == fat[f := FAT_EOC] || Fat(d', g, 0) == Append(fat, prev, f)))
  }

  lemma AppendFailed(d: Disk, d1: Disk, d': Disk, g: Geo, prev: nat, r: int, f: nat)
    requires GeoOk(g, |d|) && prev < Entries(g) && |d1| == |d|
    requires r == DEVERR || (r == ENOSPC && FirstFree(Fat(d, g, 0), 2) == None)
    requires f == 0 ==> d1 == d && d' == d
    requires f != 0 ==> FirstFree(Fat(d, g, 0), 2) == Some(f) && (d1 == d || d1 == d[DataLba(g, f) := Zeros(512)])
    requires d' == d1 || (f != 0 && EntrySet(d1, d', g, f, FAT_EOC, false))
    ensures Appended(d, d', g, prev, r, f)
  {
    if f != 0 { DataFrames(d, g, f, Zeros(512)); }
  }

  lemma AppendDone(d: Disk, d1: Disk, d2: Disk, d': Disk, g: Geo, prev: nat, r: int, f: nat)
    requires GeoOk(g, |d|) && prev < Entries(g) && 2 <= f < Entries(g) && FirstFree(Fat(d, g, 0), 2) == Some(f)
    requires d1 == d[DataLba(g, f) := Zeros(512)] && EntrySet(d1, d2, g, f, FAT_EOC, true)
    requires if prev >= 2 then EntrySet(d2, d', g, prev, f, r == 0) else d' == d2
    requires r == 0 || (r == DEVERR && prev >= 2)
    ensures Appended(d, d', g, prev, r, f)
  {
    DataFrames(d, g, f, Zeros(512));
  }

  lemma TailInRange(fat: seq<nat>, xs: seq<nat>)
    requires IsChain(fat, xs) && |fat| >= 2
    ensures Last(xs) < |fat| && (xs != [] ==> Last(xs) >= 2)
  {
  }

  /** Growing only ever uses entries up, and uses up those it adds. */
  lemma {:induction false} GrownFree(fat: seq<nat>, prev: nat, n: nat)
    requires prev < |fat|
    ensures forall c :: Free(Grow(fat, prev, n).0, c) ==> Free(fat, c)
    ensures forall i :: 0 <= i < |Grow(fat, prev, n).1| ==> !Free(Grow(fat, prev, n).0, Grow(fat, prev, n).1[i])
    decreases n
  {
    if n > 0 && FirstFree(fat, 2).Some? {
      var f := FirstFree(fat, 2).value;
      var rest := Grow(Append(fat, prev, f), f, n - 1);
      GrownFree(Append(fat, prev, f), f, n - 1);
      assert Grow(fat, prev, n) == (rest.0, [f] + rest.1);
      assert !Free(Append(fat, prev, f), f);
      forall i | 0 <= i < |[f] + rest.1| ensures !Free(rest.0, ([f] + rest.1)[i]) {
        if i > 0 { assert ([f] + rest.1)[i] == rest.1[i - 1]; }
      }
    }
  }

  /** Once the table is full, asking for more adds nothing. */
  lemma {:induction false} GrowStuck(fat: seq<nat>, prev: nat, n: nat, count: nat)
    requires prev < |fat| && n <= count && |Grow(fat, prev, n).1| == n
    requires FirstFree(Grow(fat, prev, n).0, 2) == None
    ensures Grow(fat, prev, count) == Grow(fat, prev, n)
    decreases n
  {
    if n > 0 {
      var f := FirstFree(fat, 2).value;
      GrowStuck(Append(fat, prev, f), f, n - 1, count - 1);
    }
  }

  /** chain_grow after n complete turns. */
  ghost predicate Growing(d0: Disk, d: Disk, g: Geo, tail: nat, n: nat, added: seq<nat>, prev: nat)
    requires GeoOk(g, |d0|) && tail < Entries(g)
  {
    && |d| == |d0| && |added| == n && prev < Entries(g)
    && prev == (if n == 0 then tail else Last(added))
    && Grow(Fat(d0, g, 0), tail, n) == (Fat(d, g, 0), added)
    && (forall i :: 0 <= i < n ==> 2 <= added[i] < Entries(g) && Data(d, g, added[i]) == Zeros(512))
    && DataKept(d0, d, g, Fat(d0, g, 0))
    && (Mirrored(d0, g) ==> Mirrored(d, g))
  }

  /** What a call of chain_grow leaves: all clusters appended, the disk full, or a device error
      part-way.  Added clusters are zeroed and the data of used clusters is untouched. */
  ghost predicate ChainGrown(d0: Disk, d: Disk, g: Geo, tail: nat, count: nat, r: int, added: seq<nat>)
    requires GeoOk(g, |d0|) && tail < Entries(g)
  {
    && |d| == |d0| && |added| <= count && (r == 0 || r == ENOSPC || r == DEVERR)
    && (r != DEVERR ==> Grow(Fat(d0, g, 0), tail, count) == (Fat(d, g, 0), added) && (r == 0 <==> |added| == count))
    && (r != DEVERR && Mirrored(d0, g) ==> Mirrored(d, g))
    && added == Grow(Fat(d0, g, 0), tail, |added|).1
    && (r == DEVERR ==> exists k: nat :: |added| <= k <= |added| + 1 && PartlyGrown(Fat(d0, g, 0), tail, k, Fat(d, g, 0)))
    && (forall i :: 0 <= i < |added| ==> 2 <= added[i] < Entries(g) && Data(d, g, added[i]) == Zeros(512))
    && DataKept(d0, d, g, Fat(d0, g, 0))
  }

  lemma TurnKeepsData(d0: Disk, d1: Disk, d2: Disk, g: Geo, tail: nat, n: nat, added: seq<nat>, prev: nat, r: int, f: nat)
    requires GeoOk(g, |d0|) && tail < Entries(g) && Growing(d0, d1, g, tail, n, added, prev) && Appended(d1, d2, g, prev, r, f)
    ensures |d2| == |d1| && DataKept(d0, d2, g, Fat(d0, g, 0))
    ensures forall i :: 0 <= i < n ==> Data(d2, g, added[i]) == Zeros(512)
  {
    hide Fat;
    GrownFree(Fat(d0, g, 0), tail, n);
  }

  lemma GrowStarts(d: Disk, g: Geo, tail: nat, count: nat)
    requires GeoOk(g, |d|) && tail < Entries(g)
    ensures Growing(d, d, g, tail, 0, [], tail) && ChainGrown(d, d, g, tail, count, DEVERR, [])
  {
    assert Grow(Fat(d, g, 0), tail, 0) == (Fat(d, g, 0), []);
    assert PartlyGrown(Fat(d, g, 0), tail, 0, Fat(d, g, 0));
  }

  lemma GrowFinished(d0: Disk, d: Disk, g: Geo, tail: nat, n: nat, added: seq<nat>, prev: nat)
    requires GeoOk(g, |d0|) && tail < Entries(g) && Growing(d0, d, g, tail, n, added, prev)
    ensures ChainGrown(d0, d, g, tail, n, 0, added)
  {
  }

  lemma PrevInRange(d0: Disk, d: Disk, g: Geo, tail: nat, n: nat, added: seq<nat>, prev: nat)
    requires GeoOk(g, |d0|) && tail < Entries(g) && Growing(d0, d, g, tail, n, added, prev)
    ensures prev < Entries(g)
  {
  }

  lemma FoundInRange(d: Disk, d': Disk, g: Geo, prev: nat, f: nat)
    requires GeoOk(g, |d|) && prev < Entries(g) && Appended(d, d', g, prev, 0, f)
    ensures 2 <= f < Entries(g)
  {
  }

  lemma GrowTurn(d0: Disk, d1: Disk, d2: Disk, g: Geo, tail: nat, n: nat, added: seq<nat>, prev: nat, f: nat)
    requires GeoOk(g, |d0|) && tail < Entries(g) && Growing(d0, d1, g, tail, n, added, prev) && Appended(d1, d2, g, prev, 0, f)
    ensures Growing(d0, d2, g, tail, n + 1, added + [f], f)
  {
    hide Fat, Mirrored, DataKept;
    TurnKeepsData(d0, d1, d2, g, tail, n, added, prev, 0, f);
    GrowSnoc(Fat(d0, g, 0), tail, n);
  }

  lemma GrowEnded(d0: Disk, d1: Disk, d2: Disk, g: Geo, tail: nat, n: nat, count: nat, added: seq<nat>, prev: nat, r: int, f: nat)
    requires GeoOk(g, |d0|) && tail < Entries(g) && Growing(d0, d1, g, tail, n, added, prev) && Appended(d1, d2, g, prev, r, f)
    requires r != 0 && n < count
    ensures ChainGrown(d0, d2, g, tail, count, r, added)
  {
    hide Fat, Mirrored, DataKept;
    var fat0 := Fat(d0, g, 0);
    TurnKeepsData(d0, d1, d2, g, tail, n, added, prev, r, f);
    if r == ENOSPC {
      GrowStuck(fat0, tail, n, count);
    } else {
      GrowSnoc(fat0, tail, n);
      assert PartlyGrown(fat0, tail, n, Fat(d2, g, 0)) || PartlyGrown(fat0, tail, n + 1, Fat(d2, g, 0));
    }
  }

  /** chain_free has zeroed the first `done` clusters of xs and touched nothing else. */
  ghost predicate ChainFreed(d0: Disk, d: Disk, g: Geo, xs: seq<nat>, r: int, done: nat)
    requires GeoOk(g, |d0|) && forall i :: 0 <= i < |xs| ==> xs[i] < Entries(g)
  {
    && |d| == |d0| && done <= |xs| && (r == 0 || r == DEVERR)
    && Fat(d, g, 0) == Release(Fat(d0, g, 0), xs, done)
    && (forall c :: 2 <= c < Entries(g) ==> Data(d, g, c) == Data(d0, g, c))
    && (r == 0 && Mirrored(d0, g) ==> Mirrored(d, g))
  }

  lemma FreeStarts(d: Disk, g: Geo, xs: seq<nat>)
    requires GeoOk(g, |d|) && forall i :: 0 <= i < |xs| ==> xs[i] < Entries(g)
    ensures ChainFreed(d, d, g, xs, 0, 0)
  {
  }

  /** The entry about to be freed still links to the next cluster of the chain. */
  lemma NextInChain(d0: Disk, d: Disk, g: Geo, xs: seq<nat>, done: nat)
    requires GeoOk(g, |d0|) && done < |xs| && IsChain(Fat(d0, g, 0), xs) && Distinct(xs)
    requires ChainFreed(d0, d, g, xs, 0, done)
    ensures |d| == |d0| && xs[done] < Entries(g)
    ensures Fat(d, g, 0)[xs[done]] == Fat(d0, g, 0)[xs[done]]
    ensures if done + 1 < |xs| then Fat(d0, g, 0)[xs[done]] == xs[done + 1] else IsEoc(Fat(d0, g, 0)[xs[done]])
  {
    ReleaseAt(Fat(d0, g, 0), xs, done);
  }

  lemma FreeEnds(d0: Disk, d1: Disk, d2: Disk, g: Geo, xs: seq<nat>, done: nat, r: int, wrote: bool) returns (after: nat)
    requires GeoOk(g, |d0|) && done < |xs| && forall i :: 0 <= i < |xs| ==> xs[i] < Entries(g)
    requires ChainFreed(d0, d1, g, xs, 0, done) && |d1| == |d0| && (r == 0 || r == DEVERR)
    requires if wrote then EntrySet(d1, d2, g, xs[done], 0, r == 0) else d2 == d1
    ensures ChainFreed(d0, d2, g, xs, r, after) && done <= after <= done + 1 && (wrote && r == 0 ==> after == done + 1)
    ensures !wrote ==> after == done
  {
    after := if wrote && Fat(d2, g, 0) == Release(Fat(d0, g, 0), xs, done + 1) then done + 1 else done;
  }

  lemma MountedOk(d: Disk, g: Geo, nsect: nat)
    requires FreshlyMounted(d, g, nsect)
    ensures GeoOk(g, |d|)
  {
  }

  class Volume {
    var g: Geo
    var disk: Disk
    /** How many transfers the device has failed so far. */
    ghost var faults: nat

    ghost predicate Valid()
      reads this`g, this`disk
    {
      GeoOk(g, |disk|)
    }

    /** The table in use. */
    ghost function Table(): (r: seq<nat>)
      requires Valid()
      reads this`g, this`disk
      ensures |r| == Entries(g)
    {
      Fat(disk, g, 0)
    }

    constructor (geo: Geo, d: Disk)
      requires GeoOk(geo, |d|)
      ensures Valid() && g == geo && disk == d
    {
      g := geo;
      disk := d;
      faults := 0;
    }

    method SecRead(lba: nat) returns (r: int, sec: Sector)
      modifies this`faults
      ensures (r == 0 || r == DEVERR) && faults >= old(faults)
      ensures r == 0 <==> lba < |disk| && faults == old(faults)
      ensures r == 0 ==> sec == disk[lba]
    {
      sec := Zeros(512);
      var fails: bool := *;
      if fails {
        faults := faults + 1;
        return DEVERR, sec;
      }
      if lba >= |disk| { return DEVERR, sec; }
      return 0, disk[lba];
    }

    method SecWrite(lba: nat, sec: Sector) returns (r: int)
      modifies this`disk, this`faults
      ensures (r == 0 || r == DEVERR) && faults >= old(faults)
      ensures r == 0 <==> lba < |old(disk)| && faults == old(faults)
      ensures disk == if r == 0 then old(disk)[lba := sec] else old(disk)
    {
      var fails: bool := *;
      if fails {
        faults := faults + 1;
        return DEVERR;
      }
      if lba >= |disk| { return DEVERR; }
      disk := disk[lba := sec];
      return 0;
    }

    /** fat_entry */
    method FatEntry(n: nat) returns (r: int, v: nat)
      requires Valid()
      modifies this`faults
      ensures (r == 0 || r == EIO || r == DEVERR) && faults >= old(faults)
      ensures r == EIO <==> n < 2 || n >= Entries(g)
      ensures r == DEVERR <==> faults > old(faults)
      ensures r == 0 ==> v == Table()[n]
    {
      if n < 2 || n >= Entries(g) { return EIO, 0; }
      EntryInRange(g, 0, n);
      var sec;
      r, sec := SecRead(g.reserved + n / 128);
      if r != 0 { return r, 0; }
      return 0, Rd32(sec, (n % 128) * 4);
    }

    /** fat_set_entry: read the sector once, write it to every copy. */
    method FatSetEntry(n: nat, v: nat) returns (r: int, ghost done: nat)
      requires Valid() && n < Entries(g) && v < 0x1_0000_0000
      modifies this`disk, this`faults
      ensures Valid() && |disk| == |old(disk)| && faults >= old(faults)
      ensures done <= g.nfats && (r == 0 <==> done == g.nfats) && (r == 0 || r == DEVERR)
      ensures r == 0 <==> faults == old(faults)
      ensures disk == SetCopies(old(disk), g, n, v, done)
    {
      hide SetCopies, Patched, Entries, Wr32;
      done := 0;
      OneMoreCopy(disk, g, n, v, 0);
      var rel := g.reserved + n / 128;
      var sec;
      r, sec := SecRead(rel);
      if r != 0 { return; }
      sec := Wr32(sec, (n % 128) * 4, v);
      var i := 0;
      while i < g.nfats
        invariant 0 <= i <= g.nfats && |disk| == |old(disk)| && done == i && r == 0 && faults == old(faults)
        invariant disk == SetCopies(old(disk), g, n, v, i) && sec == Patched(old(disk), g, n, v)
      {
        OneMoreCopy(old(disk), g, n, v, i);
        r := SecWrite(rel + i * g.fatsz, sec);
        if r != 0 { return; }
        i := i + 1;
        done := i;
      }
    }

    /** fat_set_entry by its effect on the table. */
    method SetEntry(n: nat, v: nat) returns (r: int)
      requires Valid() && n < Entries(g) && v < 0x1_0000_0000
      modifies this`disk, this`faults
      ensures Valid() && EntrySet(old(disk), disk, g, n, v, r == 0) && (r == 0 || r == DEVERR)
      ensures faults >= old(faults) && (r == 0 <==> faults == old(faults))
    {
      hide SetCopies, EntrySet;
      ghost var d0 := disk;
      ghost var done;
      r, done := FatSetEntry(n, v);
      EntryIsSet(d0, g, n, v, done);
    }

    /** chain_len on the chain xs */
    method ChainLen(first: nat, ghost xs: seq<nat>) returns (r: int, n: nat)
      requires Valid() && HeadedBy(Table(), first, xs)
      modifies this`faults
      ensures r == 0 ==> n == |xs|
      ensures (r == 0 || r == DEVERR) && faults >= old(faults) && (r == 0 <==> faults == old(faults))
    {
      LinksFit(Table(), xs);
      var c := first;
      n := 0;
      while c >= 2 && !IsEoc(c)
        invariant n <= |xs| && (if n < |xs| then c == xs[n] else c < 2 || IsEoc(c)) && faults == old(faults)
        decreases |xs| - n
      {
        r, c := FatEntry(c);
        if r != 0 { return; }
        n := n + 1;
        if n > g.clusters { return EIO, n; }
      }
      r := 0;
    }

    /** chain_seek from cluster number `idx` of the chain xs to number `want` */
    method ChainSeek(clus: nat, idx: nat, want: nat, ghost xs: seq<nat>) returns (r: int, at: nat, pos: nat)
      requires Valid() && xs != [] && HeadedBy(Table(), xs[0], xs)
      requires idx < |xs| && clus == xs[idx] && idx <= want
      modifies this`faults
      ensures r == 0 ==> pos == want < |xs| && at == xs[want]
      ensures (r == 0 || r == EIO || r == DEVERR) && faults >= old(faults) && (r == DEVERR <==> faults > old(faults))
      ensures r == EIO <==> want >= |xs| && faults == old(faults)
    {
      LinksFit(Table(), xs);
      at, pos := clus, idx;
      if at < 2 { return EIO, at, pos; }
      while pos < want
        invariant idx <= pos <= want && pos < |xs| && at == xs[pos] && faults == old(faults)
      {
        var next;
        r, next := FatEntry(at);
        if r != 0 { return; }
        assert pos < |xs| - 1 ==> Table()[xs[pos]] == xs[pos + 1];
        if next == 0 || IsEoc(next) { return EIO, at, pos; }
        at, pos := next, pos + 1;
      }
      r := 0;
    }

    /** The walk of chain_grow to the current tail of the chain xs. */
    method FindTail(first: nat, ghost xs: seq<nat>) returns (r: int, prev: nat)
      requires Valid() && HeadedBy(Table(), first, xs)
      modifies this`faults
      ensures r == 0 ==> prev == Last(xs)
      ensures (r == 0 || r == DEVERR) && faults >= old(faults) && (r == 0 <==> faults == old(faults))
    {
      LinksFit(Table(), xs);
      prev := first;
      if prev >= 2 {
        ghost var i := 0;
        while true
          invariant 0 <= i < |xs| && prev == xs[i] && prev < FAT_EOC && faults == old(faults)
          decreases |xs| - i
        {
          var next;
          r, next := FatEntry(prev);
          if r != 0 { return; }
          assert i < |xs| - 1 ==> Table()[xs[i]] == xs[i + 1];
          if next == 0 || IsEoc(next) { break; }
          prev := next;
          i := i + 1;
        }
      }
      r := 0;
    }

    /** The scan of chain_grow for a free entry. */
    method FindFree() returns (r: int, found: nat)
      requires Valid()
      modifies this`faults
      ensures r == 0 ==> FirstFree(Table(), 2) == if found == 0 then None else Some(found)
      ensures (r == 0 || r == DEVERR) && faults >= old(faults) && (r == 0 <==> faults == old(faults))
    {
      found := 0;
      var scn := 2;
      while scn < g.clusters + 2
        invariant 2 <= scn <= g.clusters + 2 && faults == old(faults)
        invariant FirstFree(Table(), 2) == FirstFree(Table(), scn)
      {
        var v;
        r, v := FatEntry(scn);
        if r != 0 { return; }
        if v == 0 { return 0, scn; }
        scn := scn + 1;
      }
      r := 0;
    }

    /** One turn of chain_grow: claim the first free cluster, zero it, link it behind prev. */
    method AppendCluster(prev: nat) returns (r: int, f: nat)
      requires Valid() && prev < Entries(g)
      modifies this`disk, this`faults
      ensures Valid() && Appended(old(disk), disk, g, prev, r, f)
      ensures faults >= old(faults) && (r == DEVERR <==> faults > old(faults))
    {
      hide Fat, EntryAt, Mirrored, EntrySet, Appended;
      ghost var d0 := disk;
      r, f := FindFree();
      if r != 0 { AppendFailed(d0, d0, d0, g, prev, r, 0); return r, 0; }
      if f == 0 { AppendFailed(d0, d0, d0, g, prev, ENOSPC, 0); return ENOSPC, 0; }
      r := SecWrite(DataLba(g, f), Zeros(512));
      if r != 0 { AppendFailed(d0, d0, d0, g, prev, r, f); return; }
      ghost var d1 := disk;
      r := SetEntry(f, FAT_EOC);
      if r != 0 { AppendFailed(d0, d1, disk, g, prev, r, f); return; }
      ghost var d2 := disk;
      if prev >= 2 {
        r := SetEntry(prev, f);
      }
      AppendDone(d0, d1, d2, disk, g, prev, r, f);
    }

    /** chain_grow: append `count` zeroed clusters to the chain xs headed by `first`. */
    method ChainGrow(first: nat, count: nat, ghost xs: seq<nat>) returns (r: int, first': nat, ghost added: seq<nat>)
      requires Valid() && HeadedBy(Table(), first, xs)
      modifies this`disk, this`faults
      ensures Valid() && Last(xs) < Entries(g)
      ensures faults >= old(faults) && (r == DEVERR <==> faults > old(faults))
      ensures ChainGrown(old(disk), disk, g, Last(xs), count, r, added)
      ensures first' == if xs == [] && added != [] then added[0] else first
    {
      hide Growing, ChainGrown, Appended, Fat;
      TailInRange(Table(), xs);
      added, first' := [], first;
      ghost var d0, tail := disk, Last(xs);
      GrowStarts(d0, g, tail, count);
      var prev;
      r, prev := FindTail(first, xs);
      if r != 0 { return; }
      var n := 0;
      while n < count
        invariant n <= count && r == 0 && Valid() && |added| == n && faults == old(faults)
        invariant Growing(d0, disk, g, tail, n, added, prev)
        invariant first' == if xs == [] && added != [] then added[0] else first
        invariant prev < 2 <==> xs == [] && n == 0
      {
        ghost var d1 := disk;
        PrevInRange(d0, disk, g, tail, n, added, prev);
        var f;
        r, f := AppendCluster(prev);
        if r != 0 {
          GrowEnded(d0, d1, disk, g, tail, n, count, added, prev, r, f);
          return;
        }
        GrowTurn(d0, d1, disk, g, tail, n, added, prev, f);
        FoundInRange(d1, disk, g, prev, f);
        if prev < 2 { first' := f; }
        prev := f;
        added := added + [f];
        n := n + 1;
      }
      GrowFinished(d0, disk, g, tail, n, added, prev);
    }

    /** chain_free of the chain xs headed by `first`. */
    method ChainFree(first: nat, ghost xs: seq<nat>) returns (r: int, ghost done: nat)
      requires Valid() && HeadedBy(Table(), first, xs)
      modifies this`disk, this`faults
      ensures Valid() && ChainFreed(old(disk), disk, g, xs, r, done)
      ensures r == 0 ==> done == |xs|
      ensures faults >= old(faults) && (r == 0 <==> faults == old(faults))
    {
      hide Fat, Mirrored, EntrySet, ChainFreed;
      ghost var d0 := disk;
      LinksFit(Table(), xs);
      done := 0;
      FreeStarts(d0, g, xs);
      var c := first;
      r := 0;
      while c >= 2 && !IsEoc(c)
        invariant done <= |xs| && r == 0 && Valid() && faults == old(faults) && ChainFreed(d0, disk, g, xs, 0, done)
        invariant if done < |xs| then c == xs[done] else c < 2 || IsEoc(c)
        decreases |xs| - done
      {
        ghost var d1 := disk;
        var next;
        r, next := FatEntry(c);
        NextInChain(d0, disk, g, xs, done);
        if r != 0 { done := FreeEnds(d0, d1, disk, g, xs, done, r, false); return; }
        r := SetEntry(c, 0);
        if r != 0 {
          done := FreeEnds(d0, d1, disk, g, xs, done, r, true);
          return;
        }
        done := FreeEnds(d0, d1, disk, g, xs, done, 0, true);
        c := next;
      }
    }

    // ---- format and mount --------------------------------------------------------------

    /** fat32_mkfs on a partition of nsect sectors; `done` counts the sectors written. */
    method Mkfs(nsect: nat) returns (r: int, ghost done: nat)
      requires nsect <= |disk| && nsect < TWO64
      modifies this`disk, this`faults
      ensures |disk| == |old(disk)| && faults >= old(faults) && (r == 0 || r == EINVAL || r == EIO || r == DEVERR)
      ensures r == EINVAL <==> Clusters(nsect) < 65525
      ensures r == EINVAL || r == EIO <==> !Accepts(nsect)
      ensures r == 0 ==> faults == old(faults)
      ensures nsect < TWO32 ==> (r == 0 <==> Accepts(nsect) && faults == old(faults))
      ensures !Accepts(nsect) ==> disk == old(disk) && faults == old(faults)
      ensures r == 0 && nsect < TWO32 ==> IsFormatted(disk, nsect)
      ensures disk == PartFormatted(old(disk), nsect, done) && done <= FormatWrites(nsect)
      ensures r == 0 <==> done == FormatWrites(nsect)
    {
      done := 0;
      OneWrite(disk, nsect, 0);
      hide IsFormatted, FormatWrite, PartFormatted, Clusters, DataRel, FormatWrites;
      var clusters, dataRel := Clusters(nsect), DataRel(nsect);
      NoWrites(nsect);
      if clusters < 65525 { return EINVAL, 0; }
      if dataRel + clusters > nsect { return EIO, 0; }
      r, done := WriteImage(nsect);
    }

    /** The writes of a format whose size is accepted. */
    method WriteImage(nsect: nat) returns (r: int, ghost done: nat)
      requires nsect <= |disk| && nsect < TWO64 && Accepts(nsect)
      modifies this`disk, this`faults
      ensures |disk| == |old(disk)| && faults >= old(faults) && (r == 0 || r == DEVERR) && (r == 0 ==> faults == old(faults))
      ensures nsect < TWO32 ==> (r == 0 <==> faults == old(faults))
      ensures r == 0 && nsect < TWO32 ==> IsFormatted(disk, nsect)
      ensures disk == PartFormatted(old(disk), nsect, done) && done <= FormatWrites(nsect)
      ensures r == 0 <==> done == FormatWrites(nsect)
    {
      hide IsFsInfo, BootSector, CopyWritten, IsFormatted, FatSize, FormatWrite, PartFormatted, Accepts, Clusters;
      var dataRel := DataRel(nsect);
      ghost var d := disk;
      if nsect < TWO32 { LayoutFits(nsect); }
      r, done := WriteHeader(nsect);
      if r != 0 { return; }
      r, done := WriteFats(nsect, d);
      if r != 0 { return; }
      if nsect < TWO32 { ImageComplete(disk, nsect); }
      OneWrite(d, nsect, done);
      LastWrite(nsect);
      r := SecWrite(dataRel, Zeros(512));
      if r == 0 { done := done + 1; }
    }

    /** The boot sector and FSInfo with their backups. */
    method WriteHeader(nsect: nat) returns (r: int, ghost done: nat)
      modifies this`disk, this`faults
      ensures |disk| == |old(disk)| && (r == 0 || r == DEVERR) && faults >= old(faults)
      ensures r == 0 <==> |disk| > 7 && faults == old(faults)
      ensures r == 0 ==> disk[0] == disk[6] == BootSector(nsect, FatSize(nsect)) && IsFsInfo(disk[1]) && disk[7] == disk[1]
      ensures disk == PartFormatted(old(disk), nsect, done) && done <= 4 && (r == 0 <==> done == 4)
    {
      var boot, info := BootSector(nsect, FatSize(nsect)), FsInfo();
      ghost var d := disk;
      HeaderWrites(nsect);
      FsInfoIs();
      hide IsFsInfo, BootSector, FsInfo, FormatWrite, PartFormatted;
      done := 0;
      OneWrite(d, nsect, 0);
      r := SecWrite(0, boot);
      if r != 0 { return; }
      done := 1;
      OneWrite(d, nsect, 1);
      r := SecWrite(6, boot);
      if r != 0 { return; }
      done := 2;
      OneWrite(d, nsect, 2);
      r := SecWrite(1, info);
      if r != 0 { return; }
      done := 3;
      OneWrite(d, nsect, 3);
      r := SecWrite(7, info);
      if r == 0 { done := 4; }
    }

    method WriteFats(nsect: nat, ghost d: Disk) returns (r: int, ghost done: nat)
      requires disk == PartFormatted(d, nsect, 4)
      modifies this`disk, this`faults
      ensures |disk| == |old(disk)| && (r == 0 || r == DEVERR) && faults >= old(faults)
      ensures r == 0 <==> (FatSize(nsect) == 0 || RESERVED + 2 * FatSize(nsect) <= |disk|) && faults == old(faults)
      ensures r == 0 ==> forall i :: 0 <= i < RESERVED && i < |disk| ==> disk[i] == old(disk)[i]
      ensures r == 0 && RESERVED + 2 * FatSize(nsect) <= |disk| ==>
        CopyWritten(disk, RESERVED, FatSize(nsect)) && CopyWritten(disk, RESERVED + FatSize(nsect), FatSize(nsect))
      ensures disk == PartFormatted(d, nsect, done) && done <= 4 + 2 * FatSize(nsect)
      ensures r == 0 <==> done == 4 + 2 * FatSize(nsect)
    {
      hide FatHead, FatSize, PartFormatted;
      r, done := WriteCopy(nsect, 0, d);
      if r != 0 { return; }
      r, done := WriteCopy(nsect, 1, d);
    }

    /** One copy of the FAT. */
    method WriteCopy(nsect: nat, copy: nat, ghost d: Disk) returns (r: int, ghost done: nat)
      requires copy < 2 && disk == PartFormatted(d, nsect, 4 + copy * FatSize(nsect))
      modifies this`disk, this`faults
      ensures |disk| == |old(disk)| && (r == 0 || r == DEVERR) && faults >= old(faults)
      ensures var fatsz, base := FatSize(nsect), RESERVED + copy * FatSize(nsect);
        && (r == 0 <==> (fatsz == 0 || base + fatsz <= |disk|) && faults == old(faults))
        && (forall i :: 0 <= i < base && i < |disk| ==> disk[i] == old(disk)[i])
        && (r == 0 && base <= |disk| ==> CopyWritten(disk, base, fatsz))
      ensures disk == PartFormatted(d, nsect, done) && 4 + copy * FatSize(nsect) <= done
      ensures if r == 0 then done == 4 + (copy + 1) * FatSize(nsect) else done < 4 + (copy + 1) * FatSize(nsect)
    {
      hide FatHead, FatSize, FormatWrite, PartFormatted;
      var fatsz := FatSize(nsect);
      var base := RESERVED + copy * fatsz;
      var s := 0;
      r, done := 0, 4 + copy * fatsz;
      while s < fatsz
        invariant 0 <= s <= fatsz && r == 0 && |disk| == |old(disk)| && faults == old(faults)
        invariant s > 0 ==> base + s <= |disk|
        invariant forall i :: 0 <= i < base && i < |disk| ==> disk[i] == old(disk)[i]
        invariant base <= |disk| ==> CopyWritten(disk, base, s)
        invariant disk == PartFormatted(d, nsect, done) && done == 4 + copy * fatsz + s
      {
        OneWrite(d, nsect, done);
        CopyWrites(nsect, copy, s);
        r := SecWrite(base + s, FatSector(s));
        if r != 0 { return; }
        s, done := s + 1, done + 1;
      }
    }

    /** fat32_sniff on a window of nsect sectors */
    method Sniff(nsect: nat) returns (yes: bool)
      modifies this`faults
      ensures faults >= old(faults)
      ensures yes <==> nsect != 0 && |disk| > 0 && faults == old(faults) && Sniffs(disk[0], nsect)
    {
      if nsect == 0 { return false; }
      var r, bs := SecRead(0);
      if r != 0 { return false; }
      return Sniffs(bs, nsect);
    }

    /** fat_mount; `room`: its allocations succeed. */
    method Mount(room: bool) returns (r: int)
      modifies this`g, this`faults
      ensures (r == 0 || r == EINVAL || r == ENOMEM || r == DEVERR) && faults >= old(faults)
      ensures r == DEVERR <==> |disk| == 0 || faults > old(faults)
      ensures r != DEVERR ==> (r == EINVAL <==> Mounts(disk[0]).None?) && (r == ENOMEM <==> Mounts(disk[0]).Some? && !room)
      ensures r == 0 ==> var (p, clusters) := Mounts(disk[0]).value; g == Geo(p.res, p.nfat, p.fatsz, clusters)
      ensures r != 0 ==> g == old(g)
    {
      var bs;
      r, bs := SecRead(0);
      if r != 0 { return; }
      var m := Mounts(bs);
      if m.None? { return EINVAL; }
      var (p, clusters) := m.value;
      if !room { return ENOMEM; }
      g := Geo(p.res, p.nfat, p.fatsz, clusters);
    }

    /** Formatting and mounting gives a usable volume whose FAT copies agree on the fresh table. */
    method FormatAndMount(nsect: nat, room: bool) returns (r: int)
      requires nsect <= |disk| && nsect < TWO32
      modifies this
      ensures faults >= old(faults) && (r == 0 <==> Accepts(nsect) && faults == old(faults) && room)
      ensures r == 0 ==> Valid() && FreshlyMounted(disk, g, nsect)
    {
      hide IsFormatted, FreshlyMounted, Mounts, Accepts, FatSize, Clusters;
      ghost var done;
      r, done := Mkfs(nsect);
      if r != 0 { return; }
      FreshVolume(disk, nsect);
      r := Mount(room);
      if r == 0 {
        MountIsFresh(disk, g, nsect);
        MountedOk(disk, g, nsect);
      }
    }
  }
}
