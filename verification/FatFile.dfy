/** File data on a mounted volume: fat_read, fat_write_range, fat_truncate and dirent_sync of
    fs/fat32.c, refining one sequence of bytes per file. */
module FatFile {
  import opened Bytes
  import opened Errno
  import opened Limits
  import opened Seqs
  import opened Wrappers
  import opened FatTable
  import opened FatDisk
  import opened FatFormat
  import opened FatVolume

  const FAT_MAX_FILE: nat := 8 * 1024 * 1024

  // ---- the bytes of a chain --------------------------------------------------------------

  ghost predicate InData(g: Geo, xs: seq<nat>) {
    forall i :: 0 <= i < |xs| ==> 2 <= xs[i] < Entries(g)
  }

  function ByteOf(d: Disk, g: Geo, xs: seq<nat>, p: nat): byte
    requires GeoOk(g, |d|) && InData(g, xs) && p < 512 * |xs|
  {
    Data(d, g, xs[p / 512])[p % 512]
  }

  /** All bytes of the clusters of xs in order. */
  function Room(d: Disk, g: Geo, xs: seq<nat>): (r: seq<byte>)
    requires GeoOk(g, |d|) && InData(g, xs)
    ensures |r| == 512 * |xs|
  {
    seq(512 * |xs|, p requires 0 <= p < 512 * |xs| => ByteOf(d, g, xs, p))
  }

  /** The same table, and no data sector outside the clusters cs differs. */
  ghost predicate DataOnly(d: Disk, d': Disk, g: Geo, cs: seq<nat>)
    requires GeoOk(g, |d|)
  {
    && |d'| == |d| && Fat(d', g, 0) == Fat(d, g, 0) && (Mirrored(d, g) ==> Mirrored(d', g))
    && forall c :: 2 <= c < Entries(g) && c !in cs ==> Data(d', g, c) == Data(d, g, c)
  }

  lemma SameData(d: Disk, d': Disk, g: Geo, xs: seq<nat>)
    requires GeoOk(g, |d|) && |d'| == |d| && InData(g, xs)
    requires forall i :: 0 <= i < |xs| ==> Data(d', g, xs[i]) == Data(d, g, xs[i])
    ensures Room(d', g, xs) == Room(d, g, xs)
  {
    forall p | 0 <= p < 512 * |xs| ensures ByteOf(d', g, xs, p) == ByteOf(d, g, xs, p) {
      assert 0 <= p / 512 < |xs|;
    }
  }

  lemma DataOnlyTrans(d: Disk, d1: Disk, d2: Disk, g: Geo, cs: seq<nat>)
    requires GeoOk(g, |d|) && DataOnly(d, d1, g, cs) && DataOnly(d1, d2, g, cs)
    ensures DataOnly(d, d2, g, cs)
  {
  }

  lemma RoomPrefix(d: Disk, g: Geo, xs: seq<nat>, ys: seq<nat>)
    requires GeoOk(g, |d|) && InData(g, xs + ys)
    ensures InData(g, xs) && Room(d, g, xs) == Room(d, g, xs + ys)[..512 * |xs|]
  {
    assert forall i :: 0 <= i < |xs| ==> (xs + ys)[i] == xs[i];
    forall p | 0 <= p < 512 * |xs| ensures ByteOf(d, g, xs, p) == ByteOf(d, g, xs + ys, p) {
      assert 0 <= p / 512 < |xs|;
    }
  }

  lemma PosOf(p: nat, q: nat)
    requires q / 512 == p / 512
    ensures q % 512 - p % 512 == q - p
  {
  }

  /** Writing a patched sector back splices the patch into the bytes of the chain. */
  lemma PatchRoom(d: Disk, g: Geo, xs: seq<nat>, pos: nat, patch: seq<byte>)
    requires GeoOk(g, |d|) && InData(g, xs) && Distinct(xs)
    requires pos / 512 < |xs| && pos % 512 + |patch| <= 512 && pos + |patch| <= 512 * |xs|
    ensures var c := xs[pos / 512]; var d' := d[DataLba(g, c) := Splice(Data(d, g, c), pos % 512, patch)];
      DataOnly(d, d', g, xs) && Room(d', g, xs) == Splice(Room(d, g, xs), pos, patch)
  {
    var k := pos / 512;
    var c := xs[k];
    var sec: Sector := Splice(Data(d, g, c), pos % 512, patch);
    var d' := d[DataLba(g, c) := sec];
    DataFrames(d, g, c, sec);
    forall e | 2 <= e < Entries(g) && e != c ensures Data(d', g, e) == Data(d, g, e) {}
    hide DataStart, Fat, Mirrored;
    forall p | 0 <= p < 512 * |xs|
      ensures ByteOf(d', g, xs, p) == if pos <= p < pos + |patch| then patch[p - pos] else ByteOf(d, g, xs, p)
    {
      assert 0 <= p / 512 < |xs|;
      if p / 512 == k {
        PosOf(pos, p);
      } else {
        assert xs[p / 512] != c;
        assert !(pos <= p < pos + |patch|);
      }
    }
    assert Room(d', g, xs) == Splice(Room(d, g, xs), pos, patch);
  }

  // ---- growth -------------------------------------------------------------------------------

  /** The table after some complete allocations behind the tail of xs, and possibly one more
      cluster marked but not linked; xs' is the chain then. */
  ghost predicate Grew(fat: seq<nat>, fat': seq<nat>, xs: seq<nat>, xs': seq<nat>) {
    && Last(xs) < |fat| && |fat'| == |fat| && xs <= xs'
    && (exists k: nat :: PartlyGrown(fat, Last(xs), k, fat') && xs' <= xs + Grow(fat, Last(xs), k).1)
    && forall i :: |xs| <= i < |xs'| ==> Free(fat, xs'[i])
  }

  lemma {:induction false} TakesFree(fat: seq<nat>, prev: nat, n: nat)
    requires prev < |fat|
    ensures forall i :: 0 <= i < |Grow(fat, prev, n).1| ==> Free(fat, Grow(fat, prev, n).1[i])
    decreases n
  {
    if n > 0 && FirstFree(fat, 2).Some? {
      var f := FirstFree(fat, 2).value;
      var rest := Grow(Append(fat, prev, f), f, n - 1);
      TakesFree(Append(fat, prev, f), f, n - 1);
      assert Grow(fat, prev, n) == (rest.0, [f] + rest.1);
      forall i | 0 <= i < |[f] + rest.1| ensures Free(fat, ([f] + rest.1)[i]) {
        if i > 0 { assert Free(Append(fat, prev, f), rest.1[i - 1]); }
      }
    }
  }

  lemma OrphanChain(fat: seq<nat>, xs: seq<nat>, f: nat)
    requires Acyclic(fat, xs) && Free(fat, f)
    ensures Acyclic(fat[f := FAT_EOC], xs)
  {
    forall i | 0 <= i < |xs| ensures xs[i] != f { ChainUsed(fat, xs, i); }
  }

  lemma PartialChain(fat: seq<nat>, xs: seq<nat>, k: nat, fat': seq<nat>)
    requires 2 <= |fat| <= FAT_EOC && Acyclic(fat, xs) && Last(xs) < |fat| && PartlyGrown(fat, Last(xs), k, fat')
    ensures |fat'| == |fat| && Acyclic(fat', xs + Grow(fat, Last(xs), k).1) && |Grow(fat, Last(xs), k).1| == k
    ensures forall i :: 0 <= i < k ==> Free(fat, Grow(fat, Last(xs), k).1[i])
  {
    hide Acyclic;
    var w := Grow(fat, Last(xs), k);
    GrowChain(fat, xs, k);
    TakesFree(fat, Last(xs), k);
    if fat' != w.0 {
      OrphanChain(w.0, xs + w.1, FirstFree(w.0, 2).value);
    }
  }

  /** How many clusters chain_grow got as far as linking. */
  lemma Turns(d0: Disk, d: Disk, g: Geo, tail: nat, count: nat, r: int, added: seq<nat>) returns (k: nat)
    requires GeoOk(g, |d0|) && tail < Entries(g) && ChainGrown(d0, d, g, tail, count, r, added)
    ensures |d| == |d0| && PartlyGrown(Fat(d0, g, 0), tail, k, Fat(d, g, 0))
    ensures |added| <= k && added == Grow(Fat(d0, g, 0), tail, k).1[..|added|]
    ensures r == 0 ==> k == |added| == count
  {
    hide Fat, DataKept, Mirrored;
    var fat, fat' := Fat(d0, g, 0), Fat(d, g, 0);
    k := |added|;
    if r == DEVERR {
      k :| |added| <= k <= |added| + 1 && PartlyGrown(fat, tail, k, fat');
    } else {
      GrowTrims(fat, tail, count);
    }
    PrefixGrow(fat, tail, |added|, k);
  }

  lemma ChainStarts(fat: seq<nat>, fat': seq<nat>, xs: seq<nat>, first: nat, first': nat, added: seq<nat>, new': seq<nat>)
    requires HeadedBy(fat, first, xs) && |fat'| == |fat| && Acyclic(fat', xs + new') && added <= new'
    requires first' == if xs == [] && added != [] then added[0] else first
    ensures HeadedBy(fat', first', if xs == [] && added == [] then [] else xs + new')
  {
  }

  /** After chain_grow, whatever it returned, the recorded first cluster heads a chain that
      extends the old one by formerly free clusters. */
  lemma GrownChain(d0: Disk, d: Disk, g: Geo, xs: seq<nat>, first: nat, first': nat, count: nat, r: int, added: seq<nat>)
      returns (xs': seq<nat>)
    requires GeoOk(g, |d0|) && HeadedBy(Fat(d0, g, 0), first, xs) && Last(xs) < Entries(g)
    requires ChainGrown(d0, d, g, Last(xs), count, r, added)
    requires first' == if xs == [] && added != [] then added[0] else first
    ensures |d| == |d0| && HeadedBy(Fat(d, g, 0), first', xs')
    ensures Grew(Fat(d0, g, 0), Fat(d, g, 0), xs, xs')
    ensures r == 0 ==> |xs'| == |xs| + count
  {
    hide Fat, ChainGrown, PartlyGrown, IsChain, Distinct, Grow;
    var fat := Fat(d0, g, 0);
    var k := Turns(d0, d, g, Last(xs), count, r, added);
    PartialChain(fat, xs, k, Fat(d, g, 0));
    var new' := Grow(fat, Last(xs), k).1;
    ChainStarts(fat, Fat(d, g, 0), xs, first, first', added, new');
    xs' := if xs == [] && added == [] then [] else xs + new';
  }

  /** Asking for as many clusters as were to be had gives the same table. */
  lemma {:induction false} GrowTrims(fat: seq<nat>, prev: nat, count: nat)
    requires prev < |fat|
    ensures Grow(fat, prev, |Grow(fat, prev, count).1|) == Grow(fat, prev, count)
    decreases count
  {
    if count > 0 && FirstFree(fat, 2).Some? {
      var f := FirstFree(fat, 2).value;
      GrowTrims(Append(fat, prev, f), f, count - 1);
    }
  }

  lemma {:induction false} PrefixGrow(fat: seq<nat>, prev: nat, j: nat, k: nat)
    requires prev < |fat| && j <= k && |Grow(fat, prev, k).1| == k
    ensures Grow(fat, prev, j).1 == Grow(fat, prev, k).1[..j]
    decreases j
  {
    if j > 0 {
      var f := FirstFree(fat, 2).value;
      PrefixGrow(Append(fat, prev, f), f, j - 1, k - 1);
      var rest := Grow(Append(fat, prev, f), f, k - 1).1;
      assert ([f] + rest)[..j] == [f] + rest[..j - 1];
    }
  }

  lemma KeptRoom(d0: Disk, d: Disk, g: Geo, xs: seq<nat>)
    requires GeoOk(g, |d0|) && |d| == |d0| && IsChain(Fat(d0, g, 0), xs) && DataKept(d0, d, g, Fat(d0, g, 0))
    ensures InData(g, xs) && Room(d, g, xs) == Room(d0, g, xs)
  {
    var fat := Fat(d0, g, 0);
    hide Fat;
    forall i | 0 <= i < |xs| ensures Data(d, g, xs[i]) == Data(d0, g, xs[i]) {
      ChainUsed(fat, xs, i);
    }
    SameData(d0, d, g, xs);
  }

  // ---- the steps of a write, on byte sequences ------------------------------------------------

  /** The bytes begin with s, and from there to `upto` they are zeros. */
  ghost predicate Filled(room: seq<byte>, s: seq<byte>, upto: nat) {
    && s <= room
    && forall i :: |s| <= i < upto && i < |room| ==> room[i] == 0
  }

  lemma FillMore(room: seq<byte>, s: seq<byte>, pos: nat, n: nat)
    requires Filled(room, s, pos) && |s| <= pos && pos + n <= |room|
    ensures Filled(Splice(room, pos, Zeros(n)), s, pos + n)
  {
    var r := Splice(room, pos, Zeros(n));
    assert r[..|s|] == s by {
      forall i | 0 <= i < |s| ensures r[i] == s[i] { assert room[i] == s[i]; }
    }
  }

  lemma SpliceMore(room: seq<byte>, off: nat, data: seq<byte>, done: nat, n: nat)
    requires done + n <= |data| && off + |data| <= |room|
    ensures Splice(Splice(room, off, data[..done]), off + done, data[done..][..n]) == Splice(room, off, data[..done + n])
  {
  }

  /** A filled room with data laid over it holds what WriteAt says. */
  lemma WrittenPrefix(room: seq<byte>, s: seq<byte>, off: nat, data: seq<byte>, n: nat)
    requires off + |data| <= |room| && Filled(room, s, off) && n <= |WriteAt(s, off, data)|
    ensures Splice(room, off, data)[..n] == WriteAt(s, off, data)[..n]
  {
    var a, b := Splice(room, off, data), WriteAt(s, off, data);
    forall i | 0 <= i < n ensures a[i] == b[i] {
      if i < |s| { assert room[i] == s[i]; }
    }
  }

  lemma ZerosJoin(sec: seq<byte>, at: nat, n: nat, m: nat)
    requires at + n + m <= |sec|
    ensures Splice(Splice(sec, at, Zeros(n)), at + n, Zeros(m)) == Splice(sec, at, Zeros(n + m))
  {
  }

  // ---- the directory slot ------------------------------------------------------------------------

  /** dirent_sync's patch of the sector holding the file's 32-byte slot */
  function SlotPatched(sec: Sector, off: nat, first: nat, size: nat): Sector
    requires off + 32 <= 512
  {
    Wr32(Wr16(Wr16(sec, off + 26, first % 0x1_0000), off + 20, (first / 0x1_0000) % 0x1_0000), off + 28, size)
  }

  /** The slot at off records this first cluster and size. */
  predicate SlotNames(sec: Sector, off: nat, first: nat, size: nat)
    requires off + 32 <= 512
  {
    Rd16(sec, off + 26) + 0x1_0000 * Rd16(sec, off + 20) == first && Rd32(sec, off + 28) == size
  }

  /** Only the first-cluster and size fields of the slot at off differ. */
  predicate SlotOnly(sec: Sector, sec': Sector, off: nat) {
    forall i :: 0 <= i < 512 && !(off + 20 <= i < off + 22) && !(off + 26 <= i < off + 32) ==> sec'[i] == sec[i]
  }

  lemma SlotSynced(sec: Sector, off: nat, first: nat, size: nat)
    requires off + 32 <= 512
    ensures SlotOnly(sec, SlotPatched(sec, off, first, size), off)
    ensures first < 0x1_0000_0000 && size < 0x1_0000_0000 ==> SlotNames(SlotPatched(sec, off, first, size), off, first, size)
  {
    var s1 := Wr16(sec, off + 26, first % 0x1_0000);
    var s2 := Wr16(s1, off + 20, (first / 0x1_0000) % 0x1_0000);
    var s3 := Wr32(s2, off + 28, size);
    ReadBack16(sec, off + 26, first % 0x1_0000);
    ReadBack16(s1, off + 20, (first / 0x1_0000) % 0x1_0000);
    assert Rd16(s3, off + 26) == Rd16(s1, off + 26);
    assert Rd16(s3, off + 20) == Rd16(s2, off + 20);
    if size < 0x1_0000_0000 { ReadBack32(s2, off + 28, size); }
  }

  /** The cluster and byte offset of a file's directory slot, when it has one. */
  datatype Slot = Slot(clus: nat, off: nat)

  ghost predicate SlotOk(fat: seq<nat>, xs: seq<nat>, slot: Option<Slot>) {
    slot.Some? ==>
      2 <= slot.value.clus < |fat| && !Free(fat, slot.value.clus) && slot.value.clus !in xs && slot.value.off + 32 <= 512
  }

  /** All a call on one file may change: its own clusters, clusters that were free, and the
      first-cluster and size fields of its directory slot. */
  ghost predicate OnlyFile(d0: Disk, d: Disk, g: Geo, xs: seq<nat>, slot: Option<Slot>)
    requires GeoOk(g, |d0|)
  {
    && |d| == |d0|
    && (forall c :: 2 <= c < Entries(g) && !Free(Fat(d0, g, 0), c) && c !in xs && (slot.Some? ==> c != slot.value.clus) ==>
          Data(d, g, c) == Data(d0, g, c))
    && (slot.Some? && 2 <= slot.value.clus < Entries(g) ==>
          SlotOnly(Data(d0, g, slot.value.clus), Data(d, g, slot.value.clus), slot.value.off))
  }

  lemma OnlyFileFrom(d0: Disk, d1: Disk, d2: Disk, d3: Disk, g: Geo, xs: seq<nat>, xs': seq<nat>, slot: Option<Slot>)
    requires GeoOk(g, |d0|) && |d1| == |d0| && DataKept(d0, d1, g, Fat(d0, g, 0)) && DataOnly(d1, d2, g, xs')
    requires xs <= xs' && forall i :: |xs| <= i < |xs'| ==> Free(Fat(d0, g, 0), xs'[i])
    requires SlotOk(Fat(d0, g, 0), xs, slot) && Synced(d2, d3, g, slot)
    ensures OnlyFile(d0, d3, g, xs, slot)
  {
    var fat := Fat(d0, g, 0);
    hide Fat, Mirrored;
    forall i | 0 <= i < |xs'| ensures xs'[i] in xs || Free(fat, xs'[i]) {
      if i < |xs| { assert xs[i] == xs'[i]; }
    }
  }

  /** At most the slot's fields differ. */
  ghost predicate Synced(d: Disk, d': Disk, g: Geo, slot: Option<Slot>)
    requires GeoOk(g, |d|)
  {
    && |d'| == |d| && Fat(d', g, 0) == Fat(d, g, 0) && (Mirrored(d, g) ==> Mirrored(d', g))
    && (forall c :: 2 <= c < Entries(g) && (slot.Some? ==> c != slot.value.clus) ==> Data(d', g, c) == Data(d, g, c))
    && (slot.Some? && 2 <= slot.value.clus < Entries(g) ==>
          SlotOnly(Data(d, g, slot.value.clus), Data(d', g, slot.value.clus), slot.value.off))
  }

  lemma SlotWritten(d: Disk, g: Geo, xs: seq<nat>, slot: Slot, first: nat, size: nat)
    requires GeoOk(g, |d|) && SlotOk(Fat(d, g, 0), xs, Some(slot)) && InData(g, xs)
    ensures var d' := d[DataLba(g, slot.clus) := SlotPatched(Data(d, g, slot.clus), slot.off, first, size)];
      Synced(d, d', g, Some(slot)) && Room(d', g, xs) == Room(d, g, xs)
  {
    var sec := SlotPatched(Data(d, g, slot.clus), slot.off, first, size);
    var d' := d[DataLba(g, slot.clus) := sec];
    DataFrames(d, g, slot.clus, sec);
    SlotSynced(Data(d, g, slot.clus), slot.off, first, size);
    hide Fat, Mirrored, SlotPatched;
    forall i | 0 <= i < |xs| ensures Data(d', g, xs[i]) == Data(d, g, xs[i]) {
      assert xs[i] in xs;
    }
    SameData(d, d', g, xs);
  }

  /** Up to `upto` bytes a file of n clusters fits the file limit and the volume. */
  ghost predicate HasRoom(n: nat, fat: seq<nat>, upto: nat) {
    upto <= FAT_MAX_FILE && (upto + 511) / 512 <= n + Left(fat)
  }

  /** chain_grow fails for want of clusters exactly when there are too few. */
  lemma RanOut(d0: Disk, d: Disk, g: Geo, xs: seq<nat>, first: nat, count: nat, r: int, added: seq<nat>)
    requires GeoOk(g, |d0|) && HeadedBy(Fat(d0, g, 0), first, xs) && Last(xs) < Entries(g)
    requires ChainGrown(d0, d, g, Last(xs), count, r, added) && r != DEVERR
    ensures r == ENOSPC <==> count > Left(Fat(d0, g, 0))
  {
    var fat := Fat(d0, g, 0);
    hide Fat, Mirrored, DataKept;
    if xs != [] { ChainUsed(fat, xs, |xs| - 1); }
    GrowFinds(fat, Last(xs), count);
  }

  lemma DataInRange(g: Geo, sectors: nat, c: nat)
    requires GeoOk(g, sectors) && 2 <= c < Entries(g)
    ensures DataLba(g, c) < sectors
  {
  }

  // ---- one file -------------------------------------------------------------------------------------

  class Inode {
    var vol: Volume
    var first: nat
    var size: nat
    var slot: Option<Slot>
    ghost var xs: seq<nat>

    ghost predicate Valid()
      reads this, vol`g, vol`disk
    {
      && vol.Valid() && HeadedBy(vol.Table(), first, xs) && InData(vol.g, xs)
      && size <= 512 * |xs| && SlotOk(vol.Table(), xs, slot)
    }

    ghost function AllBytes(): (r: seq<byte>)
      requires Valid()
      reads this, vol`g, vol`disk
      ensures |r| == 512 * |xs|
    {
      Room(vol.disk, vol.g, xs)
    }

    /** What the file holds. */
    ghost function Contents(): (r: seq<byte>)
      requires Valid()
      reads this, vol`g, vol`disk
      ensures |r| == size
    {
      AllBytes()[..size]
    }

    constructor (v: Volume, firstClus: nat, bytes: nat, at: Option<Slot>, ghost chain: seq<nat>)
      requires v.Valid() && HeadedBy(v.Table(), firstClus, chain) && InData(v.g, chain)
      requires bytes <= 512 * |chain| && SlotOk(v.Table(), chain, at)
      ensures Valid() && vol == v && first == firstClus && size == bytes && slot == at && xs == chain
    {
      vol, first, size, slot, xs := v, firstClus, bytes, at, chain;
    }

    /** The sector holding byte `pos` of the file, reached from cluster number `idx`. */
    method Seek(clus: nat, idx: nat, pos: nat) returns (r: int, at: nat, want: nat, sec: Sector)
      requires Valid() && pos < 512 * |xs| && idx < |xs| && clus == xs[idx] && idx <= pos / 512
      modifies vol`faults
      ensures vol.faults >= old(vol.faults) && (r == 0 <==> vol.faults == old(vol.faults))
      ensures r == 0 ==> want == pos / 512 < |xs| && at == xs[want] && 2 <= at < Entries(vol.g) && sec == Data(vol.disk, vol.g, at)
      ensures r == 0 || r == DEVERR
    {
      hide Fat, IsChain, Distinct, SlotOk;
      sec := Zeros(512);
      r, at, want := vol.ChainSeek(clus, idx, pos / 512, xs);
      if r != 0 { return; }
      r, sec := vol.SecRead(DataLba(vol.g, at));
    }

    /** fat_read: the clipped slice of the contents, or the part of it read before the device failed. */
    method Read(off: nat, len: nat) returns (r: int, out: seq<byte>)
      requires Valid()
      modifies vol`faults
      ensures vol.faults >= old(vol.faults)
      ensures r == Clip(off, len, size) <==> vol.faults == old(vol.faults)
      ensures r == DEVERR || 0 <= r <= Clip(off, len, size)
      ensures r <= 0 ==> out == []
      ensures r > 0 ==> out == Contents()[off..off + r]
    {
      hide Fat, Room, IsChain, Distinct, Free, SlotOk, Data, DataLba;
      out := [];
      if off >= size || len == 0 { return 0, out; }
      var n := if len > size - off then size - off else len;
      var clus, idx := first, 0;
      var done := 0;
      assert xs != [] && first == xs[0];
      hide HeadedBy, InData;
      while done < n
        invariant 0 <= done <= n && |out| == done && vol.faults == old(vol.faults) && out == Contents()[off..off + done]
        invariant xs != [] && 0 <= idx < |xs| && clus == xs[idx] && idx <= (off + done) / 512
      {
        var coff := (off + done) % 512;
        var chunk := 512 - coff;
        if clus == 0 { break; }
        var sec;
        r, clus, idx, sec := Seek(clus, idx, off + done);
        if r != 0 { return if done > 0 then done else r, out; }
        if chunk > n - done { chunk := n - done; }
        ReadStep(vol.disk, vol.g, xs, size, off, done, chunk);
        out := out + sec[coff..coff + chunk];
        done := done + chunk;
      }
      r := done;
    }

    /** The hole loop of fat_write_range: zeros from the old end to `off`, and to the end of that sector. */
    method FillHole(off: nat) returns (r: int)
      requires Valid() && size < off <= 512 * |xs|
      modifies vol`disk, vol`faults
      ensures Valid() && (r == 0 || r == DEVERR)
      ensures vol.faults >= old(vol.faults) && (r == 0 <==> vol.faults == old(vol.faults))
      ensures DataOnly(old(vol.disk), vol.disk, vol.g, xs)
      ensures Filled(AllBytes(), old(Contents()), if r == 0 then off else size)
    {
      hide Fat, EntryAt, Room, IsChain, Distinct, Free, SlotOk, Data, DataLba, Mirrored, DataOnly;
      var pos := size;
      ghost var d0, s := vol.disk, Contents();
      DataSame(d0, vol.g, xs);
      r := 0;
      while pos < off
        invariant size <= pos && Valid() && r == 0 && vol.faults == old(vol.faults) && DataOnly(d0, vol.disk, vol.g, xs)
        invariant Filled(AllBytes(), s, if pos < off then pos else off)
      {
        var coff := pos % 512;
        var chunk := 512 - coff;
        if chunk > off - pos { chunk := off - pos; }
        var c, want, sec;
        r, c, want, sec := Seek(first, 0, pos);
        if r != 0 { WeakerFill(AllBytes(), s, pos, size); return; }
        sec := Splice(sec, coff, Zeros(chunk));
        var fill := chunk;
        if chunk < 512 && coff + chunk < 512 {
          ZerosJoin(Data(vol.disk, vol.g, c), coff, chunk, 512 - coff - chunk);
          sec := Splice(sec, coff + chunk, Zeros(512 - coff - chunk));
          fill := 512 - coff;
        }
        ghost var d1 := vol.disk;
        PatchFits(xs, pos, fill);
        PatchKeeps(d0, d1, vol.g, xs, pos, Zeros(fill));
        FillMore(AllBytes(), s, pos, fill);
        DataInRange(vol.g, |d1|, c);
        r := vol.SecWrite(DataLba(vol.g, c), sec);
        if r != 0 { WeakerFill(AllBytes(), s, pos, size); return; }
        pos := pos + chunk;
        WeakerFill(AllBytes(), s, pos - chunk + fill, pos);
      }
    }

    /** Patch the sector just read and write it back. */
    method PutChunk(at: nat, sec: Sector, pos: nat, patch: seq<byte>) returns (r: int)
      requires Valid() && pos < 512 * |xs| && pos % 512 + |patch| <= 512
      requires pos / 512 < |xs| && at == xs[pos / 512] && sec == Data(vol.disk, vol.g, at)
      modifies vol`disk, vol`faults
      ensures Valid() && (r == 0 || r == DEVERR) && DataOnly(old(vol.disk), vol.disk, vol.g, xs)
      ensures vol.faults >= old(vol.faults) && (r == 0 <==> vol.faults == old(vol.faults))
      ensures pos + |patch| <= 512 * |xs|
      ensures AllBytes() == if r == 0 then Splice(old(AllBytes()), pos, patch) else old(AllBytes())
    {
      hide Fat, EntryAt, Room, IsChain, Free, SlotOk, Data, DataLba, Mirrored, DataOnly;
      ghost var d0 := vol.disk;
      DataSame(d0, vol.g, xs);
      PatchFits(xs, pos, |patch|);
      PatchKeeps(d0, d0, vol.g, xs, pos, patch);
      DataInRange(vol.g, |d0|, at);
      r := vol.SecWrite(DataLba(vol.g, at), Splice(sec, pos % 512, patch));
    }

    /** One turn of the copy loop: as much of data as fits the sector holding byte pos. */
    method CopyChunk(clus: nat, idx: nat, pos: nat, data: seq<byte>) returns (r: int, at: nat, want: nat, n: nat)
      requires Valid() && pos + |data| <= 512 * |xs| && data != [] && idx < |xs| && clus == xs[idx] && idx <= pos / 512
      modifies vol`disk, vol`faults
      ensures Valid() && (r == 0 || r == DEVERR) && DataOnly(old(vol.disk), vol.disk, vol.g, xs)
      ensures vol.faults >= old(vol.faults) && (r == 0 <==> vol.faults == old(vol.faults))
      ensures r == 0 ==> 0 < n <= |data| && want < |xs| && at == xs[want] && want <= (pos + n) / 512
      ensures AllBytes() == if r == 0 then Splice(old(AllBytes()), pos, data[..n]) else old(AllBytes())
    {
      hide Fat, EntryAt, Room, IsChain, Distinct, Free, SlotOk, Data, DataLba, Mirrored, DataOnly, HeadedBy;
      DataSame(vol.disk, vol.g, xs);
      n := 512 - pos % 512;
      var sec;
      r, at, want, sec := Seek(clus, idx, pos);
      if r != 0 { return; }
      if n > |data| { n := |data|; }
      PosGrows(pos, n);
      r := PutChunk(at, sec, pos, data[..n]);
    }

    /** The copy loop of fat_write_range. */
    method CopyIn(off: nat, buf: seq<byte>) returns (r: int, done: nat)
      requires Valid() && off + |buf| <= 512 * |xs|
      modifies vol`disk, vol`faults
      ensures Valid() && done <= |buf|
      ensures r == |buf| == done || (0 < r == done < |buf|) || (r == DEVERR && done == 0 && buf != [])
      ensures vol.faults >= old(vol.faults) && (r == |buf| <==> vol.faults == old(vol.faults))
      ensures DataOnly(old(vol.disk), vol.disk, vol.g, xs)
      ensures AllBytes() == Splice(old(AllBytes()), off, buf[..done])
    {
      hide Fat, EntryAt, Room, IsChain, Distinct, Free, SlotOk, Data, DataLba, Mirrored, DataOnly;
      ghost var d0, room := vol.disk, AllBytes();
      DataSame(d0, vol.g, xs);
      var clus, idx := first, 0;
      done := 0;
      SpliceNone(room, off, buf);
      assert |buf| > 0 ==> xs != [] && first == xs[0];
      hide HeadedBy;
      while done < |buf|
        invariant 0 <= done <= |buf| && Valid() && vol.faults == old(vol.faults) && DataOnly(d0, vol.disk, vol.g, xs)
        invariant AllBytes() == Splice(room, off, buf[..done])
        invariant |buf| > 0 ==> 0 <= idx < |xs| && clus == xs[idx] && idx <= (off + done) / 512
      {
        if clus == 0 { return EIO, done; }
        ghost var d1 := vol.disk;
        var n;
        r, clus, idx, n := CopyChunk(clus, idx, off + done, buf[done..]);
        DataOnlyTrans(d0, d1, vol.disk, vol.g, xs);
        if r != 0 { return if done > 0 then done else r, done; }
        SpliceMore(room, off, buf, done, n);
        done := done + n;
      }
      r := done;
    }

    /** dirent_sync */
    method DirentSync() returns (r: int)
      requires Valid()
      modifies vol`disk, vol`faults
      ensures Valid() && (r == 0 || r == DEVERR) && (r != 0 ==> vol.disk == old(vol.disk))
      ensures vol.faults >= old(vol.faults) && (r == 0 <==> vol.faults == old(vol.faults))
      ensures Synced(old(vol.disk), vol.disk, vol.g, slot) && AllBytes() == old(AllBytes())
      ensures r == 0 && slot.Some? && size < 0x1_0000_0000 ==>
        SlotNames(Data(vol.disk, vol.g, slot.value.clus), slot.value.off, first, size)
    {
      hide Fat, EntryAt, Room, IsChain, Distinct, Free, Mirrored, SlotNames, SlotPatched;
      if slot.None? { return 0; }
      var sec;
      r, sec := vol.SecRead(DataLba(vol.g, slot.value.clus));
      if r != 0 { return; }
      SlotWritten(vol.disk, vol.g, xs, slot.value, first, size);
      SlotSynced(sec, slot.value.off, first, size);
      r := vol.SecWrite(DataLba(vol.g, slot.value.clus), SlotPatched(sec, slot.value.off, first, size));
    }

    /** chain_grow to at least `need` clusters. */
    method Reserve(need: nat) returns (r: int)
      requires Valid()
      modifies this`first, this`xs, vol`disk, vol`faults
      ensures Valid() && (r == 0 || r == ENOSPC || r == DEVERR) && (r == 0 ==> need <= |xs|)
      ensures vol.faults >= old(vol.faults) && (r == DEVERR <==> vol.faults > old(vol.faults))
      ensures r == ENOSPC <==> vol.faults == old(vol.faults) && need > |old(xs)| + Left(old(vol.Table()))
      ensures |vol.disk| == |old(vol.disk)|
      ensures Grew(Fat(old(vol.disk), vol.g, 0), vol.Table(), old(xs), xs)
      ensures DataKept(old(vol.disk), vol.disk, vol.g, Fat(old(vol.disk), vol.g, 0))
      ensures Contents() == old(Contents())
      ensures r != DEVERR && Mirrored(old(vol.disk), vol.g) ==> Mirrored(vol.disk, vol.g)
    {
      hide Fat, EntryAt, Room, IsChain, Distinct, Data, Mirrored, Grow, PartlyGrown, DataKept, ChainGrown, Grew, HeadedBy, SlotOk;
      ghost var d0, g, xs0, first0 := vol.disk, vol.g, xs, first;
      EmptyHead(vol.Table(), first, xs);
      var have := 0;
      r := 0;
      NoGrowth(vol.disk, g, first, xs);
      if first != 0 {
        r, have := vol.ChainLen(first, xs);
        if r != 0 { return; }
      }
      if have < need {
        ghost var added;
        r, first, added := vol.ChainGrow(first, need - have, xs);
        xs := GrownChain(d0, vol.disk, g, xs0, first0, first, need - have, r, added);
        GrownKeeps(d0, vol.disk, g, xs0, xs, first0, first, size, slot, need - have, r, added);
        if r != DEVERR { RanOut(d0, vol.disk, g, xs0, first0, need - have, r, added); }
      }
    }

    /** The hole and copy loops of fat_write_range, once the chain is long enough. */
    method FillAndCopy(off: nat, buf: seq<byte>) returns (r: int, done: nat)
      requires Valid() && off + |buf| <= 512 * |xs|
      modifies vol`disk, vol`faults
      ensures Valid() && done <= |buf| && DataOnly(old(vol.disk), vol.disk, vol.g, xs)
      ensures r == |buf| == done || (0 < r == done < |buf|) || (r == DEVERR && done == 0)
      ensures vol.faults >= old(vol.faults) && (r == |buf| <==> vol.faults == old(vol.faults))
      ensures Contents() == WriteAt(old(Contents()), off, buf[..done])[..size]
      ensures r == |buf| ==> WriteAt(old(Contents()), off, buf) <= AllBytes()
    {
      hide Fat, EntryAt, Room, IsChain, Distinct, Free, Data, Mirrored, DataOnly, SlotOk, WriteAt;
      ghost var d0, s := vol.disk, Contents();
      WroteNothing(s, off, buf);
      r, done := 0, 0;
      DataSame(d0, vol.g, xs);
      if off > size {
        r := FillHole(off);
        if r != 0 { return; }
      }
      ghost var room := AllBytes();
      assert Filled(room, s, off);
      ghost var d1 := vol.disk;
      r, done := CopyIn(off, buf);
      DataOnlyTrans(d0, d1, vol.disk, vol.g, xs);
      CopiedOver(room, s, off, buf, done);
    }

    /** fat_write_range.  `done` bytes of buf reached the file; `full` says that all did and the size was updated. */
    method WriteRange(off: nat, buf: seq<byte>) returns (r: int, ghost done: nat, ghost full: bool)
      requires Valid() && off + |buf| < TWO64
      modifies this`first, this`size, this`xs, vol`disk, vol`faults
      ensures Valid() && done <= |buf| && (full ==> done == |buf|)
      ensures off + |buf| > FAT_MAX_FILE ==> vol.disk == old(vol.disk) && !full
      ensures r == done || r == DEVERR || (r == ENOSPC && !full)
      ensures vol.faults >= old(vol.faults)
      ensures r == |buf| <==> HasRoom(old(|xs|), old(vol.Table()), off + |buf|) && vol.faults == old(vol.faults)
      ensures r == ENOSPC <==> !HasRoom(old(|xs|), old(vol.Table()), off + |buf|) && vol.faults == old(vol.faults)
      ensures r == |buf| ==> full
      ensures size == if full && off + |buf| > old(size) then off + |buf| else old(size)
      ensures Contents() == WriteAt(old(Contents()), off, buf[..done])[..size]
      ensures Grew(Fat(old(vol.disk), vol.g, 0), vol.Table(), old(xs), xs)
      ensures OnlyFile(old(vol.disk), vol.disk, vol.g, old(xs), slot)
      ensures r >= 0 && full && slot.Some? && size < 0x1_0000_0000 ==>
        SlotNames(Data(vol.disk, vol.g, slot.value.clus), slot.value.off, first, size)
      ensures r != DEVERR && Mirrored(old(vol.disk), vol.g) ==> Mirrored(vol.disk, vol.g)
    {
      hide Fat, EntryAt, Room, IsChain, Distinct, Data, Free, Mirrored, DataKept, DataOnly, Grew, Synced, OnlyFile, SlotOk, SlotNames, WriteAt;
      ghost var d0, g, xs0, s := vol.disk, vol.g, xs, Contents();
      done, full := 0, false;
      WroteNothing(s, off, buf);
      NoGrowth(d0, g, first, xs);
      DataSame(d0, g, xs);
      SyncedSame(d0, g, slot);
      OnlyFileBy(d0, d0, d0, d0, g, xs, xs, slot);
      if off + |buf| > FAT_MAX_FILE { return ENOSPC, done, full; }
      r := Reserve((off + |buf| + 511) / 512);
      ghost var d1 := vol.disk;
      DataSame(d1, g, xs);
      SyncedSame(d1, g, slot);
      OnlyFileBy(d0, d1, d1, d1, g, xs0, xs, slot);
      if r != 0 { return; }
      r, done := FillAndCopy(off, buf);
      ghost var d2 := vol.disk;
      SyncedSame(d2, g, slot);
      OnlyFileBy(d0, d1, d2, d2, g, xs0, xs, slot);
      if r < |buf| { return; }
      full := true;
      WrittenSize(s, off, buf);
      if off + |buf| > size { size := off + |buf|; }
      r := DirentSync();
      OnlyFileBy(d0, d1, d2, vol.disk, g, xs0, xs, slot);
      if r != 0 { return; }
      r := |buf|;
    }

    /** fat_truncate: free the chain, then forget it.  `freed` says that the whole chain was freed. */
    method Truncate() returns (r: int, ghost freed: bool, ghost k: nat)
      requires Valid()
      modifies this`first, this`size, this`xs, vol`disk, vol`faults
      ensures (r == 0 || r == DEVERR) && vol.faults >= old(vol.faults) && (r == 0 <==> vol.faults == old(vol.faults))
      ensures vol.Valid() && |vol.disk| == |old(vol.disk)| && k <= |old(xs)| && (freed ==> k == |old(xs)|) && (r == 0 ==> freed)
      ensures (forall i :: 0 <= i < |old(xs)| ==> old(xs)[i] < Entries(vol.g)) && vol.Table() == Release(Fat(old(vol.disk), vol.g, 0), old(xs), k)
      ensures OnlyFile(old(vol.disk), vol.disk, vol.g, [], slot)
      ensures freed ==> Valid() && first == 0 && xs == [] && Contents() == []
      ensures !freed ==> first == old(first) && size == old(size) && xs == old(xs)
      ensures r == 0 && slot.Some? ==> SlotNames(Data(vol.disk, vol.g, slot.value.clus), slot.value.off, 0, 0)
      ensures r == 0 && Mirrored(old(vol.disk), vol.g) ==> Mirrored(vol.disk, vol.g)
    {
      hide Fat, EntryAt, Room, IsChain, Distinct, Data, Mirrored, ChainFreed, Synced, OnlyFile, SlotOk, HeadedBy, SlotNames;
      ghost var d0, g := vol.disk, vol.g;
      freed, k, r := false, 0, 0;
      EmptyHead(vol.Table(), first, xs);
      FreeStarts(d0, g, xs);
      if first != 0 {
        r, k := vol.ChainFree(first, xs);
      }
      ghost var d1 := vol.disk;
      FreedKeeps(d0, d1, g, xs, slot, r, k);
      if r != 0 { return; }
      first, size, xs := 0, 0, [];
      freed := true;
      r := DirentSync();
      FreedSynced(d0, d1, vol.disk, g, slot);
    }
  }

  lemma FreedKeeps(d0: Disk, d: Disk, g: Geo, xs: seq<nat>, slot: Option<Slot>, r: int, k: nat)
    requires GeoOk(g, |d0|) && InData(g, xs) && ChainFreed(d0, d, g, xs, r, k) && SlotOk(Fat(d0, g, 0), xs, slot)
    requires 2 <= Entries(g) <= FAT_EOC
    ensures |d| == |d0| && k <= |xs| && (r == 0 || r == DEVERR) && Fat(d, g, 0) == Release(Fat(d0, g, 0), xs, k)
    ensures (r == 0 && Mirrored(d0, g) ==> Mirrored(d, g)) && OnlyFile(d0, d, g, [], slot)
    ensures forall c :: 2 <= c < Entries(g) ==> Data(d, g, c) == Data(d0, g, c)
    ensures SlotOk(Fat(d, g, 0), [], slot) && HeadedBy(Fat(d, g, 0), 0, [])
  {
    var fat := Fat(d0, g, 0);
    hide Fat, Mirrored;
    ReleaseAt(fat, xs, k);
    if slot.Some? { assert slot.value.clus !in xs[..k]; }
  }

  lemma FreedSynced(d0: Disk, d1: Disk, d2: Disk, g: Geo, slot: Option<Slot>)
    requires GeoOk(g, |d0|) && |d1| == |d0| && Synced(d1, d2, g, slot)
    requires forall c :: 2 <= c < Entries(g) ==> Data(d1, g, c) == Data(d0, g, c)
    ensures |d2| == |d0| && OnlyFile(d0, d2, g, [], slot) && Fat(d2, g, 0) == Fat(d1, g, 0)
    ensures Mirrored(d1, g) ==> Mirrored(d2, g)
  {
    hide Fat, Mirrored;
  }

  // ---- other files ------------------------------------------------------------------------------------

  lemma OwnedKept(d0: Disk, d: Disk, g: Geo, l: Layout, id: nat, xs: seq<nat>, slot: Option<Slot>, j: nat)
    requires GeoOk(g, |d0|) && WellFormed(Fat(d0, g, 0), l) && j in l.chains && OnlyFile(d0, d, g, xs, slot)
    requires xs == [] || (id in l.chains && xs == l.chains[id] && j != id)
    ensures InData(g, l.chains[j])
    ensures (slot.Some? ==> slot.value.clus !in l.chains[j]) ==> Room(d, g, l.chains[j]) == Room(d0, g, l.chains[j])
  {
    var fat, ys := Fat(d0, g, 0), l.chains[j];
    assert Owns(fat, l, j);
    if xs != [] { assert Owns(fat, l, id); }
    hide Fat;
    if slot.Some? ==> slot.value.clus !in ys {
      forall i | 0 <= i < |ys| ensures Data(d, g, ys[i]) == Data(d0, g, ys[i]) {
        assert ys[i] in ys && l.own[ys[i]] == Some(j);
      }
      SameData(d0, d, g, ys);
    }
  }

  /** A write through one inode, whatever it returns, leaves the table a set of disjoint acyclic
      chains and every byte of every other file as it was (`spare` is a file number not in use;
      the directory holding the slot changes in the slot's fields only). */
  lemma WriteKeepsFiles(d0: Disk, d: Disk, g: Geo, l: Layout, id: nat, xs: seq<nat>, xs': seq<nat>, slot: Option<Slot>, spare: nat)
      returns (l': Layout)
    requires GeoOk(g, |d0|) && WellFormed(Fat(d0, g, 0), l) && id in l.chains && l.chains[id] == xs && spare !in l.chains
    requires OnlyFile(d0, d, g, xs, slot) && Grew(Fat(d0, g, 0), Fat(d, g, 0), xs, xs')
    ensures WellFormed(Fat(d, g, 0), l') && id in l'.chains && xs' <= l'.chains[id]
    ensures forall j :: j in l.chains && j != id ==>
      && j in l'.chains && l'.chains[j] == l.chains[j] && InData(g, l.chains[j])
      && ((slot.Some? ==> slot.value.clus !in l.chains[j]) ==> Room(d, g, l.chains[j]) == Room(d0, g, l.chains[j]))
  {
    var fat, fat' := Fat(d0, g, 0), Fat(d, g, 0);
    hide Fat, WellFormed, OnlyFile, Room;
    var k: nat :| PartlyGrown(fat, Last(xs), k, fat') && xs' <= xs + Grow(fat, Last(xs), k).1;
    l' := PartGrowKeeps(fat, l, id, k, spare, fat' != Grow(fat, Last(xs), k).0);
    forall j | j in l.chains && j != id
      ensures InData(g, l.chains[j])
      ensures (slot.Some? ==> slot.value.clus !in l.chains[j]) ==> Room(d, g, l.chains[j]) == Room(d0, g, l.chains[j])
    {
      OwnedKept(d0, d, g, l, id, xs, slot, j);
    }
  }

  /** So does a truncation: what it has not freed yet is still the file's chain. */
  lemma TruncateKeepsFiles(d0: Disk, d: Disk, g: Geo, l: Layout, id: nat, slot: Option<Slot>, k: nat) returns (l': Layout)
    requires GeoOk(g, |d0|) && WellFormed(Fat(d0, g, 0), l) && id in l.chains && k <= |l.chains[id]|
    requires InData(g, l.chains[id]) && |d| == |d0| && OnlyFile(d0, d, g, [], slot)
    requires Fat(d, g, 0) == Release(Fat(d0, g, 0), l.chains[id], k)
    ensures WellFormed(Fat(d, g, 0), l') && l'.chains == l.chains[id := l.chains[id][k..]]
    ensures forall j :: j in l.chains && j != id ==>
      && InData(g, l.chains[j])
      && ((slot.Some? ==> slot.value.clus !in l.chains[j]) ==> Room(d, g, l.chains[j]) == Room(d0, g, l.chains[j]))
  {
    hide Fat, WellFormed, OnlyFile, Room;
    l' := PartReleaseKeeps(Fat(d0, g, 0), l, id, k);
    forall j | j in l.chains && j != id
      ensures InData(g, l.chains[j])
      ensures (slot.Some? ==> slot.value.clus !in l.chains[j]) ==> Room(d, g, l.chains[j]) == Room(d0, g, l.chains[j])
    {
      OwnedKept(d0, d, g, l, id, [], slot, j);
    }
  }

  lemma SpliceNone(room: seq<byte>, off: nat, data: seq<byte>)
    requires off <= |room|
    ensures Splice(room, off, data[..0]) == room
  {
  }

  lemma PosGrows(p: nat, n: nat)
    ensures p / 512 <= (p + n) / 512
  {
  }

  lemma WroteNothing(s: seq<byte>, off: nat, buf: seq<byte>)
    ensures |s| <= |WriteAt(s, off, buf[..0])| && WriteAt(s, off, buf[..0])[..|s|] == s
  {
  }

  lemma WrittenSize(s: seq<byte>, off: nat, buf: seq<byte>)
    ensures |WriteAt(s, off, buf)| == if off + |buf| > |s| then off + |buf| else |s|
    ensures buf[..|buf|] == buf
  {
  }

  lemma CopiedOver(room: seq<byte>, s: seq<byte>, off: nat, buf: seq<byte>, done: nat)
    requires Filled(room, s, off) && off + |buf| <= |room| && done <= |buf|
    ensures |s| <= |WriteAt(s, off, buf[..done])|
    ensures Splice(room, off, buf[..done])[..|s|] == WriteAt(s, off, buf[..done])[..|s|]
    ensures done == |buf| ==> WriteAt(s, off, buf) <= Splice(room, off, buf[..done])
  {
    WrittenPrefix(room, s, off, buf[..done], |s|);
    if done == |buf| {
      assert buf[..done] == buf;
      WrittenPrefix(room, s, off, buf, |WriteAt(s, off, buf)|);
    }
  }

  lemma EmptyHead(fat: seq<nat>, first: nat, xs: seq<nat>)
    requires HeadedBy(fat, first, xs)
    ensures first == 0 <==> xs == []
    ensures Last(xs) < |fat| && 2 <= |fat| <= FAT_EOC
  {
  }

  lemma NoGrowth(d: Disk, g: Geo, first: nat, xs: seq<nat>)
    requires GeoOk(g, |d|) && HeadedBy(Fat(d, g, 0), first, xs)
    ensures Grew(Fat(d, g, 0), Fat(d, g, 0), xs, xs) && DataKept(d, d, g, Fat(d, g, 0))
  {
    var fat := Fat(d, g, 0);
    hide Fat;
    TailInRange(fat, xs);
    assert Grow(fat, Last(xs), 0) == (fat, []);
    assert PartlyGrown(fat, Last(xs), 0, fat);
  }

  lemma SyncedSame(d: Disk, g: Geo, slot: Option<Slot>)
    requires GeoOk(g, |d|)
    ensures Synced(d, d, g, slot)
  {
  }

  lemma OnlyFileBy(d0: Disk, d1: Disk, d2: Disk, d3: Disk, g: Geo, xs: seq<nat>, xs': seq<nat>, slot: Option<Slot>)
    requires GeoOk(g, |d0|) && |d1| == |d0| && Grew(Fat(d0, g, 0), Fat(d1, g, 0), xs, xs') && DataKept(d0, d1, g, Fat(d0, g, 0))
    requires DataOnly(d1, d2, g, xs') && SlotOk(Fat(d0, g, 0), xs, slot) && Synced(d2, d3, g, slot)
    ensures |d3| == |d0| && OnlyFile(d0, d3, g, xs, slot) && Grew(Fat(d0, g, 0), Fat(d3, g, 0), xs, xs')
    ensures Mirrored(d1, g) ==> Mirrored(d3, g)
  {
    hide Fat, Mirrored, OnlyFile, DataKept, SlotOk;
    OnlyFileFrom(d0, d1, d2, d3, g, xs, xs', slot);
  }

  lemma ChainInData(g: Geo, fat: seq<nat>, first: nat, xs: seq<nat>)
    requires HeadedBy(fat, first, xs) && |fat| == Entries(g)
    ensures InData(g, xs)
  {
  }

  lemma LongerRoom(d0: Disk, d: Disk, g: Geo, xs: seq<nat>, xs': seq<nat>, size: nat)
    requires GeoOk(g, |d0|) && |d| == |d0| && IsChain(Fat(d0, g, 0), xs) && DataKept(d0, d, g, Fat(d0, g, 0))
    requires InData(g, xs) && InData(g, xs') && xs <= xs' && size <= 512 * |xs|
    ensures Room(d, g, xs')[..size] == Room(d0, g, xs)[..size]
  {
    hide Fat, Room, DataKept, IsChain;
    KeptRoom(d0, d, g, xs);
    assert xs' == xs + xs'[|xs|..];
    RoomPrefix(d, g, xs, xs'[|xs|..]);
  }

  /** Growing a file keeps its bytes and its slot. */
  lemma GrownKeeps(d0: Disk, d: Disk, g: Geo, xs: seq<nat>, xs': seq<nat>, first: nat, first': nat, size: nat,
                   slot: Option<Slot>, count: nat, r: int, added: seq<nat>)
    requires GeoOk(g, |d0|) && HeadedBy(Fat(d0, g, 0), first, xs) && Last(xs) < Entries(g) && size <= 512 * |xs|
    requires ChainGrown(d0, d, g, Last(xs), count, r, added) && SlotOk(Fat(d0, g, 0), xs, slot)
    requires HeadedBy(Fat(d, g, 0), first', xs') && Grew(Fat(d0, g, 0), Fat(d, g, 0), xs, xs')
    ensures InData(g, xs) && InData(g, xs') && |xs| <= |xs'| && SlotOk(Fat(d, g, 0), xs', slot)
    ensures Room(d, g, xs')[..size] == Room(d0, g, xs)[..size]
    ensures DataKept(d0, d, g, Fat(d0, g, 0)) && (r != DEVERR && Mirrored(d0, g) ==> Mirrored(d, g))
    ensures r == 0 || r == ENOSPC || r == DEVERR
  {
    var fat, fat' := Fat(d0, g, 0), Fat(d, g, 0);
    hide Fat, Mirrored, DataKept, Room, IsChain, Distinct, Grow, PartlyGrown, InData;
    ChainInData(g, fat, first, xs);
    ChainInData(g, fat', first', xs');
    LongerRoom(d0, d, g, xs, xs', size);
    if slot.Some? { SlotKept(fat, fat', xs, xs', slot.value); }
  }

  lemma SlotKept(fat: seq<nat>, fat': seq<nat>, xs: seq<nat>, xs': seq<nat>, slot: Slot)
    requires Grew(fat, fat', xs, xs') && SlotOk(fat, xs, Some(slot))
    ensures SlotOk(fat', xs', Some(slot))
  {
    var k: nat :| PartlyGrown(fat, Last(xs), k, fat') && xs' <= xs + Grow(fat, Last(xs), k).1;
    GrownFree(fat, Last(xs), k);
    forall i | 0 <= i < |xs'| ensures xs'[i] != slot.clus {
      if i < |xs| { assert xs[i] == xs'[i] && xs[i] in xs; }
    }
  }

  lemma DataSame(d: Disk, g: Geo, xs: seq<nat>)
    requires GeoOk(g, |d|)
    ensures DataOnly(d, d, g, xs)
  {
  }

  lemma WeakerFill(room: seq<byte>, s: seq<byte>, upto: nat, less: nat)
    requires Filled(room, s, upto) && less <= upto
    ensures Filled(room, s, less)
  {
  }

  lemma PatchKeeps(d0: Disk, d: Disk, g: Geo, xs: seq<nat>, pos: nat, patch: seq<byte>)
    requires GeoOk(g, |d|) && InData(g, xs) && Distinct(xs)
    requires GeoOk(g, |d0|) && DataOnly(d0, d, g, xs)
    requires pos / 512 < |xs| && pos % 512 + |patch| <= 512 && pos + |patch| <= 512 * |xs|
    ensures var c := xs[pos / 512]; var d' := d[DataLba(g, c) := Splice(Data(d, g, c), pos % 512, patch)];
      && DataOnly(d0, d', g, xs) && Fat(d', g, 0) == Fat(d, g, 0)
      && Room(d', g, xs) == Splice(Room(d, g, xs), pos, patch)
  {
    hide Room, Distinct, Data, DataLba;
    PatchRoom(d, g, xs, pos, patch);
  }

  /** A patch of one sector stays inside the clusters of the file. */
  lemma PatchFits(xs: seq<nat>, pos: nat, n: nat)
    requires pos < 512 * |xs| && pos % 512 + n <= 512
    ensures pos / 512 < |xs| && pos + n <= 512 * |xs|
  {
  }

  lemma ReadStep(d: Disk, g: Geo, xs: seq<nat>, size: nat, off: nat, m: nat, n: nat)
    requires GeoOk(g, |d|) && InData(g, xs) && off + m + n <= size <= 512 * |xs|
    requires (off + m) % 512 + n <= 512 && (off + m) / 512 < |xs|
    ensures var s, p := Room(d, g, xs)[..size], off + m;
      s[off..p] + Data(d, g, xs[p / 512])[p % 512..p % 512 + n] == s[off..p + n]
    ensures (off + m) / 512 <= (off + m + n) / 512
  {
    hide Room, Data;
    var room, p := Room(d, g, xs), off + m;
    ReadChunk(d, g, xs, p, n);
    SliceJoin(room, size, off, m, n);
    assert off + (m + n) == p + n;
    var part := Data(d, g, xs[p / 512])[p % 512..p % 512 + n];
    assert part == room[p..p + n];
    assert room[..size][off..p] + part == room[..size][off..p + n];
    PosGrows(p, n);
  }

  lemma SliceJoin(room: seq<byte>, size: nat, off: nat, m: nat, n: nat)
    requires off + m + n <= size <= |room|
    ensures room[..size][off..off + m] + room[off + m..off + m + n] == room[..size][off..off + (m + n)]
  {
  }

  lemma ReadChunk(d: Disk, g: Geo, xs: seq<nat>, pos: nat, n: nat)
    requires GeoOk(g, |d|) && InData(g, xs) && pos + n <= 512 * |xs| && pos % 512 + n <= 512 && pos / 512 < |xs|
    ensures Data(d, g, xs[pos / 512])[pos % 512..pos % 512 + n] == Room(d, g, xs)[pos..pos + n]
  {
    hide Data;
    var sec, room := Data(d, g, xs[pos / 512]), Room(d, g, xs);
    forall q | pos <= q < pos + n ensures room[q] == sec[pos % 512 + (q - pos)] {
      assert q / 512 == pos / 512;
      PosOf(pos, q);
    }
  }
}
