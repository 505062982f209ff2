/** What dirent_sync records in a directory slot is what dir_next reads back from it. */
module FatSync {
  import opened Bytes
  import opened Limits
  import opened Wrappers
  import FatFile
  import N = FatNames

  /** The slot at offset off of a sector. */
  function SlotOf(sec: Sector, off: nat): N.Slot
    requires off + 32 <= 512
  {
    sec[off..off + 32]
  }

  lemma SlotField16(sec: Sector, off: nat, at: nat)
    requires off + 32 <= 512 && at + 2 <= 32
    ensures Rd16(SlotOf(sec, off), at) == Rd16(sec, off + at)
  {
  }

  lemma SlotField32(sec: Sector, off: nat, at: nat)
    requires off + 32 <= 512 && at + 4 <= 32
    ensures Rd32(SlotOf(sec, off), at) == Rd32(sec, off + at)
  {
  }

  /** A synced slot records the file's first cluster and size. */
  lemma SyncRecords(sec: Sector, off: nat, first: nat, size: nat)
    requires off + 32 <= 512 && FatFile.SlotNames(sec, off, first, size)
    ensures N.Records(SlotOf(sec, off), first, size)
  {
    SlotField16(sec, off, 26);
    SlotField16(sec, off, 20);
    SlotField32(sec, off, 28);
  }

  /** A sync keeps the name, the attributes and, for dir_next, what kind of slot it is. */
  lemma SyncKeepsKind(sec: Sector, sec': Sector, off: nat)
    requires off + 32 <= 512 && FatFile.SlotOnly(sec, sec', off)
    ensures var e, e' := SlotOf(sec, off), SlotOf(sec', off);
      e'[..11] == e[..11] && e'[11] == e[11] && e'[0] == e[0] && (N.Stale(e') <==> N.Stale(e))
  {
    var e, e' := SlotOf(sec, off), SlotOf(sec', off);
    forall i | 0 <= i < 12 ensures e'[i] == e[i] { assert e'[i] == sec'[off + i] && e[i] == sec[off + i]; }
    assert e'[..11] == e[..11];
  }

  /** Syncing the short entry of a run leaves it the run of the same name, with the new fields. */
  lemma SyncedRun(run: seq<N.Slot>, n: N.Name, s: N.Sfn, dir: bool, first: nat, size: nat, sec: Sector, sec': Sector, off: nat, first': nat, size': nat)
    requires N.IsRun(run, n, s, dir, first, size) && off + 32 <= 512 && run[|run| - 1] == SlotOf(sec, off)
    requires FatFile.SlotOnly(sec, sec', off) && FatFile.SlotNames(sec', off, first', size')
    ensures N.IsRun(run[|run| - 1 := SlotOf(sec', off)], n, s, dir, first', size')
  {
    SyncRecords(sec', off, first', size');
    SyncKeepsKind(sec, sec', off);
    hide N.IsFragment, N.Records, FatFile.SlotOnly, FatFile.SlotNames, N.Plain;
  }

  /** dir_next, scanning to a synced slot, reports what was synced: the first cluster, and the size
      of a file; a directory's size reads as 0. */
  lemma SyncReadsBack(slots: seq<N.Slot>, i: nat, p: N.Pending, k: nat, sec: Sector, sec': Sector, off: nat, first: nat, size: nat)
    requires |p.lfn| == VFS_NAME_MAX && i <= k < |slots| && off + 32 <= 512 && slots[k] == SlotOf(sec, off)
    requires (forall j :: i <= j < k ==> N.Stale(slots[j])) && slots[k][0] != N.SLOT_FREE && !N.Stale(slots[k])
    requires FatFile.SlotOnly(sec, sec', off) && FatFile.SlotNames(sec', off, first, size)
    ensures var r, r' := N.Next(slots, i, p), N.Next(slots[k := SlotOf(sec', off)], i, p);
      && r.Some? && r'.Some? && r'.value.pidx == r.value.pidx == k
      && r'.value.first == first && r'.value.size == (if sec[off + 11] as int / 0x10 % 2 == 1 then 0 else size)
      && r'.value.name == r.value.name && r'.value.sfn == r.value.sfn && r'.value.attr == r.value.attr
  {
    SyncRecords(sec', off, first, size);
    SyncKeepsKind(sec, sec', off);
    assert SlotOf(sec, off)[11] == sec[off + 11];
    hide FatFile.SlotOnly, FatFile.SlotNames, N.Records, N.Stale;
    Reaches(slots, i, p, k);
    Reaches(slots[k := SlotOf(sec', off)], i, p, k);
    SamePending(slots, slots[k := SlotOf(sec', off)], i, p, k);
    N.NextDescribes(slots[k := SlotOf(sec', off)], i, p);
  }

  /** The scan to slot k ends there, with what the stale slots before it leave pending. */
  lemma Reaches(slots: seq<N.Slot>, i: nat, p: N.Pending, k: nat)
    requires |p.lfn| == VFS_NAME_MAX && i <= k < |slots|
    requires (forall j :: i <= j < k ==> N.Stale(slots[j])) && slots[k][0] != N.SLOT_FREE && !N.Stale(slots[k])
    ensures N.Next(slots, i, p) == Some(N.Entry(N.After(p, slots[i..k]), slots[k], k))
  {
    hide N.Entry;
    assert slots[i..k] == slots[i..i + (k - i)];
    N.SkipsStale(slots, i, slots[i..k], p);
  }

  lemma SamePending(slots: seq<N.Slot>, slots': seq<N.Slot>, i: nat, p: N.Pending, k: nat)
    requires |p.lfn| == VFS_NAME_MAX && i <= k < |slots| == |slots'| && slots' == slots[k := slots'[k]]
    requires slots'[k][..11] == slots[k][..11] && slots'[k][11] == slots[k][11]
    ensures N.After(p, slots'[i..k]) == N.After(p, slots[i..k])
    ensures var q := N.After(p, slots[i..k]); var e, e' := N.Entry(q, slots[k], k), N.Entry(q, slots'[k], k);
      e'.name == e.name && e'.sfn == e.sfn && e'.attr == e.attr
  {
    assert slots'[i..k] == slots[i..k];
    hide N.After, N.NameFrom, N.DecodeSfn, N.UsesLong;
  }
}
