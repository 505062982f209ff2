/** The FAT as it lies on disk: little-endian entries in sectors, one or two mirrored
    copies, then one sector per data cluster.  Sector numbers are relative to the
    partition. */
module FatDisk {
  import opened Bytes
  import opened Wrappers
  import opened FatTable

  datatype Geo = Geo(reserved: nat, nfats: nat, fatsz: nat, clusters: nat)

  /** Sector of the copy's first entry; there are at most two copies. */
  function CopyStart(g: Geo, copy: nat): nat { if copy == 0 then g.reserved else g.reserved + g.fatsz }

  /** reserved + nfats * fatsz */
  function DataStart(g: Geo): nat { if g.nfats == 2 then g.reserved + 2 * g.fatsz else g.reserved + g.fatsz }

  function Entries(g: Geo): nat { g.clusters + 2 }

  /** clus_rel_lba with one sector per cluster */
  function DataLba(g: Geo, c: nat): nat
    requires c >= 2
  {
    DataStart(g) + (c - 2)
  }

  predicate GeoOk(g: Geo, nsect: nat) {
    && g.reserved >= 1 && (g.nfats == 1 || g.nfats == 2)
    && Entries(g) <= 128 * g.fatsz && Entries(g) <= 0x1_0000_0000
    && DataStart(g) + g.clusters <= nsect
  }

  type Disk = seq<Sector>

  function EntryAt(d: Disk, g: Geo, copy: nat, n: nat): (v: nat)
    requires GeoOk(g, |d|) && copy < g.nfats && n < Entries(g)
    ensures v < 0x1_0000_0000
  {
    EntryInRange(g, copy, n);
    Rd32(d[CopyStart(g, copy) + n / 128], (n % 128) * 4)
  }

  lemma EntryInRange(g: Geo, copy: nat, n: nat)
    requires copy < g.nfats && n < Entries(g) <= 128 * g.fatsz && (g.nfats == 1 || g.nfats == 2)
    ensures n / 128 < g.fatsz
    ensures CopyStart(g, copy) + n / 128 < DataStart(g)
  {
  }

  /** The table one copy of the FAT holds. */
  function Fat(d: Disk, g: Geo, copy: nat): (r: seq<nat>)
    requires GeoOk(g, |d|) && copy < g.nfats
    ensures |r| == Entries(g)
  {
    seq(Entries(g), n requires 0 <= n < Entries(g) => EntryAt(d, g, copy, n))
  }

  /** All copies of the FAT are identical, sector by sector. */
  ghost predicate Mirrored(d: Disk, g: Geo)
    requires GeoOk(g, |d|)
  {
    g.nfats == 2 ==> forall s :: 0 <= s < g.fatsz ==> MirrorAt(d, g, s)
  }

  predicate MirrorAt(d: Disk, g: Geo, s: nat) {
    CopyStart(g, 1) + s < |d| && d[CopyStart(g, 0) + s] == d[CopyStart(g, 1) + s]
  }

  function Data(d: Disk, g: Geo, c: nat): Sector
    requires GeoOk(g, |d|) && 2 <= c < Entries(g)
  {
    d[DataLba(g, c)]
  }

  /** The FAT sector of entry n with the entry set to v. */
  function Patched(d: Disk, g: Geo, n: nat, v: nat): Sector
    requires GeoOk(g, |d|) && n < Entries(g)
  {
    EntryInRange(g, 0, n);
    Wr32(d[g.reserved + n / 128], (n % 128) * 4, v)
  }

  /** fat_set_entry after writing the first k copies. */
  function SetCopies(d: Disk, g: Geo, n: nat, v: nat, k: nat): (r: Disk)
    requires GeoOk(g, |d|) && n < Entries(g) && k <= g.nfats
    ensures |r| == |d|
  {
    EntryInRange(g, 0, n);
    var sec := Patched(d, g, n, v);
    var lba := g.reserved + n / 128;
    if k == 0 then d
    else if k == 1 then d[lba := sec]
    else EntryInRange(g, 1, n); d[lba := sec][lba + g.fatsz := sec]
  }

  lemma SetReadsAt(d: Disk, g: Geo, n: nat, v: nat, k: nat, m: nat)
    requires GeoOk(g, |d|) && n < Entries(g) && 1 <= k <= g.nfats && v < 0x1_0000_0000 && m < Entries(g)
    ensures EntryAt(SetCopies(d, g, n, v, k), g, 0, m) == if m == n then v else EntryAt(d, g, 0, m)
  {
    EntryInRange(g, 0, n);
    EntryInRange(g, 0, m);
    var sec, off := d[g.reserved + n / 128], (n % 128) * 4;
    assert SetCopies(d, g, n, v, k)[g.reserved + m / 128] ==
           if m / 128 == n / 128 then Wr32(sec, off, v) else d[g.reserved + m / 128];
    if m == n {
      ReadBack32(sec, off, v);
    } else if m / 128 == n / 128 {
      assert m % 128 != n % 128;
      ReadOther32(sec, off, v, (m % 128) * 4);
    }
  }

  /** Writing at least the first copy sets exactly one entry of the table in use. */
  lemma SetReads(d: Disk, g: Geo, n: nat, v: nat, k: nat)
    requires GeoOk(g, |d|) && n < Entries(g) && 1 <= k <= g.nfats && v < 0x1_0000_0000
    ensures Fat(SetCopies(d, g, n, v, k), g, 0) == Fat(d, g, 0)[n := v]
  {
    hide SetCopies, EntryAt;
    forall m | 0 <= m < Entries(g)
      ensures EntryAt(SetCopies(d, g, n, v, k), g, 0, m) == if m == n then v else EntryAt(d, g, 0, m)
    {
      SetReadsAt(d, g, n, v, k, m);
    }
  }

  /** Nothing outside the FAT changes. */
  lemma SetFrames(d: Disk, g: Geo, n: nat, v: nat, k: nat, i: nat)
    requires GeoOk(g, |d|) && n < Entries(g) && k <= g.nfats && i < |d| && (i < g.reserved || i >= DataStart(g))
    ensures SetCopies(d, g, n, v, k)[i] == d[i]
  {
    EntryInRange(g, 0, n);
  }

  /** Writing every copy keeps the copies identical. */
  lemma SetMirrors(d: Disk, g: Geo, n: nat, v: nat)
    requires GeoOk(g, |d|) && n < Entries(g) && Mirrored(d, g)
    ensures Mirrored(SetCopies(d, g, n, v, g.nfats), g)
  {
    EntryInRange(g, 0, n);
    if g.nfats == 2 {
      var d' := SetCopies(d, g, n, v, 2);
      forall s | 0 <= s < g.fatsz ensures MirrorAt(d', g, s) {
        assert MirrorAt(d, g, s);
      }
    }
  }

  /** Writing a data sector leaves every copy of the FAT alone. */
  lemma DataFrames(d: Disk, g: Geo, c: nat, sec: Sector)
    requires GeoOk(g, |d|) && 2 <= c < Entries(g)
    ensures Fat(d[DataLba(g, c) := sec], g, 0) == Fat(d, g, 0)
    ensures Mirrored(d, g) ==> Mirrored(d[DataLba(g, c) := sec], g)
  {
    var d' := d[DataLba(g, c) := sec];
    forall m | 0 <= m < Entries(g) ensures EntryAt(d', g, 0, m) == EntryAt(d, g, 0, m) {
      EntryInRange(g, 0, m);
    }
    if Mirrored(d, g) && g.nfats == 2 {
      forall s | 0 <= s < g.fatsz ensures MirrorAt(d', g, s) {
        assert MirrorAt(d, g, s);
      }
    }
  }
}
