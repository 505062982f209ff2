/** What fat32_mkfs writes and what fat32_sniff and fat_mount read out of it, with the
    32- and 64-bit arithmetic of the source. */
module FatFormat {
  import opened Bytes
  import opened Limits
  import opened Wrappers
  import opened FatTable
  import opened FatDisk
  import opened FatRuns

  const RESERVED: nat := 32
  const OEM: seq<byte> := [0x4D, 0x50, 0x4F, 0x53, 0x4F, 0x53, 0x20, 0]
  const LABEL: seq<byte> := [0x4D, 0x50, 0x4F, 0x53, 0x4F, 0x53, 0x44, 0x49, 0x53, 0x4B, 0x20]
  const FSTYPE: seq<byte> := [0x46, 0x41, 0x54, 0x33, 0x32, 0x20, 0x20, 0x20]

  /** Sectors per FAT copy: one per 130 sectors past the first 30, and two more.  The difference
      is taken in 64 bits, the quotient and the sum in 32. */
  function FatSize(nsect: nat): nat {
    ((((nsect - 30) % TWO64) / 130) % TWO32 + 2) % TWO32
  }

  /** What is left after the reserved sectors and both copies, cut to 32 bits. */
  function Clusters(nsect: nat): nat {
    ((nsect - RESERVED - (2 * FatSize(nsect)) % TWO32) % TWO64) % TWO32
  }

  function DataRel(nsect: nat): nat {
    (RESERVED + (2 * FatSize(nsect)) % TWO32) % TWO32
  }

  /** The sector counts fat32_mkfs accepts. */
  predicate Accepts(nsect: nat) {
    Clusters(nsect) >= 65525 && DataRel(nsect) + Clusters(nsect) <= nsect
  }

  function MadeGeo(nsect: nat): Geo {
    Geo(RESERVED, 2, FatSize(nsect), Clusters(nsect))
  }

  lemma ModSmall(x: nat, m: nat)
    requires x < m
    ensures x % m == x
  {
  }

  lemma SizesOf(nsect: nat)
    requires 200 <= nsect < TWO32
    ensures var q := (nsect - 30) / 130;
      FatSize(nsect) == q + 2 && Clusters(nsect) == nsect - 36 - 2 * q && DataRel(nsect) == 36 + 2 * q
  {
    var q: nat := (nsect - 30) / 130;
    assert 130 * q <= nsect - 30 < 130 * q + 130;
    ModSmall(nsect - 30, TWO64);
    ModSmall(q, TWO32);
    ModSmall(q + 2, TWO32);
    assert FatSize(nsect) == q + 2;
    hide FatSize;
    ModSmall(2 * FatSize(nsect), TWO32);
    ModSmall(RESERVED + 2 * FatSize(nsect), TWO32);
    ModSmall(nsect - 36 - 2 * q, TWO64);
    ModSmall(nsect - 36 - 2 * q, TWO32);
    assert nsect - RESERVED - 2 * FatSize(nsect) == nsect - 36 - 2 * q;
  }

  /** Below 2^32 sectors nothing wraps in an accepted layout: the FAT covers every cluster,
      the clusters fill the window exactly, and the geometry is one the volume code can use. */
  lemma LayoutFits(nsect: nat)
    requires nsect < TWO32 && Accepts(nsect)
    ensures nsect >= 30 && FatSize(nsect) == (nsect - 30) / 130 + 2
    ensures DataStart(MadeGeo(nsect)) == DataRel(nsect) && DataRel(nsect) + Clusters(nsect) == nsect
    ensures GeoOk(MadeGeo(nsect), nsect) && 65525 <= Clusters(nsect)
  {
    SizesOf(nsect);
    var q := (nsect - 30) / 130;
    assert nsect - 30 < 130 * (q + 1);
    hide FatSize, Clusters, DataRel, Accepts;
  }

  /** Exactly the accepted sizes: from 66583 sectors on. */
  lemma AcceptsFrom(nsect: nat)
    requires nsect < TWO32
    ensures Accepts(nsect) <==> nsect >= 66583
  {
    if nsect >= 200 {
      SizesOf(nsect);
    }
  }

  // ---- the image ---------------------------------------------------------------------

  function BootSector(nsect: nat, fatsz: nat): Sector {
    var s1 := Splice(Zeros(512), 0, [0xEB, 0x3C, 0x90]);
    var s2 := Wr16(Splice(s1, 3, OEM), 11, 512)[13 := 1];
    var s3 := Wr16(s2, 14, RESERVED)[16 := 2];
    var s4 := Wr16(Wr16(s3, 17, 0), 19, 0)[21 := 0xF8];
    var s5 := Wr16(Wr16(Wr16(s4, 22, 0), 24, 63), 26, 255);
    var s6 := Wr32(Wr32(Wr32(Wr32(s5, 28, 0), 32, nsect), 36, fatsz), 40, 0);
    var s7 := Wr16(Wr16(Wr16(s6, 44, 2), 46, 1), 48, 6)[64 := 0x80][65 := 0x29];
    var s8 := Splice(Splice(Wr32(s7, 67, 0x4D504F53), 71, LABEL), 82, FSTYPE);
    s8[510 := 0x55][511 := 0xAA]
  }

  function FsInfo(): Sector {
    var s := Wr32(Wr32(Zeros(512), 0, 0x41615252), 484, 0x61417272);
    Wr32(Wr32(Wr32(s, 488, 0xFFFFFFFF), 492, 0xFFFFFFFF), 508, 0xAA550000)
  }

  /** The FSInfo signatures, and no hint where to look for free clusters or how many there are. */
  predicate IsFsInfo(s: Sector) {
    && s[0..4] == [0x52, 0x52, 0x61, 0x41] && s[484..488] == [0x72, 0x72, 0x41, 0x61]
    && Rd32(s, 488) == 0xFFFFFFFF && Rd32(s, 492) == 0xFFFFFFFF && s[508..512] == [0, 0, 0x55, 0xAA]
  }

  lemma FsInfoIs()
    ensures IsFsInfo(FsInfo())
  {
    FsInfoFields();
    Signatures();
    hide Le32, FsInfo, Rd32;
    var s := FsInfo();
    Reads32(s, 488, 0xFFFFFFFF);
    Reads32(s, 492, 0xFFFFFFFF);
  }

  lemma FsInfoFields()
    ensures var s := FsInfo();
      && s[0..4] == Le32(0x41615252) && s[484..488] == Le32(0x61417272) && s[488..492] == Le32(0xFFFFFFFF)
      && s[492..496] == Le32(0xFFFFFFFF) && s[508..512] == Le32(0xAA550000)
  {
    hide Le32;
  }

  lemma Signatures()
    ensures Le32(0x41615252) == [0x52, 0x52, 0x61, 0x41] && Le32(0x61417272) == [0x72, 0x72, 0x41, 0x61]
    ensures Le32(0xAA550000) == [0, 0, 0x55, 0xAA]
  {
  }

  /** First sector of each FAT copy: the two reserved entries and the root's end mark. */
  function FatHead(): Sector {
    Wr32(Wr32(Wr32(Zeros(512), 0, 0x0FFFFFF8), 4, 0x0FFFFFFF), 8, 0x0FFFFFFF)
  }

  function FatSector(s: nat): Sector { if s == 0 then FatHead() else Zeros(512) }

  /** The fields a reader looks at. */
  lemma BootFields(nsect: nat, fatsz: nat)
    requires nsect < TWO32 && fatsz < TWO32
    ensures var b := BootSector(nsect, fatsz);
      && b[510] == 0x55 && b[511] == 0xAA && Rd16(b, 11) == 512 && b[13] == 1
      && Rd16(b, 14) == RESERVED && b[16] == 2 && Rd16(b, 44) == 2
      && Rd32(b, 36) == fatsz && Rd32(b, 32) == nsect
  {
    Recompose(nsect);
    Recompose(fatsz);
    var b := BootSector(nsect, fatsz);
    assert b[32..36] == Le32(nsect) && b[36..40] == Le32(fatsz);
    assert b[11] == 0 && b[12] == 2 && b[14] == 32 && b[15] == 0 && b[44] == 2 && b[45] == 0;
  }

  lemma SmallWord(v: nat)
    requires v < 0x100
    ensures Le16(v) == [v, 0]
  {
  }

  /** The fields no reader looks at: jump, OEM name and media. */
  lemma BootStart(nsect: nat, fatsz: nat)
    ensures var b := BootSector(nsect, fatsz); b[0..3] == [0xEB, 0x3C, 0x90] && b[3..11] == OEM && b[21] == 0xF8
  {
    hide Le16, Le32;
    var b := BootSector(nsect, fatsz);
    assert b[0] == 0xEB && b[1] == 0x3C && b[2] == 0x90;
    forall i | 0 <= i < 8 ensures b[3 + i] == OEM[i] {}
  }

  /** No root entries, no 16-bit totals and no hidden sectors. */
  lemma BootZeros(nsect: nat, fatsz: nat)
    ensures var b := BootSector(nsect, fatsz); b[17..21] == Zeros(4) && b[22..24] == Zeros(2) && b[28..32] == Zeros(4)
  {
    ZeroFields();
    hide Le16, Le32;
    var b := BootSector(nsect, fatsz);
    assert b[17..19] == Le16(0) && b[19..21] == Le16(0) && b[22..24] == Le16(0) && b[28..32] == Le32(0);
    assert b[17..21] == b[17..19] + b[19..21];
  }

  lemma ZeroFields()
    ensures Le16(0) == Zeros(2) && Le32(0) == Zeros(4) && Zeros(2) + Zeros(2) == Zeros(4)
  {
  }

  /** The geometry for old BIOSes. */
  lemma BootGeometry(nsect: nat, fatsz: nat)
    ensures var b := BootSector(nsect, fatsz); b[24..26] == [63, 0] && b[26..28] == [255, 0]
  {
    SmallWord(63);
    SmallWord(255);
    hide Le16, Le32;
    var b := BootSector(nsect, fatsz);
    assert b[24..26] == Le16(63) && b[26..28] == Le16(255);
  }

  /** The places of FSInfo (sector 1) and the backup boot sector (6), the drive, and the labels. */
  lemma BootEnd(nsect: nat, fatsz: nat)
    ensures var b := BootSector(nsect, fatsz);
      && b[46..48] == [1, 0] && b[48..50] == [6, 0] && b[64] == 0x80 && b[65] == 0x29 && b[71..82] == LABEL && b[82..90] == FSTYPE
  {
    SmallWord(1);
    SmallWord(6);
    hide Le16, Le32;
    var b := BootSector(nsect, fatsz);
    assert b[46..48] == Le16(1) && b[48..50] == Le16(6);
    forall i | 0 <= i < 11 ensures b[71 + i] == LABEL[i] {}
    forall i | 0 <= i < 8 ensures b[82 + i] == FSTYPE[i] {}
  }

  /** The volume d was formatted for nsect sectors: boot sector and FSInfo with their backups, both
      FAT copies and an empty root directory. */
  ghost predicate IsFormatted(d: Disk, nsect: nat) {
    && Accepts(nsect) && nsect < TWO32 && GeoOk(MadeGeo(nsect), |d|)
    && d[0] == d[6] == BootSector(nsect, FatSize(nsect)) && IsFsInfo(d[1]) && d[7] == d[1]
    && CopyWritten(d, RESERVED, FatSize(nsect)) && CopyWritten(d, RESERVED + FatSize(nsect), FatSize(nsect))
    && Data(d, MadeGeo(nsect), 2) == Zeros(512)
  }

  /** The first n sectors of a fresh FAT copy stand at sector `base`. */
  ghost predicate CopyWritten(d: Disk, base: nat, n: nat) {
    base + n <= |d| && forall i :: base <= i < base + n ==> d[i] == FatSector(i - base)
  }

  lemma FatSectorEntry(s: nat, k: nat)
    requires k < 128
    ensures Rd32(FatSector(s), 4 * k) ==
      if s == 0 && k == 0 then 0x0FFFFFF8 else if s == 0 && k <= 2 then 0x0FFFFFFF else 0
  {
    var z := Zeros(512);
    var a := Wr32(z, 0, 0x0FFFFFF8);
    var b := Wr32(a, 4, 0x0FFFFFFF);
    if s == 0 {
      ReadBack32(z, 0, 0x0FFFFFF8);
      ReadBack32(a, 4, 0x0FFFFFFF);
      ReadBack32(b, 8, 0x0FFFFFFF);
      if k != 0 { ReadOther32(z, 0, 0x0FFFFFF8, 4 * k); }
      if k != 1 { ReadOther32(a, 4, 0x0FFFFFFF, 4 * k); }
      if k != 2 { ReadOther32(b, 8, 0x0FFFFFFF, 4 * k); }
    }
  }

  /** Both copies of a fresh FAT hold the table of Formatted: the root's one-cluster chain
      and nothing else. */
  lemma FormattedTable(d: Disk, nsect: nat)
    requires IsFormatted(d, nsect)
    ensures Fat(d, MadeGeo(nsect), 0) == Formatted(Entries(MadeGeo(nsect))).fat
    ensures Mirrored(d, MadeGeo(nsect))
  {
    var g := MadeGeo(nsect);
    LayoutFits(nsect);
    forall n | 0 <= n < Entries(g) ensures EntryAt(d, g, 0, n) == Formatted(Entries(g)).fat[n] {
      EntryInRange(g, 0, n);
      assert d[RESERVED + n / 128] == FatSector(n / 128);
      FatSectorEntry(n / 128, n % 128);
    }
    forall s | 0 <= s < g.fatsz ensures MirrorAt(d, g, s) {
      assert d[RESERVED + s] == FatSector(s) && d[RESERVED + FatSize(nsect) + s] == FatSector(s);
    }
  }

  /** Clearing the root directory completes the image. */
  lemma ImageComplete(d: Disk, nsect: nat)
    requires Accepts(nsect) && nsect < TWO32 && nsect <= |d| && |d| > 7
    requires d[0] == d[6] == BootSector(nsect, FatSize(nsect)) && IsFsInfo(d[1]) && d[7] == d[1]
    requires CopyWritten(d, RESERVED, FatSize(nsect)) && CopyWritten(d, RESERVED + FatSize(nsect), FatSize(nsect))
    ensures DataRel(nsect) < |d| && IsFormatted(d[DataRel(nsect) := Zeros(512)], nsect)
  {
    hide BootSector, FatSector;
    LayoutFits(nsect);
    SizesOf(nsect);
  }

  /** All a fresh image promises to whoever mounts it. */
  lemma FreshVolume(d: Disk, nsect: nat)
    requires IsFormatted(d, nsect)
    ensures nsect >= 66583 && |d| > 0 && GeoOk(MadeGeo(nsect), |d|) && Entries(MadeGeo(nsect)) >= 3
    ensures Mounts(d[0]) == Some((Params(1, RESERVED, 2, FatSize(nsect), nsect, DataRel(nsect), 2), Clusters(nsect)))
    ensures Fat(d, MadeGeo(nsect), 0) == Formatted(Entries(MadeGeo(nsect))).fat && Mirrored(d, MadeGeo(nsect))
    ensures Data(d, MadeGeo(nsect), 2) == Zeros(512)
  {
    hide BootSector, FatSector, Mounts;
    FormattedMounts(d, nsect);
    FormattedTable(d, nsect);
    AcceptsFrom(nsect);
  }

  // ---- reading it back ------------------------------------------------------------------

  predicate Pow2(v: nat) {
    v == 1 || v == 2 || v == 4 || v == 8 || v == 16 || v == 32 || v == 64 || v == 128
  }

  datatype Params = Params(spc: nat, res: nat, nfat: nat, fatsz: nat, totsec: nat, dataStart: nat, root: nat)

  /** The fields both readers take from a boot sector, the 16-bit ones standing in for zero 32-bit ones. */
  function ReadParams(bs: Sector): Params {
    var fatsz := if Rd32(bs, 36) != 0 then Rd32(bs, 36) else Rd16(bs, 22);
    var totsec := if Rd32(bs, 32) != 0 then Rd32(bs, 32) else Rd16(bs, 19);
    var nfat: nat := bs[16];
    Params(bs[13], Rd16(bs, 14), nfat, fatsz, totsec, (Rd16(bs, 14) + nfat * fatsz) % TWO32, Rd16(bs, 44))
  }

  predicate Signed(bs: Sector) {
    bs[510] == 0x55 && bs[511] == 0xAA && Rd16(bs, 11) == 512
  }

  /** fat32_sniff on the boot sector of a window of nsect sectors */
  predicate Sniffs(bs: Sector, nsect: nat) {
    var p := ReadParams(bs);
    && nsect != 0 && Signed(bs)
    && Pow2(p.spc) && p.res != 0 && (p.nfat == 1 || p.nfat == 2) && p.fatsz != 0
    && p.totsec > p.dataStart && p.totsec <= nsect
    && (p.totsec - p.dataStart) / p.spc >= 4085
    && 2 <= p.root < (p.totsec - p.dataStart) / p.spc + 2
  }

  /** fat_mount on a boot sector: the geometry and the root cluster, or a refusal. */
  function Mounts(bs: Sector): Option<(Params, nat)> {
    var p := ReadParams(bs);
    if !Signed(bs) || !Pow2(p.spc) || p.res == 0 || (p.nfat != 1 && p.nfat != 2) then None else
    var clusters := if p.totsec > p.dataStart then (p.totsec - p.dataStart) / p.spc else 0;
    if p.fatsz == 0 || clusters < 4085 || p.root < 2 || p.root >= clusters + 2 then None
    else Some((p, clusters))
  }

  lemma FieldsMount(bs: Sector, nsect: nat, fatsz: nat, clusters: nat)
    requires Signed(bs) && bs[13] == 1 && Rd16(bs, 14) == RESERVED && bs[16] == 2 && Rd16(bs, 44) == 2
    requires Rd32(bs, 36) == fatsz > 0 && Rd32(bs, 32) == nsect
    requires RESERVED + 2 * fatsz < TWO32 && RESERVED + 2 * fatsz + clusters == nsect && clusters >= 4085
    ensures Sniffs(bs, nsect)
    ensures Mounts(bs) == Some((Params(1, RESERVED, 2, fatsz, nsect, RESERVED + 2 * fatsz, 2), clusters))
  {
    hide Rd16, Rd32;
    ModSmall(RESERVED + 2 * fatsz, TWO32);
    assert ReadParams(bs) == Params(1, RESERVED, 2, fatsz, nsect, RESERVED + 2 * fatsz, 2);
  }

  /** A freshly formatted volume is recognised and mounted with the layout it was made with. */
  lemma FormattedMounts(d: Disk, nsect: nat)
    requires IsFormatted(d, nsect)
    ensures Sniffs(d[0], nsect)
    ensures Mounts(d[0]) == Some((Params(1, RESERVED, 2, FatSize(nsect), nsect, DataRel(nsect), 2), Clusters(nsect)))
  {
    hide Sniffs, Mounts, BootSector;
    BootMounts(nsect);
  }

  lemma BootMounts(nsect: nat)
    requires nsect < TWO32 && Accepts(nsect)
    ensures var b := BootSector(nsect, FatSize(nsect));
      && Sniffs(b, nsect)
      && Mounts(b) == Some((Params(1, RESERVED, 2, FatSize(nsect), nsect, DataRel(nsect), 2), Clusters(nsect)))
  {
    hide BootSector, Sniffs, Mounts, Rd16, Rd32;
    LayoutFits(nsect);
    SizesOf(nsect);
    BootFields(nsect, FatSize(nsect));
    FieldsMount(BootSector(nsect, FatSize(nsect)), nsect, FatSize(nsect), Clusters(nsect));
  }

  /** g is the mounted geometry of a volume freshly formatted for nsect sectors. */
  ghost predicate FreshlyMounted(d: Disk, g: Geo, nsect: nat) {
    && nsect >= 66583 && GeoOk(g, |d|) && Entries(g) >= 3
    && Fat(d, g, 0) == Formatted(Entries(g)).fat && Mirrored(d, g) && Data(d, g, 2) == Zeros(512)
    && g == MadeGeo(nsect)
  }

  lemma MountIsFresh(d: Disk, g: Geo, nsect: nat)
    requires IsFormatted(d, nsect) && |d| > 0 && Mounts(d[0]).Some?
    requires var (p, clusters) := Mounts(d[0]).value; g == Geo(p.res, p.nfat, p.fatsz, clusters)
    ensures FreshlyMounted(d, g, nsect)
  {
    hide Mounts, Fat, Mirrored, IsFormatted;
    FreshVolume(d, nsect);
  }

  /** sniff accepts only what mount accepts. */
  lemma SniffImpliesMount(bs: Sector, nsect: nat)
    requires Sniffs(bs, nsect)
    ensures Mounts(bs).Some?
  {
  }

  // ---- a format that stops part-way ----------------------------------------------------------

  /** The i-th sector fat32_mkfs writes, and what it writes there: the boot sector comes first. */
  function FormatWrite(nsect: nat, i: nat): (nat, Sector) {
    var fatsz := FatSize(nsect);
    if i < 2 then (if i == 0 then 0 else 6, BootSector(nsect, fatsz))
    else if i < 4 then (if i == 2 then 1 else 7, FsInfo())
    else if i < 4 + fatsz then (RESERVED + i - 4, FatSector(i - 4))
    else if i < 4 + 2 * fatsz then (RESERVED + i - 4, FatSector(i - 4 - fatsz))
    else (DataRel(nsect), Zeros(512))
  }

  function FormatWrites(nsect: nat): nat { 5 + 2 * FatSize(nsect) }

  lemma NoWrites(nsect: nat)
    ensures FormatWrites(nsect) > 0
  {
    hide FatSize;
  }

  /** The disk after the first k writes of a format. */
  function PartFormatted(d: Disk, nsect: nat, k: nat): (r: Disk)
    ensures |r| == |d|
    decreases k
  {
    if k == 0 then d
    else
      var (lba, sec) := FormatWrite(nsect, k - 1);
      var p := PartFormatted(d, nsect, k - 1);
      if lba < |p| then p[lba := sec] else p
  }

  lemma OneWrite(d: Disk, nsect: nat, k: nat)
    ensures PartFormatted(d, nsect, 0) == d
    ensures var (p, w) := (PartFormatted(d, nsect, k), FormatWrite(nsect, k));
      PartFormatted(d, nsect, k + 1) == if w.0 < |p| then p[w.0 := w.1] else p
  {
    hide FormatWrite;
  }

  lemma HeaderWrites(nsect: nat)
    ensures FormatWrite(nsect, 0) == (0, BootSector(nsect, FatSize(nsect)))
    ensures FormatWrite(nsect, 1) == (6, BootSector(nsect, FatSize(nsect)))
    ensures FormatWrite(nsect, 2) == (1, FsInfo()) && FormatWrite(nsect, 3) == (7, FsInfo())
  {
    hide FatSize, BootSector, FsInfo, FatSector, DataRel;
  }

  lemma LastWrite(nsect: nat)
    ensures FormatWrite(nsect, 4 + 2 * FatSize(nsect)) == (DataRel(nsect), Zeros(512))
  {
    hide FatSize, BootSector, FsInfo, FatSector, DataRel;
  }

  /** The writes of the code's two FAT loops. */
  lemma CopyWrites(nsect: nat, copy: nat, i: nat)
    requires copy < 2 && i < FatSize(nsect)
    ensures FormatWrite(nsect, 4 + copy * FatSize(nsect) + i) == (RESERVED + copy * FatSize(nsect) + i, FatSector(i))
  {
    hide FatSize, BootSector, FsInfo, FatSector, DataRel;
  }

  /** A sector none of the first k writes goes to is as it was. */
  lemma {:induction false} Unwritten(d: Disk, nsect: nat, k: nat, lba: nat)
    requires lba < |d| && forall i :: 0 <= i < k ==> FormatWrite(nsect, i).0 != lba
    ensures PartFormatted(d, nsect, k)[lba] == d[lba]
    decreases k
  {
    hide FormatWrite;
    if k > 0 { Unwritten(d, nsect, k - 1, lba); }
  }

  /** From the first write on the boot sector is the new one, and from the fourth on so are its
      backup and FSInfo. */
  lemma {:induction false} BootFirst(d: Disk, nsect: nat, k: nat)
    requires 1 <= k <= FormatWrites(nsect) && nsect < TWO32 && Accepts(nsect) && |d| > 7
    ensures var p := PartFormatted(d, nsect, k);
      && p[0] == BootSector(nsect, FatSize(nsect))
      && (k >= 2 ==> p[6] == p[0]) && (k >= 3 ==> p[1] == FsInfo()) && (k >= 4 ==> p[7] == p[1])
    decreases k
  {
    hide BootSector, FatSector, FsInfo;
    LayoutFits(nsect);
    hide FatSize, Accepts, Clusters;
    if k > 1 { BootFirst(d, nsect, k - 1); }
  }

  /** After k writes of a format of d, a sniff that says yes sees a complete image. */
  ghost predicate SniffHonest(d: Disk, nsect: nat, k: nat)
    requires |d| > 0
  {
    Sniffs(PartFormatted(d, nsect, k)[0], nsect) ==> IsFormatted(PartFormatted(d, nsect, k), nsect)
  }

  /** A disk of 0xFF bytes. */
  function Erased(nsect: nat): (d: Disk)
    ensures |d| == nsect
  {
    seq(nsect, _ => seq(512, _ => 0xFF))
  }

  lemma {:induction false} CopyGrows(d: Disk, nsect: nat, copy: nat, n: nat)
    requires copy < 2 && n <= FatSize(nsect) && RESERVED + 2 * FatSize(nsect) <= |d|
    ensures CopyWritten(PartFormatted(d, nsect, 4 + copy * FatSize(nsect) + n), RESERVED + copy * FatSize(nsect), n)
    decreases n
  {
    hide FatSize, FormatWrite, PartFormatted, FatSector;
    if n > 0 {
      var k := 4 + copy * FatSize(nsect) + n - 1;
      CopyGrows(d, nsect, copy, n - 1);
      OneWrite(d, nsect, k);
      CopyWrites(nsect, copy, n - 1);
    }
  }

  /** The second copy goes behind the first. */
  lemma {:induction false} FirstCopyStays(d: Disk, nsect: nat, n: nat)
    requires n <= FatSize(nsect) && RESERVED + 2 * FatSize(nsect) <= |d|
    ensures CopyWritten(PartFormatted(d, nsect, 4 + FatSize(nsect) + n), RESERVED, FatSize(nsect))
    decreases n
  {
    hide FatSize, FormatWrite, PartFormatted, FatSector;
    if n == 0 {
      CopyGrows(d, nsect, 0, FatSize(nsect));
    } else {
      FirstCopyStays(d, nsect, n - 1);
      OneWrite(d, nsect, 4 + FatSize(nsect) + n - 1);
      CopyWrites(nsect, 1, n - 1);
    }
  }

  lemma LayoutInside(nsect: nat)
    requires nsect < TWO32 && Accepts(nsect)
    ensures RESERVED + 2 * FatSize(nsect) == DataRel(nsect) < nsect && nsect > 7 && FormatWrites(nsect) == 5 + 2 * FatSize(nsect)
  {
    LayoutFits(nsect);
    SizesOf(nsect);
  }

  /** All writes make the image complete. */
  lemma AllWritten(d: Disk, nsect: nat)
    requires nsect < TWO32 && Accepts(nsect) && nsect <= |d|
    ensures IsFormatted(PartFormatted(d, nsect, FormatWrites(nsect)), nsect)
  {
    hide *;
    LayoutInside(nsect);
    var k := 4 + 2 * FatSize(nsect);
    BootFirst(d, nsect, k);
    FsInfoIs();
    CopyGrows(d, nsect, 1, FatSize(nsect));
    FirstCopyStays(d, nsect, FatSize(nsect));
    OneWrite(d, nsect, k);
    LastWrite(nsect);
    ImageComplete(PartFormatted(d, nsect, k), nsect);
  }

  /** Fewer writes leave the root directory as it was. */
  lemma RootWaits(d: Disk, nsect: nat, k: nat)
    requires nsect < TWO32 && Accepts(nsect) && nsect <= |d| && k < FormatWrites(nsect)
    ensures GeoOk(MadeGeo(nsect), |d|) && Data(PartFormatted(d, nsect, k), MadeGeo(nsect), 2) == Data(d, MadeGeo(nsect), 2)
  {
    LayoutFits(nsect);
    hide FatSize, PartFormatted, FatSector, BootSector, FsInfo, Accepts;
    Unwritten(d, nsect, k, DataRel(nsect));
  }

  /** The first four writes leave the table as it was. */
  lemma TableWaits(d: Disk, nsect: nat, k: nat)
    requires nsect < TWO32 && Accepts(nsect) && nsect <= |d| && k <= 4
    ensures GeoOk(MadeGeo(nsect), |d|) && Fat(PartFormatted(d, nsect, k), MadeGeo(nsect), 0) == Fat(d, MadeGeo(nsect), 0)
  {
    LayoutFits(nsect);
    hide FatSize, PartFormatted, FatSector, BootSector, FsInfo, Accepts;
    var g := MadeGeo(nsect);
    forall n | 0 <= n < Entries(g) ensures EntryAt(PartFormatted(d, nsect, k), g, 0, n) == EntryAt(d, g, 0, n) {
      EntryInRange(g, 0, n);
      Unwritten(d, nsect, k, RESERVED + n / 128);
    }
  }

  lemma ErasedUnknown(nsect: nat)
    requires nsect > 0
    ensures !Sniffs(Erased(nsect)[0], nsect) && forall i :: 0 <= i < nsect ==> Erased(nsect)[i] != Zeros(512)
  {
    assert Erased(nsect)[0][510] == 0xFF;
    forall i | 0 <= i < nsect ensures Erased(nsect)[i] != Zeros(512) { assert Erased(nsect)[i][0] == 0xFF; }
  }

  /** Formatting what sniff does not know: whether sniff says yes to complete images only,
      after k writes and whatever the disk held. */
  lemma PartFormatExactly(nsect: nat, k: nat)
    requires nsect < TWO32 && Accepts(nsect) && k <= FormatWrites(nsect)
    ensures (forall d: Disk :: |d| >= nsect && |d| > 0 && !Sniffs(d[0], nsect) ==> SniffHonest(d, nsect, k))
       <==> k == 0 || k == FormatWrites(nsect)
  {
    LayoutFits(nsect);
    hide PartFormatted, FatSize, Sniffs, Accepts, BootSector, Erased, FatSector, Clusters;
    if k == 0 {
      forall d: Disk | |d| >= nsect && |d| > 0 && !Sniffs(d[0], nsect) ensures SniffHonest(d, nsect, k) { OneWrite(d, nsect, 0); }
    } else if k == FormatWrites(nsect) {
      forall d: Disk | |d| >= nsect && |d| > 0 && !Sniffs(d[0], nsect) ensures SniffHonest(d, nsect, k) { AllWritten(d, nsect); }
    } else {
      var d := Erased(nsect);
      ErasedUnknown(nsect);
      BootFirst(d, nsect, k);
      BootMounts(nsect);
      RootWaits(d, nsect, k);
      assert !SniffHonest(d, nsect, k);
    }
  }
}
