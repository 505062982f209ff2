/** The A/B table of kernel/abmgr.c as bytes: two slots, a rollback counter and a CRC, one
    80-byte record at the start of a sector. */
module AbTable {
  import opened Bytes
  import opened Limits
  import Crc

  const AB_MAGIC: nat := 0x4142_4D47
  const AB_TABLE_VERSION: nat := 1
  const TABLE_BYTES: nat := 80

  /** struct ab_slot; the structure's four padding bytes travel with it. */
  datatype Slot = Slot(crc: nat, seqNo: nat, lba: nat, nsect: nat, attempts: byte, confirmed: byte, active: byte, valid: byte, pad: nat)

  datatype Table = Table(magic: nat, version: nat, slots: seq<Slot>, rollbacks: nat, crc: nat)

  predicate SlotFits(s: Slot) { s.crc < TWO32 && s.seqNo < TWO32 && s.lba < TWO64 && s.nsect < TWO64 && s.pad < TWO32 }

  predicate Fits(t: Table) {
    && t.magic < TWO32 && t.version < TWO32 && t.rollbacks < TWO32 && t.crc < TWO32
    && |t.slots| == 2 && SlotFits(t.slots[0]) && SlotFits(t.slots[1])
  }

  function Le64(v: nat): (r: seq<byte>)
    ensures |r| == 8
  {
    Le32(v % TWO32) + Le32(v / TWO32)
  }

  function Rd64(b: seq<byte>, off: nat): (v: nat)
    requires off + 8 <= |b|
    ensures v < TWO64
  {
    Rd32(b, off) + TWO32 * Rd32(b, off + 4)
  }

  function SlotBytes(s: Slot): (r: seq<byte>)
    ensures |r| == 32
  {
    Le32(s.crc) + Le32(s.seqNo) + Le64(s.lba) + Le64(s.nsect) + [s.attempts, s.confirmed, s.active, s.valid] + Le32(s.pad)
  }

  /** All of the record but its CRC. */
  function Body(t: Table): (r: seq<byte>)
    requires |t.slots| == 2
    ensures |r| == 76
  {
    Le32(t.magic) + Le32(t.version) + SlotBytes(t.slots[0]) + SlotBytes(t.slots[1]) + Le32(t.rollbacks)
  }

  /** table_crc */
  function TableCrc(t: Table): (r: nat)
    requires |t.slots| == 2
    ensures r < TWO32
  {
    Crc.Crc32(Body(t)) as int
  }

  function Encode(t: Table): (r: seq<byte>)
    requires |t.slots| == 2
    ensures |r| == TABLE_BYTES
  {
    Body(t) + Le32(t.crc)
  }

  function SlotAt(b: seq<byte>, off: nat): (s: Slot)
    requires off + 32 <= |b|
    ensures SlotFits(s)
  {
    Slot(Rd32(b, off), Rd32(b, off + 4), Rd64(b, off + 8), Rd64(b, off + 16),
         b[off + 24], b[off + 25], b[off + 26], b[off + 27], Rd32(b, off + 28))
  }

  /** The record at the start of a sector. */
  function Decode(b: Sector): (t: Table)
    ensures Fits(t)
  {
    Table(Rd32(b, 0), Rd32(b, 4), [SlotAt(b, 8), SlotAt(b, 40)], Rd32(b, 72), Rd32(b, 76))
  }

  predicate Valid(t: Table)
    requires |t.slots| == 2
  {
    t.magic == AB_MAGIC && t.version == AB_TABLE_VERSION && t.crc == TableCrc(t)
  }

  /** block_write of the record: the rest of the sector is zeros. */
  function Image(t: Table): Sector
    requires |t.slots| == 2
  {
    Splice(Zeros(512), 0, Encode(t))
  }

  // ---- what is written is read back --------------------------------------------------------------

  lemma Reads64(b: seq<byte>, off: nat, v: nat)
    requires off + 8 <= |b| && v < TWO64 && b[off..off + 8] == Le64(v)
    ensures Rd64(b, off) == v
  {
    assert b[off..off + 4] == b[off..off + 8][..4] == Le32(v % TWO32);
    assert b[off + 4..off + 8] == b[off..off + 8][4..] == Le32(v / TWO32);
    Reads32(b, off, v % TWO32);
    Reads32(b, off + 4, v / TWO32);
  }

  /** A slice of a slice. */
  lemma Inner(b: seq<byte>, off: nat, n: nat, i: nat, k: nat)
    requires off + n <= |b| && i + k <= n
    ensures b[off + i..off + i + k] == b[off..off + n][i..i + k]
  {
    var x, y := b[off + i..off + i + k], b[off..off + n][i..i + k];
    forall j | 0 <= j < k ensures x[j] == y[j] {}
  }

  lemma ReadsSlot(b: seq<byte>, off: nat, s: Slot)
    requires off + 32 <= |b| && SlotFits(s) && b[off..off + 32] == SlotBytes(s)
    ensures SlotAt(b, off) == s
  {
    hide Le32, Le64, Rd32, Rd64;
    var w := SlotBytes(s);
    assert w[0..4] == Le32(s.crc) && w[4..8] == Le32(s.seqNo) && w[8..16] == Le64(s.lba) && w[16..24] == Le64(s.nsect);
    assert w[24..28] == [s.attempts, s.confirmed, s.active, s.valid] && w[28..32] == Le32(s.pad);
    Inner(b, off, 32, 0, 4);
    Inner(b, off, 32, 4, 4);
    Inner(b, off, 32, 8, 8);
    Inner(b, off, 32, 16, 8);
    Inner(b, off, 32, 24, 4);
    Inner(b, off, 32, 28, 4);
    Reads32(b, off, s.crc);
    Reads32(b, off + 4, s.seqNo);
    Reads64(b, off + 8, s.lba);
    Reads64(b, off + 16, s.nsect);
    Reads32(b, off + 28, s.pad);
    var f := b[off + 24..off + 28];
    assert f[0] == b[off + 24] && f[1] == b[off + 25] && f[2] == b[off + 26] && f[3] == b[off + 27];
    assert f == [s.attempts, s.confirmed, s.active, s.valid];
    var r := SlotAt(b, off);
    assert r.crc == s.crc && r.seqNo == s.seqNo && r.lba == s.lba && r.nsect == s.nsect && r.pad == s.pad;
    assert r.attempts == s.attempts && r.confirmed == s.confirmed && r.active == s.active && r.valid == s.valid;
  }

  /** The record written by table_write is the record read back. */
  lemma ReadBack(t: Table)
    requires Fits(t)
    ensures Decode(Image(t)) == t
  {
    hide Le32, SlotBytes, Rd32, SlotAt;
    var b, w := Image(t), Encode(t);
    assert b[0..80] == w;
    assert w[0..4] == Le32(t.magic) && w[4..8] == Le32(t.version) && w[72..76] == Le32(t.rollbacks) && w[76..80] == Le32(t.crc);
    assert w[8..40] == SlotBytes(t.slots[0]) && w[40..72] == SlotBytes(t.slots[1]);
    Inner(b, 0, 80, 0, 4);
    Inner(b, 0, 80, 4, 4);
    Inner(b, 0, 80, 8, 32);
    Inner(b, 0, 80, 40, 32);
    Inner(b, 0, 80, 72, 4);
    Inner(b, 0, 80, 76, 4);
    Reads32(b, 0, t.magic);
    Reads32(b, 4, t.version);
    ReadsSlot(b, 8, t.slots[0]);
    ReadsSlot(b, 40, t.slots[1]);
    Reads32(b, 72, t.rollbacks);
    Reads32(b, 76, t.crc);
    assert t.slots == [t.slots[0], t.slots[1]];
  }

  /** Where the fields of the record stand in its sector: two words, the slots of 32 bytes each, the
      rollback counter and the CRC. */
  lemma RecordLayout(t: Table, i: nat)
    requires Fits(t) && i < 2
    ensures var b, at, slot := Image(t), 8 + 32 * i, t.slots[i];
      && Rd32(b, 0) == t.magic && Rd32(b, 4) == t.version && Rd32(b, 72) == t.rollbacks && Rd32(b, 76) == t.crc
      && Rd32(b, at) == slot.crc && Rd32(b, at + 4) == slot.seqNo
      && Rd32(b, at + 8) + TWO32 * Rd32(b, at + 12) == slot.lba && Rd32(b, at + 16) + TWO32 * Rd32(b, at + 20) == slot.nsect
      && b[at + 24] == slot.attempts && b[at + 25] == slot.confirmed && b[at + 26] == slot.active && b[at + 27] == slot.valid
  {
    ReadBack(t);
    hide Image, Rd32;
    assert Decode(Image(t)).slots[i] == SlotAt(Image(t), 8 + 32 * i);
  }
}
