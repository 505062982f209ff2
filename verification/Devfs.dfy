/** Byte-offset I/O on a block device: devfs_block_rw of fs/devfs.c is a clipped slice or splice
    of the device's flat byte array. */
module Devfs {
  import opened Bytes
  import opened Errno
  import opened Limits
  import opened Block

  /** A patched sector written back splices the patch into the flat array. */
  lemma PatchFlat(flat: seq<byte>, lba: nat, doff: nat, chunk: seq<byte>)
    requires 512 * lba + 512 <= |flat| && doff + |chunk| <= 512
    ensures Splice(flat, 512 * lba, Splice(flat[512 * lba..512 * lba + 512], doff, chunk)) == Splice(flat, 512 * lba + doff, chunk)
  {
  }

  /** The flat array after the first k bytes of buf were written at off. */
  function Wrote(flat: seq<byte>, off: nat, buf: seq<byte>, k: nat): seq<byte> {
    if 0 < k <= |buf| && off + k <= |flat| then Splice(flat, off, buf[..k]) else flat
  }

  /** The caller's buffer after k bytes were read from off. */
  function Got(flat: seq<byte>, off: nat, buf: seq<byte>, k: nat): (r: seq<byte>)
    ensures |r| == |buf|
  {
    if 0 < k <= |buf| && off + k <= |flat| then Splice(buf, 0, flat[off..off + k]) else buf
  }

  lemma WroteMore(flat: seq<byte>, off: nat, buf: seq<byte>, k: nat, n: nat)
    requires n > 0 && off + k + n <= |flat| && k + n <= |buf|
    ensures |Wrote(flat, off, buf, k)| == |flat|
    ensures Splice(Wrote(flat, off, buf, k), off + k, buf[k..k + n]) == Wrote(flat, off, buf, k + n)
  {
  }

  lemma GotMore(flat: seq<byte>, off: nat, buf: seq<byte>, k: nat, n: nat)
    requires n > 0 && off + k + n <= |flat| && k + n <= |buf|
    ensures Splice(Got(flat, off, buf, k), k, flat[off + k..off + k + n]) == Got(flat, off, buf, k + n)
  {
  }

  lemma SectorOf(pos: nat, n: nat, sectors: nat)
    requires 0 < n && pos % 512 + n <= 512 && pos + n <= 512 * sectors
    ensures 512 * (pos / 512) + pos % 512 == pos && pos / 512 + 1 <= sectors && (n == 512 ==> pos % 512 == 0)
  {
  }

  /** One sector's share of a write: whole sectors go straight out, partial ones are read, patched and written back. */
  method WriteChunk(bd: Device, pos: nat, chunk: seq<byte>) returns (r: int)
    requires bd.Valid() && pos < TWO64 && 0 < |chunk| && pos % 512 + |chunk| <= 512 && pos + |chunk| <= 512 * |bd.disk|
    modifies bd`disk, bd`lines, bd`faults
    ensures bd.Valid() && |bd.disk| == |old(bd.disk)| && (r == 0 || r == DEVERR) && bd.faults >= old(bd.faults)
    ensures r == 0 <==> bd.faults == old(bd.faults)
    ensures Flat(bd.disk) == if r == 0 then Splice(old(Flat(bd.disk)), pos, chunk) else old(Flat(bd.disk))
  {
    hide Flat, Padded, ToSectors, CacheOk, CacheOkBut, Stored, Splice;
    ghost var d0 := bd.disk;
    ghost var done;
    SectorOf(pos, |chunk|, |bd.disk|);
    var lba, doff := pos / 512, pos % 512;
    assert 512 * lba + doff == pos && lba + 1 <= |d0|;
    if |chunk| == 512 {
      WholeSector(d0, lba, chunk);
      r, done := bd.BlockWrite(lba, chunk);
    } else {
      var bounce;
      r, bounce := bd.BlockRead(lba, 512);
      if r != 0 { return; }
      var patched := Splice(bounce, doff, chunk);
      WholeSector(d0, lba, patched);
      PatchFlat(Flat(d0), lba, doff, chunk);
      r, done := bd.BlockWrite(lba, patched);
    }
  }

  lemma WholeSector(d: seq<Sector>, lba: nat, data: seq<byte>)
    requires |data| == 512
    ensures Padded(data) == data && |ToSectors(data)| == 1
    ensures Stored(d, lba, ToSectors(data), 0) == d
  {
  }

  /** One sector's share of a read. */
  method ReadChunk(bd: Device, pos: nat, n: nat) returns (r: int, out: seq<byte>)
    requires bd.Valid() && pos < TWO64 && 0 < n && pos % 512 + n <= 512 && pos + n <= 512 * |bd.disk|
    modifies bd`disk, bd`lines, bd`faults
    ensures bd.Valid() && bd.disk == old(bd.disk) && (r == 0 || r == DEVERR) && bd.faults >= old(bd.faults)
    ensures r == 0 <==> bd.faults == old(bd.faults)
    ensures r == 0 ==> out == Flat(bd.disk)[pos..pos + n]
  {
    hide Flat, CacheOk;
    var bounce;
    r, bounce := bd.BlockRead(pos / 512, 512);
    out := [];
    if r != 0 { return; }
    out := bounce[pos % 512..pos % 512 + n];
    SliceOfSlice(Flat(bd.disk), 512 * (pos / 512), pos % 512, n);
  }

  lemma SliceOfSlice(flat: seq<byte>, base: nat, doff: nat, n: nat)
    requires base + 512 <= |flat| && doff + n <= 512
    ensures flat[base..base + 512][doff..doff + n] == flat[base + doff..base + doff + n]
  {
    var a, b := flat[base..base + 512][doff..doff + n], flat[base + doff..base + doff + n];
    forall i | 0 <= i < n ensures a[i] == b[i] {}
  }

  /** devfs_block_rw: `done` bytes moved, all that lie on the device unless it fails. */
  method BlockRw(bd: Device, off: nat, buf: seq<byte>, write: bool) returns (r: int, buf': seq<byte>, ghost done: nat)
    requires bd.Valid() && off < TWO64 && 512 * |bd.disk| <= TWO64
    modifies bd`disk, bd`lines, bd`faults
    ensures bd.Valid() && |bd.disk| == |old(bd.disk)|
    ensures done <= Clip(off, |buf|, 512 * |bd.disk|) && bd.faults >= old(bd.faults)
    ensures done == Clip(off, |buf|, 512 * |bd.disk|) <==> bd.faults == old(bd.faults)
    ensures r == if done == 0 && bd.faults > old(bd.faults) then EIO else done
    ensures write ==> buf' == buf && Flat(bd.disk) == Wrote(old(Flat(bd.disk)), off, buf, done)
    ensures !write ==> bd.disk == old(bd.disk) && buf' == Got(Flat(bd.disk), off, buf, done)
  {
    hide Flat, CacheOk, Wrote, Got;
    ghost var flat := Flat(bd.disk);
    var cap := 512 * |bd.disk|;
    buf', done := buf, 0;
    NothingYet(flat, off, buf);
    if off >= cap { return 0, buf', done; }
    var n := if |buf| > cap - off then cap - off else |buf|;
    var k := 0;
    while k < n
      invariant 0 <= k == done <= n && bd.Valid() && 512 * |bd.disk| == cap == |flat| && |buf'| == |buf|
      invariant bd.faults == old(bd.faults)
      invariant write ==> buf' == buf && Flat(bd.disk) == Wrote(flat, off, buf, k)
      invariant !write ==> bd.disk == old(bd.disk) && buf' == Got(flat, off, buf, k)
    {
      var doff := (off + k) % 512;
      var chunk := 512 - doff;
      if chunk > n - k { chunk := n - k; }
      if write {
        WroteMore(flat, off, buf, k, chunk);
        r := WriteChunk(bd, off + k, buf[k..k + chunk]);
      } else {
        GotMore(flat, off, buf, k, chunk);
        var part;
        r, part := ReadChunk(bd, off + k, chunk);
        if r == 0 { buf' := Splice(buf', k, part); }
      }
      if r != 0 { return if k > 0 then k else EIO, buf', done; }
      k := k + chunk;
      done := k;
    }
    r := k;
  }

  lemma NothingYet(flat: seq<byte>, off: nat, buf: seq<byte>)
    ensures Wrote(flat, off, buf, 0) == flat && Got(flat, off, buf, 0) == buf
  {
  }
}
