/** The block layer: the direct-mapped write-through sector cache, chunked transfers and byte
    tails of drivers/block.c, and the byte-offset I/O of fs/devfs.c on top, all agreeing with
    one flat byte array. */
module Block {
  import opened Bytes
  import opened Errno
  import opened Limits

  const CACHE_ENTRIES: nat := 16

  datatype Line = Line(valid: bool, lba: nat, data: Sector)

  // ---- the flat view -------------------------------------------------------------------------

  function ByteAt(d: seq<Sector>, p: nat): byte
    requires p < 512 * |d|
  {
    d[p / 512][p % 512]
  }

  /** The bytes of the sectors in order. */
  function Flat(d: seq<Sector>): (r: seq<byte>)
    ensures |r| == 512 * |d|
  {
    seq(512 * |d|, p requires 0 <= p < 512 * |d| => ByteAt(d, p))
  }

  lemma FlatSlice(d: seq<Sector>, i: nat, n: nat)
    requires i + n <= |d|
    ensures Flat(d[i..i + n]) == Flat(d)[512 * i..512 * (i + n)]
  {
    var a, b := Flat(d[i..i + n]), Flat(d)[512 * i..512 * (i + n)];
    forall p | 0 <= p < 512 * n ensures a[p] == b[p] {
      assert (512 * i + p) / 512 == i + p / 512 && (512 * i + p) % 512 == p % 512;
    }
  }

  lemma FlatSplice(d: seq<Sector>, i: nat, s: seq<Sector>)
    requires i + |s| <= |d|
    ensures Flat(Splice(d, i, s)) == Splice(Flat(d), 512 * i, Flat(s))
  {
    var a, b := Flat(Splice(d, i, s)), Splice(Flat(d), 512 * i, Flat(s));
    forall p | 0 <= p < 512 * |d| ensures a[p] == b[p] {
      if 512 * i <= p < 512 * (i + |s|) {
        assert (p - 512 * i) / 512 == p / 512 - i && (p - 512 * i) % 512 == p % 512;
      }
    }
  }

  lemma FlatOne(s: Sector)
    ensures Flat([s]) == s
  {
    forall p | 0 <= p < 512 ensures Flat([s])[p] == s[p] {}
  }

  /** The whole sectors of a byte string. */
  function Sectors(b: seq<byte>): (r: seq<Sector>)
    ensures |r| == |b| / 512
  {
    seq(|b| / 512, i requires 0 <= i < |b| / 512 => b[512 * i..512 * i + 512])
  }

  lemma FlatSectors(b: seq<byte>)
    ensures Flat(Sectors(b)) == b[..512 * (|b| / 512)]
  {
    forall p | 0 <= p < 512 * (|b| / 512) ensures Flat(Sectors(b))[p] == b[p] {
      assert 512 * (p / 512) + p % 512 == p;
    }
  }

  // ---- the cache ---------------------------------------------------------------------------------

  /** Every valid line outside the sectors [lo, hi) equals its device sector, in the line it maps to. */
  ghost predicate CacheOkBut(lines: seq<Line>, disk: seq<Sector>, lo: nat, hi: nat) {
    && |lines| == CACHE_ENTRIES
    && forall i :: 0 <= i < CACHE_ENTRIES && lines[i].valid ==>
         && lines[i].lba % CACHE_ENTRIES == i && lines[i].lba < |disk|
         && (lo <= lines[i].lba < hi || lines[i].data == disk[lines[i].lba])
  }

  ghost predicate CacheOk(lines: seq<Line>, disk: seq<Sector>) { CacheOkBut(lines, disk, 0, 0) }

  lemma WriteStales(lines: seq<Line>, disk: seq<Sector>, lba: nat, data: seq<Sector>)
    requires CacheOk(lines, disk) && lba + |data| <= |disk|
    ensures CacheOkBut(lines, Splice(disk, lba, data), lba, lba + |data|)
  {
  }

  /** Refreshing sectors lo.. one by one makes them agree again. */
  lemma FillFresh(lines: seq<Line>, disk: seq<Sector>, lo: nat, hi: nat)
    requires CacheOkBut(lines, disk, lo, hi) && lo < hi <= |disk|
    ensures CacheOkBut(lines[lo % CACHE_ENTRIES := Line(true, lo, disk[lo])], disk, lo + 1, hi)
  {
    var i := lo % CACHE_ENTRIES;
    forall k | 0 <= k < CACHE_ENTRIES && k != i && lines[k].valid ensures lines[k].lba != lo {}
  }

  lemma AllFilled(lines: seq<Line>, disk: seq<Sector>, hi: nat)
    requires CacheOkBut(lines, disk, hi, hi)
    ensures CacheOk(lines, disk)
  {
  }

  /** The first `done` sectors of buf stored from lba on. */
  function Stored(disk: seq<Sector>, lba: nat, buf: seq<Sector>, done: nat): seq<Sector> {
    if 0 < done <= |buf| && lba + done <= |disk| then Splice(disk, lba, buf[..done]) else disk
  }

  /** The first `done` sectors of buf loaded from lba on. */
  function Loaded(disk: seq<Sector>, lba: nat, buf: seq<Sector>, done: nat): seq<Sector> {
    if 0 < done <= |buf| && lba + done <= |disk| then Splice(buf, 0, disk[lba..lba + done]) else buf
  }

  class Device {
    var disk: seq<Sector>
    const maxSectors: nat
    const cached: bool
    var lines: seq<Line>
    /** How many transfers the device has failed so far. */
    ghost var faults: nat

    ghost predicate Valid()
      reads this
    {
      maxSectors > 0 && (cached ==> CacheOk(lines, disk))
    }

    constructor (d: seq<Sector>, max: nat, c: bool)
      requires max > 0
      ensures Valid() && disk == d && maxSectors == max && cached == c
    {
      disk, maxSectors, cached, faults := d, max, c, 0;
      lines := seq(CACHE_ENTRIES, _ => Line(false, 0, Zeros(512)));
    }

    /** A driver transfer: all the sectors, or an error and nothing.  It fails exactly when the
        device does, or past the end of the disk: the driver's own check of lba + n wraps at 2^64
        (drivers/virtio_blk.c:160), and beyond that it is the device that has no such sector. */
    method ReadBlocks(lba: nat, n: nat) returns (r: int, data: seq<Sector>)
      modifies this`faults
      ensures (r == 0 || r == DEVERR) && faults >= old(faults)
      ensures r == 0 <==> lba + n <= |disk| && faults == old(faults)
      ensures r == 0 ==> data == disk[lba..lba + n]
    {
      var fails: bool := *;
      data := [];
      if fails {
        faults := faults + 1;
        return DEVERR, data;
      }
      if lba + n > |disk| { return DEVERR, data; }
      return 0, disk[lba..lba + n];
    }

    /** The same for a write. */
    method WriteBlocks(lba: nat, data: seq<Sector>) returns (r: int)
      modifies this`disk, this`faults
      ensures (r == 0 || r == DEVERR) && faults >= old(faults)
      ensures r == 0 <==> lba + |data| <= |old(disk)| && faults == old(faults)
      ensures disk == if r == 0 then Splice(old(disk), lba, data) else old(disk)
    {
      var fails: bool := *;
      if fails {
        faults := faults + 1;
        return DEVERR;
      }
      if lba + |data| > |disk| { return DEVERR; }
      disk := Splice(disk, lba, data);
      return 0;
    }

    /** cache_read_sector */
    method CacheReadSector(lba: nat) returns (r: int, out: Sector)
      requires Valid() && cached
      modifies this`lines, this`faults
      ensures Valid() && (r == 0 || r == DEVERR) && faults >= old(faults)
      ensures r == 0 <==> lba < |disk| && faults == old(faults)
      ensures r == 0 ==> out == disk[lba]
    {
      var idx := lba % CACHE_ENTRIES;
      out := Zeros(512);
      if lines[idx].valid && lines[idx].lba == lba { return 0, lines[idx].data; }
      var data;
      r, data := ReadBlocks(lba, 1);
      if r == 0 {
        lines := lines[idx := Line(true, lba, data[0])];
        out := data[0];
      }
    }

    /** cache_fill_write */
    method CacheFillWrite(lba: nat, data: Sector, ghost hi: nat)
      requires CacheOkBut(lines, disk, lba, hi) && lba < hi <= |disk| && data == disk[lba]
      modifies this`lines
      ensures CacheOkBut(lines, disk, lba + 1, hi)
    {
      FillFresh(lines, disk, lba, hi);
      lines := lines[lba % CACHE_ENTRIES := Line(true, lba, data)];
    }

    /** One write of block_submit and the refresh of the cached copies. */
    method WriteChunk(cur: nat, data: seq<Sector>) returns (r: int)
      requires Valid()
      modifies this`disk, this`lines, this`faults
      ensures Valid() && (r == 0 || r == DEVERR) && faults >= old(faults)
      ensures r == 0 <==> cur + |data| <= |old(disk)| && faults == old(faults)
      ensures disk == if r == 0 then Splice(old(disk), cur, data) else old(disk)
    {
      ghost var d0 := disk;
      r := WriteBlocks(cur, data);
      if r != 0 { return; }
      if cached {
        WriteStales(lines, d0, cur, data);
        hide CacheOkBut;
        var i := 0;
        while i < |data|
          invariant 0 <= i <= |data| && CacheOkBut(lines, disk, cur + i, cur + |data|)
          invariant disk == Splice(d0, cur, data) && faults == old(faults)
        {
          CacheFillWrite(cur + i, data[i], cur + |data|);
          i := i + 1;
        }
        AllFilled(lines, disk, cur + |data|);
      }
    }

    /** One read of block_submit: single sectors go through the cache. */
    method ReadChunk(cur: nat, chunk: nat) returns (r: int, data: seq<Sector>)
      requires Valid() && chunk > 0
      modifies this`lines, this`faults
      ensures Valid() && (r == 0 || r == DEVERR) && faults >= old(faults)
      ensures r == 0 <==> cur + chunk <= |disk| && faults == old(faults)
      ensures r == 0 ==> data == disk[cur..cur + chunk]
    {
      if chunk == 1 && cached {
        var sec;
        r, sec := CacheReadSector(cur);
        data := [sec];
      } else {
        r, data := ReadBlocks(cur, chunk);
      }
    }

    /** block_submit: `done` sectors went through before the first error. */
    method Submit(write: bool, lba: nat, buf: seq<Sector>) returns (r: int, buf': seq<Sector>, ghost done: nat)
      requires Valid()
      modifies this`disk, this`lines, this`faults
      ensures Valid() && |disk| == |old(disk)| && (r == 0 || r == DEVERR) && |buf'| == |buf| && faults >= old(faults)
      ensures r == 0 <==> (buf == [] || lba + |buf| <= |disk|) && faults == old(faults)
      ensures done <= |buf| && (r == 0 <==> done == |buf|) && (done > 0 ==> lba + done <= |disk|)
      ensures write ==> buf' == buf && disk == Stored(old(disk), lba, buf, done)
      ensures !write ==> disk == old(disk) && buf' == Loaded(disk, lba, buf, done)
    {
      hide CacheOk, CacheOkBut, Stored, Loaded, Splice;
      r, buf', done := 0, buf, 0;
      ghost var d0 := disk;
      NothingMoved(d0, lba, buf);
      var cur, left, pos := lba, |buf|, 0;
      while left > 0 && r == 0
        invariant 0 <= left <= |buf| && done == pos == |buf| - left && cur == lba + pos && Valid() && |disk| == |d0|
        invariant faults >= old(faults) && (r == 0 ==> faults == old(faults))
        invariant r != 0 ==> r == DEVERR && left > 0 && (faults > old(faults) || lba + |buf| > |disk|)
        invariant |buf'| == |buf| && (pos > 0 ==> cur <= |disk|)
        invariant write ==> buf' == buf && disk == Stored(d0, lba, buf, done)
        invariant !write ==> disk == d0 && buf' == Loaded(d0, lba, buf, done)
        decreases left, r == 0
      {
        var chunk := if left < maxSectors then left else maxSectors;
        if write {
          r := WriteChunk(cur, buf[pos..pos + chunk]);
          if r == 0 { StoreMore(d0, lba, buf, done, chunk); }
        } else {
          var data;
          r, data := ReadChunk(cur, chunk);
          if r == 0 {
            LoadMore(d0, lba, buf, done, data);
            buf' := Splice(buf', pos, data);
          }
        }
        if r == 0 {
          cur, left, pos := cur + chunk, left - chunk, pos + chunk;
          done := pos;
        }
      }
    }

    /** block_read */
    method BlockRead(lba: nat, bytes: nat) returns (r: int, out: seq<byte>)
      requires Valid() && lba < TWO64
      modifies this`disk, this`lines, this`faults
      ensures Valid() && disk == old(disk) && (r == 0 || r == DEVERR) && faults >= old(faults)
      ensures r == 0 <==> bytes > 0 && 512 * lba + bytes <= 512 * |disk| && faults == old(faults)
      ensures r == 0 ==> out == Flat(disk)[512 * lba..512 * lba + bytes]
    {
      hide CacheOk, CacheOkBut, Loaded, Flat;
      var whole, tail := bytes / 512, bytes % 512;
      var sect := whole + if tail > 0 then 1 else 0;
      out := [];
      if bytes == 0 { return DEVERR, out; }
      if (lba + sect) % TWO64 > |disk| { return DEVERR, out; }
      if whole > 0 {
        var got;
        ghost var done;
        r, got, done := Submit(false, lba, seq(whole, _ => Zeros(512)));
        if r != 0 { return; }
        LoadedAll(disk, lba, seq(whole, _ => Zeros(512)));
        FlatSlice(disk, lba, whole);
        out := Flat(got);
      }
      if tail > 0 {
        var got;
        ghost var done;
        r, got, done := Submit(false, lba + whole, [Zeros(512)]);
        if r != 0 { return r, []; }
        LoadedAll(disk, lba + whole, [Zeros(512)]);
        FlatSlice(disk, lba + whole, 1);
        assert got == [got[0]] == disk[lba + whole..lba + whole + 1];
        FlatOne(got[0]);
        TailBytes(Flat(disk), 512 * lba, 512 * whole, got[0], tail);
        out := out + got[0][..tail];
      }
      r := 0;
    }

    /** block_write: the bytes land at the sector boundary, a short last sector padded with zeros.
        A device error leaves a prefix of the sectors written, a bad range nothing. */
    method BlockWrite(lba: nat, data: seq<byte>) returns (r: int, ghost done: nat)
      requires Valid() && lba < TWO64
      modifies this`disk, this`lines, this`faults
      ensures faults >= old(faults)
      ensures r == 0 <==> data != [] && lba + |ToSectors(data)| <= |disk| && faults == old(faults)
      ensures r != 0 && faults == old(faults) && lba + |ToSectors(data)| < TWO64 ==> done == 0
      ensures Valid() && |disk| == |old(disk)| && (r == 0 || r == DEVERR) && done <= |ToSectors(data)|
      ensures disk == Stored(old(disk), lba, ToSectors(data), done) && (r != 0 && data != [] ==> done < |ToSectors(data)|)
      ensures r == 0 ==> Flat(disk) == Splice(old(Flat(disk)), 512 * lba, Padded(data))
    {
      hide CacheOk, CacheOkBut, Stored;
      var whole, tail := |data| / 512, |data| % 512;
      var sect := whole + if tail > 0 then 1 else 0;
      ghost var d0, all := disk, ToSectors(data);
      SectorsOf(data);
      NothingMoved(d0, lba, all);
      done := 0;
      if data == [] { return DEVERR, done; }
      if (lba + sect) % TWO64 > |disk| { return DEVERR, done; }
      if whole > 0 {
        var back;
        r, back, done := Submit(true, lba, Sectors(data));
        WholePart(d0, lba, data, done);
        if r != 0 { return; }
      }
      if tail > 0 {
        var back;
        ghost var last := 0;
        var sec := Splice(Zeros(512), 0, data[512 * whole..]);
        r, back, last := Submit(true, lba + whole, [sec]);
        TailPart(d0, disk, lba, data, last);
        done := done + last;
        if r != 0 { return; }
      }
      r := 0;
      StoredFlat(d0, lba, data);
    }
  }

  lemma NothingMoved(d: seq<Sector>, lba: nat, buf: seq<Sector>)
    ensures Stored(d, lba, buf, 0) == d && Loaded(d, lba, buf, 0) == buf
  {
  }

  lemma LoadMore(d: seq<Sector>, lba: nat, buf: seq<Sector>, done: nat, data: seq<Sector>)
    requires data != [] && done + |data| <= |buf| && lba + done + |data| <= |d| && data == d[lba + done..lba + done + |data|]
    ensures Splice(Loaded(d, lba, buf, done), done, data) == Loaded(d, lba, buf, done + |data|)
  {
  }

  lemma StoreMore(d: seq<Sector>, lba: nat, buf: seq<Sector>, done: nat, n: nat)
    requires n > 0 && done + n <= |buf| && lba + done + n <= |d|
    ensures Splice(Stored(d, lba, buf, done), lba + done, buf[done..done + n]) == Stored(d, lba, buf, done + n)
  {
  }

  lemma LoadedAll(d: seq<Sector>, lba: nat, buf: seq<Sector>)
    requires buf != [] && lba + |buf| <= |d|
    ensures Loaded(d, lba, buf, |buf|) == d[lba..lba + |buf|]
  {
  }

  lemma TailBytes(flat: seq<byte>, at: nat, n: nat, sec: Sector, tail: nat)
    requires tail <= 512 && at + n + 512 <= |flat| && sec == flat[at + n..at + n + 512]
    ensures flat[at..at + n] + sec[..tail] == flat[at..at + n + tail]
  {
  }

  /** data with zeros up to the next sector boundary */
  function Padded(data: seq<byte>): (r: seq<byte>)
    ensures |r| == 512 * ((|data| + 511) / 512) && data <= r
  {
    data + Zeros(512 * ((|data| + 511) / 512) - |data|)
  }

  function ToSectors(data: seq<byte>): (r: seq<Sector>)
    ensures |r| == (|data| + 511) / 512
  {
    Sectors(Padded(data))
  }

  lemma SectorsOf(data: seq<byte>)
    ensures Sectors(data) == ToSectors(data)[..|data| / 512]
    ensures |data| % 512 > 0 ==> |ToSectors(data)| == |data| / 512 + 1
    ensures |data| % 512 > 0 ==> ToSectors(data)[|data| / 512] == Splice(Zeros(512), 0, data[512 * (|data| / 512)..])
    ensures |data| % 512 == 0 ==> |ToSectors(data)| == |data| / 512
  {
    var w, all, pad := |data| / 512, ToSectors(data), Padded(data);
    forall i | 0 <= i < w ensures Sectors(data)[i] == all[i] {
      assert data[512 * i..512 * i + 512] == pad[512 * i..512 * i + 512];
    }
    if |data| % 512 > 0 {
      assert |all| == w + 1;
      assert all[w] == pad[512 * w..512 * w + 512];
    }
  }

  /** Storing the whole sectors is storing a prefix of them all. */
  lemma WholePart(d: seq<Sector>, lba: nat, data: seq<byte>, done: nat)
    requires done <= |data| / 512
    ensures Stored(d, lba, Sectors(data), done) == Stored(d, lba, ToSectors(data), done)
  {
    SectorsOf(data);
    assert Sectors(data)[..done] == ToSectors(data)[..done];
  }

  /** Then the padded tail sector. */
  lemma TailPart(d0: seq<Sector>, d2: seq<Sector>, lba: nat, data: seq<byte>, last: nat)
    requires |data| % 512 > 0 && last <= 1 && (last > 0 ==> lba + |data| / 512 + 1 <= |d0|)
    requires d2 == Stored(Stored(d0, lba, ToSectors(data), |data| / 512), lba + |data| / 512,
                          [Splice(Zeros(512), 0, data[512 * (|data| / 512)..])], last)
    ensures d2 == Stored(d0, lba, ToSectors(data), |data| / 512 + last)
  {
    SectorsOf(data);
    if last == 1 {
      StoreMore(d0, lba, ToSectors(data), |data| / 512, 1);
      assert ToSectors(data)[|data| / 512..|data| / 512 + 1] == [ToSectors(data)[|data| / 512]];
      assert [ToSectors(data)[|data| / 512]][..1] == [ToSectors(data)[|data| / 512]];
    }
  }

  lemma StoredFlat(d: seq<Sector>, lba: nat, data: seq<byte>)
    requires data != [] && lba + |ToSectors(data)| <= |d|
    ensures 512 * lba + |Padded(data)| <= 512 * |d|
    ensures Flat(Stored(d, lba, ToSectors(data), |ToSectors(data)|)) == Splice(Flat(d), 512 * lba, Padded(data))
  {
    var all := ToSectors(data);
    assert all[..|all|] == all;
    FlatSplice(d, lba, all);
    FlatSectors(Padded(data));
    assert Padded(data)[..512 * |all|] == Padded(data);
  }
}
