/** File data of fs/ramfs.c: one growable buffer per file, refining a sequence of bytes. */
module Ramfs {
  import opened Bytes
  import opened Errno
  import opened Limits

  const RAMFS_MAX_FILE: nat := 256 * 1024
  const GROW_MIN: nat := 128
  const GROW_MAX: nat := 64 * 1024

  class RamFile {
    var data: array<byte>
    var len: nat

    ghost predicate Valid()
      reads this, data
    {
      len <= data.Length <= RAMFS_MAX_FILE
    }

    ghost function Contents(): (r: seq<byte>)
      requires Valid()
      reads this, data
      ensures |r| == len
    {
      data[..len]
    }

    constructor ()
      ensures Valid() && fresh(data) && Contents() == [] && data.Length == 0
    {
      data, len := new byte[0], 0;
    }

    /** ramfs_read */
    method Read(off: nat, n: nat) returns (out: seq<byte>)
      requires Valid() && off + n < TWO64
      ensures out == if off >= len then [] else if off + n > len then Contents()[off..] else Contents()[off..off + n]
    {
      if off >= len { return []; }
      var k := if off + n > len then len - off else n;
      return data[off..off + k];
    }

    /** The buffer doubles from its size (at least GROW_MIN) up to GROW_MAX, then grows to fit. */
    method NewCap(want: nat) returns (cap: nat)
      requires data.Length < want <= RAMFS_MAX_FILE && data.Length <= RAMFS_MAX_FILE
      ensures want <= cap <= RAMFS_MAX_FILE
    {
      cap := if data.Length > 0 then data.Length else GROW_MIN;
      while cap < want && cap < GROW_MAX
        invariant 0 < cap && (cap < 2 * GROW_MAX || cap <= RAMFS_MAX_FILE)
        decreases want - cap
      {
        cap := cap * 2;
      }
      if cap < want { cap := want; }
    }

    /** Move to a bigger buffer: the old bytes, then zeros. */
    method Grow(want: nat)
      requires Valid() && data.Length < want <= RAMFS_MAX_FILE
      modifies this`data
      ensures Valid() && fresh(data) && want <= data.Length && Contents() == old(Contents())
    {
      var cap := NewCap(want);
      var bigger := new byte[cap];
      var i := 0;
      while i < len
        invariant 0 <= i <= len && forall k :: 0 <= k < i ==> bigger[k] == data[k]
        modifies bigger
      {
        bigger[i] := data[i];
        i := i + 1;
      }
      CopyInto(bigger, len, Zeros(cap - len));
      assert bigger[..len] == data[..len];
      data := bigger;
    }

    /** ramfs_write; room says whether the heap can supply a new buffer.  Nothing at offset 0 truncates. */
    method Write(off: nat, buf: seq<byte>, room: bool) returns (r: int)
      requires Valid() && off + |buf| < TWO64
      modifies this, data
      ensures Valid() && (data == old(data) || fresh(data))
      ensures r == ENOSPC <==> off + |buf| > RAMFS_MAX_FILE
      ensures r == ENOMEM <==> !room && old(data.Length) < off + |buf| <= RAMFS_MAX_FILE
      ensures r < 0 ==> (r == ENOSPC || r == ENOMEM) && Contents() == old(Contents())
      ensures r >= 0 ==> r == |buf| && Contents() == if off == 0 && buf == [] then [] else WriteAt(old(Contents()), off, buf)
    {
      if buf == [] && off == 0 {
        len := 0;
        return 0;
      }
      if off + |buf| > RAMFS_MAX_FILE { return ENOSPC; }
      if off + |buf| > data.Length {
        if !room { return ENOMEM; }
        Grow(off + |buf|);
      }
      Lay(off, buf);
      r := |buf|;
    }

    /** The copying part of ramfs_write, once the buffer is big enough: zero the gap, then copy. */
    method Lay(off: nat, buf: seq<byte>)
      requires Valid() && off + |buf| <= data.Length
      modifies this`len, data
      ensures Valid() && Contents() == WriteAt(old(Contents()), off, buf)
    {
      hide Splice, WriteAt;
      Laid(data[..], len, off, buf);
      if off > len {
        CopyInto(data, len, Zeros(off - len));
      }
      CopyInto(data, off, buf);
      if off + |buf| > len { len := off + |buf|; }
      assert data[..len] == data[..][..len];
    }
  }

  /** Zeroing the gap and copying the data in is what WriteAt says. */
  lemma Laid(room: seq<byte>, len: nat, off: nat, buf: seq<byte>)
    requires len <= |room| && off + |buf| <= |room|
    ensures var room1 := if off > len then Splice(room, len, Zeros(off - len)) else room;
      var end := if off + |buf| > len then off + |buf| else len;
      Splice(room1, off, buf)[..end] == WriteAt(room[..len], off, buf)
  {
  }
}
