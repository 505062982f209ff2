/** Bytes, sectors and the little-endian fields the disk code reads and writes. */
module Bytes {
  type byte = x: int | 0 <= x < 256

  const SECTOR: nat := 512

  type Sector = s: seq<byte> | |s| == SECTOR witness Zeros(512)

  function Zeros(n: nat): (r: seq<byte>)
    ensures |r| == n && forall i :: 0 <= i < n ==> r[i] == 0
  {
    seq(n, _ => 0)
  }

  function Rd16(b: seq<byte>, off: nat): (v: nat)
    requires off + 2 <= |b|
    ensures v < 0x1_0000
  {
    b[off] as int + 0x100 * (b[off + 1] as int)
  }

  function Rd32(b: seq<byte>, off: nat): (v: nat)
    requires off + 4 <= |b|
    ensures v < 0x1_0000_0000
  {
    b[off] as int + 0x100 * (b[off + 1] as int) + 0x1_0000 * (b[off + 2] as int) + 0x100_0000 * (b[off + 3] as int)
  }

  /** dst with src laid over it from position off on. */
  function Splice<T>(dst: seq<T>, off: nat, src: seq<T>): (r: seq<T>)
    requires off + |src| <= |dst|
    ensures |r| == |dst|
    ensures forall i :: 0 <= i < |dst| ==> r[i] == if off <= i < off + |src| then src[i - off] else dst[i]
  {
    dst[..off] + src + dst[off + |src|..]
  }

  /** A file's bytes after writing data at off: a gap before off reads as zeros. */
  function WriteAt(s: seq<byte>, off: nat, data: seq<byte>): (r: seq<byte>)
    ensures |r| == if |s| > off + |data| then |s| else off + |data|
    ensures forall i :: 0 <= i < |r| ==>
      r[i] == if off <= i < off + |data| then data[i - off] else if i < |s| then s[i] else 0
  {
    var end := if |s| > off + |data| then |s| else off + |data|;
    Splice(s + Zeros(end - |s|), off, data)
  }

  /** memcpy: lay src over dst from position at on. */
  method CopyInto(dst: array<byte>, at: nat, src: seq<byte>)
    requires at + |src| <= dst.Length
    modifies dst
    ensures dst[..] == Splice(old(dst[..]), at, src)
  {
    for i := 0 to |src|
      invariant forall k :: 0 <= k < dst.Length ==> dst[k] == if at <= k < at + i then src[k - at] else old(dst[k])
    {
      dst[at + i] := src[i];
    }
    assert dst[..] == Splice(old(dst[..]), at, src);
  }

  function Le16(v: nat): (r: seq<byte>)
    ensures |r| == 2
  {
    [v % 0x100, (v / 0x100) % 0x100]
  }

  function Le32(v: nat): (r: seq<byte>)
    ensures |r| == 4
  {
    [v % 0x100, (v / 0x100) % 0x100, (v / 0x1_0000) % 0x100, (v / 0x100_0000) % 0x100]
  }

  function Wr16(b: seq<byte>, off: nat, v: nat): (r: seq<byte>)
    requires off + 2 <= |b|
    ensures |r| == |b|
  {
    Splice(b, off, Le16(v))
  }

  function Wr32(b: seq<byte>, off: nat, v: nat): (r: seq<byte>)
    requires off + 4 <= |b|
    ensures |r| == |b|
  {
    Splice(b, off, Le32(v))
  }

  lemma ReadBack16(b: seq<byte>, off: nat, v: nat)
    requires off + 2 <= |b| && v < 0x1_0000
    ensures Rd16(Wr16(b, off, v), off) == v
  {
  }

  lemma Recompose(v: nat)
    requires v < 0x1_0000_0000
    ensures v == v % 0x100 + 0x100 * ((v / 0x100) % 0x100) + 0x1_0000 * ((v / 0x1_0000) % 0x100) + 0x100_0000 * ((v / 0x100_0000) % 0x100)
  {
    var a := v / 0x100;
    var b := a / 0x100;
    assert b == v / 0x1_0000;
    assert b / 0x100 == v / 0x100_0000;
  }

  lemma ReadBack32(b: seq<byte>, off: nat, v: nat)
    requires off + 4 <= |b| && v < 0x1_0000_0000
    ensures Rd32(Wr32(b, off, v), off) == v
  {
    var r := Wr32(b, off, v);
    assert r[off] == Le32(v)[0] && r[off + 1] == Le32(v)[1] && r[off + 2] == Le32(v)[2] && r[off + 3] == Le32(v)[3];
    Recompose(v);
  }

  lemma Reads32(b: seq<byte>, off: nat, v: nat)
    requires off + 4 <= |b| && v < 0x1_0000_0000 && b[off..off + 4] == Le32(v)
    ensures Rd32(b, off) == v
  {
    var w := b[off..off + 4];
    assert b[off] == w[0] && b[off + 1] == w[1] && b[off + 2] == w[2] && b[off + 3] == w[3];
    Recompose(v);
  }

  lemma ReadOther32(b: seq<byte>, off: nat, v: nat, at: nat)
    requires off + 4 <= |b| && at + 4 <= |b| && (at + 4 <= off || off + 4 <= at)
    ensures Rd32(Wr32(b, off, v), at) == Rd32(b, at)
  {
  }
}
