/** Directory names of fs/fat32.c: the slot run fat_create writes for a name, and dir_next,
    which reads names back from the slots.  Names are NUL-free byte strings. */
module FatNames {
  import opened Bytes
  import opened Errno
  import opened Limits
  import opened Wrappers

  const ATTR_LFN: byte := 0x0F
  const ATTR_DIR: byte := 0x10
  const ATTR_ARCHIVE: byte := 0x20
  const SLOT_FREE: byte := 0
  const SLOT_DELETED: byte := 0xE5
  const SPACE: byte := 0x20
  const DOT: byte := 0x2E
  const TILDE: byte := 0x7E
  const DOS_DATE: nat := (2026 - 1980) * 512 + 33

  type Name = n: seq<byte> | forall i :: 0 <= i < |n| ==> n[i] != 0
  type Sfn = s: seq<byte> | |s| == 11 witness Zeros(11)
  type Slot = s: seq<byte> | |s| == 32 witness Zeros(32)

  // ---- short names ------------------------------------------------------------------------

  function Upchar(c: byte): byte { if 97 <= c <= 122 then c - 32 else c }

  predicate SfnCharOk(c: byte) {
    || 65 <= c <= 90 || 48 <= c <= 57 || 35 <= c <= 41 || c == 33 || c == 45 || c == 64
    || c == 94 || c == 95 || c == 96 || c == 123 || c == 125 || c == 126
  }

  /** The position of the last dot. */
  function LastDot(n: seq<byte>): (r: Option<nat>)
    ensures r.Some? ==> r.value < |n| && n[r.value] == DOT && forall i :: r.value < i < |n| ==> n[i] != DOT
    ensures r.None? ==> DOT !in n
  {
    if n == [] then None
    else if n[|n| - 1] == DOT then Some(|n| - 1)
    else LastDot(n[..|n| - 1])
  }

  /** plain_sfn: expressible as an exact upper-case 8.3 name */
  predicate Plain(n: seq<byte>) {
    var dot := LastDot(n);
    var nb := if dot.Some? then dot.value else |n|;
    var ne := if dot.Some? then |n| - dot.value - 1 else 0;
    && (forall i :: 0 <= i < |n| ==> SfnCharOk(n[i]) || (dot.Some? && i == dot.value))
    && 1 <= nb <= 8 && ne <= 3 && (dot.Some? ==> ne >= 1)
  }

  function Upper(s: seq<byte>): (r: seq<byte>)
    ensures |r| == |s|
  {
    seq(|s|, i requires 0 <= i < |s| => Upchar(s[i]))
  }

  function Padded(s: seq<byte>, n: nat): (r: seq<byte>)
    requires |s| <= n
    ensures |r| == n
  {
    s + seq(n - |s|, _ => SPACE)
  }

  /** The first `max` characters of s that a short name may contain, in upper case. */
  function Kept(s: seq<byte>, max: nat): (r: seq<byte>)
    ensures |r| <= max && forall i :: 0 <= i < |r| ==> SfnCharOk(r[i])
    decreases |s|
  {
    if s == [] || max == 0 then []
    else if SfnCharOk(Upchar(s[0])) then [Upchar(s[0])] + Kept(s[1..], max - 1)
    else Kept(s[1..], max)
  }

  /** make_sfn_template: the short name and, when one is needed, where its tail digit goes */
  function Template(n: Name): (r: (Sfn, Option<nat>))
    ensures r.1.Some? <==> !Plain(n)
    ensures r.1.Some? ==> 2 <= r.1.value <= 7
  {
    var dot := LastDot(n);
    var stem := if dot.Some? then n[..dot.value] else n;
    var ext := if dot.Some? then n[dot.value + 1..] else [];
    if Plain(n) then
      (Padded(Upper(stem), 8) + Padded(Upper(ext), 3), None)
    else
      var kept := Kept(stem, 6);
      var base := (if kept == [] then [95] else kept) + [TILDE];
      (Padded(base, 8) + Padded(Kept(ext, 3), 3), Some(|base|))
  }

  /** The short name of attempt 1..9 (attempt 0 for a plain name). */
  function ShortName(n: Name, attempt: nat): Sfn
    requires if Plain(n) then attempt == 0 else 1 <= attempt <= 9
  {
    var (t, at) := Template(n);
    if at.Some? then t[at.value := 48 + attempt] else t
  }

  predicate Legal(s: seq<byte>, i: nat)
    requires i < |s|
  {
    SfnCharOk(Upchar(s[i]))
  }

  /** idx lists the positions of the first `max` characters of s that are legal in upper case, and
      r is those characters in upper case. */
  ghost predicate Picks(s: seq<byte>, max: nat, idx: seq<nat>, r: seq<byte>) {
    && |r| == |idx| <= max && (forall j :: 0 <= j < |idx| ==> idx[j] < |s| && Legal(s, idx[j]) && r[j] == Upchar(s[idx[j]]))
    && (forall j, k :: 0 <= j < k < |idx| ==> idx[j] < idx[k])
    && forall i: nat :: i < |s| && Legal(s, i) ==> i in idx || (|idx| == max && forall j :: 0 <= j < |idx| ==> idx[j] < i)
  }

  ghost predicate KeptOf(s: seq<byte>, max: nat, r: seq<byte>) {
    exists idx :: Picks(s, max, idx, r)
  }

  function Shifted(tail: seq<nat>): (r: seq<nat>)
    ensures |r| == |tail| && forall j :: 0 <= j < |r| ==> r[j] == tail[j] + 1
  {
    seq(|tail|, j requires 0 <= j < |tail| => tail[j] + 1)
  }

  lemma PicksFirst(s: seq<byte>, max: nat, tail: seq<nat>, r: seq<byte>)
    requires s != [] && max > 0 && Legal(s, 0) && Picks(s[1..], max - 1, tail, r)
    ensures Picks(s, max, [0] + Shifted(tail), [Upchar(s[0])] + r)
  {
    hide Picks, Legal, Upchar;
    var idx, r' := [0] + Shifted(tail), [Upchar(s[0])] + r;
    PicksFit(s[1..], max - 1, tail, r);
    forall j: nat | j < |idx| ensures idx[j] < |s| && Legal(s, idx[j]) && r'[j] == Upchar(s[idx[j]]) {
      FirstAt(s, max, tail, r, j);
    }
    forall j: nat, k: nat | j < k < |idx| ensures idx[j] < idx[k] {
      FirstOrdered(s, max, tail, r, j, k);
    }
    forall i: nat | i < |s| && Legal(s, i) ensures i in idx || (|idx| == max && forall j :: 0 <= j < |idx| ==> idx[j] < i) {
      if i == 0 { assert idx[0] == 0; } else { FirstCovers(s, max, tail, r, i); }
    }
    PicksBy(s, max, idx, r');
  }

  lemma PicksFit(s: seq<byte>, max: nat, idx: seq<nat>, r: seq<byte>)
    requires Picks(s, max, idx, r)
    ensures |r| == |idx| <= max
  {
  }

  lemma PicksBy(s: seq<byte>, max: nat, idx: seq<nat>, r: seq<byte>)
    requires |r| == |idx| <= max
    requires forall j: nat :: j < |idx| ==> idx[j] < |s| && Legal(s, idx[j]) && r[j] == Upchar(s[idx[j]])
    requires forall j: nat, k: nat :: j < k < |idx| ==> idx[j] < idx[k]
    requires forall i: nat :: i < |s| && Legal(s, i) ==> i in idx || (|idx| == max && forall j :: 0 <= j < |idx| ==> idx[j] < i)
    ensures Picks(s, max, idx, r)
  {
    hide Legal, Upchar;
  }

  lemma FirstAt(s: seq<byte>, max: nat, tail: seq<nat>, r: seq<byte>, j: nat)
    requires s != [] && max > 0 && Legal(s, 0) && Picks(s[1..], max - 1, tail, r) && j <= |tail|
    ensures var idx := [0] + Shifted(tail); idx[j] < |s| && Legal(s, idx[j]) && ([Upchar(s[0])] + r)[j] == Upchar(s[idx[j]])
  {
    hide Upchar, SfnCharOk;
    if j > 0 { assert Legal(s[1..], tail[j - 1]) && r[j - 1] == Upchar(s[1..][tail[j - 1]]); }
  }

  lemma FirstOrdered(s: seq<byte>, max: nat, tail: seq<nat>, r: seq<byte>, j: nat, k: nat)
    requires s != [] && max > 0 && Picks(s[1..], max - 1, tail, r) && j < k <= |tail|
    ensures ([0] + Shifted(tail))[j] < ([0] + Shifted(tail))[k]
  {
    hide Legal, Upchar;
    if j > 0 { assert tail[j - 1] < tail[k - 1]; }
  }

  lemma FirstCovers(s: seq<byte>, max: nat, tail: seq<nat>, r: seq<byte>, i: nat)
    requires s != [] && max > 0 && Picks(s[1..], max - 1, tail, r) && 0 < i < |s| && Legal(s, i)
    ensures var idx := [0] + Shifted(tail); i in idx || (|idx| == max && forall j :: 0 <= j < |idx| ==> idx[j] < i)
  {
    var idx := [0] + Shifted(tail);
    assert Legal(s[1..], i - 1);
    if i - 1 in tail {
      var j :| 0 <= j < |tail| && tail[j] == i - 1;
      assert idx[j + 1] == i;
    } else {
      forall j | 0 <= j < |idx| ensures idx[j] < i {
        if j > 0 { assert idx[j] == tail[j - 1] + 1; }
      }
    }
  }

  lemma PicksLater(s: seq<byte>, max: nat, tail: seq<nat>, r: seq<byte>)
    requires s != [] && !Legal(s, 0) && Picks(s[1..], max, tail, r)
    ensures Picks(s, max, Shifted(tail), r)
  {
    var idx := Shifted(tail);
    forall i: nat | 0 < i < |s| ensures Legal(s[1..], i - 1) == Legal(s, i) {}
    hide Legal, Upchar;
    forall i: nat | i < |s| && Legal(s, i) ensures i in idx || (|idx| == max && forall j :: 0 <= j < |idx| ==> idx[j] < i) {
      if i - 1 in tail {
        var j :| 0 <= j < |tail| && tail[j] == i - 1;
        assert idx[j] == i;
      }
    }
  }

  lemma {:induction false} KeptPicks(s: seq<byte>, max: nat) returns (idx: seq<nat>)
    ensures Picks(s, max, idx, Kept(s, max))
    decreases |s|
  {
    hide SfnCharOk, Picks;
    if s == [] || max == 0 {
      idx := [];
      PicksNone(s, max);
    } else if Legal(s, 0) {
      var tail := KeptPicks(s[1..], max - 1);
      PicksFirst(s, max, tail, Kept(s[1..], max - 1));
      idx := [0] + Shifted(tail);
    } else {
      var tail := KeptPicks(s[1..], max);
      PicksLater(s, max, tail, Kept(s[1..], max));
      idx := Shifted(tail);
    }
  }

  lemma PicksNone(s: seq<byte>, max: nat)
    requires s == [] || max == 0
    ensures Picks(s, max, [], [])
  {
  }

  /** The short name of a name that is not plain: what the 8.3 alphabet keeps of its first stem
      characters, or an underscore, then ~ and the attempt's digit; and what it keeps of the
      extension. */
  lemma LongShortName(n: Name, attempt: nat) returns (stem: seq<byte>, ext: seq<byte>)
    requires !Plain(n) && 1 <= attempt <= 9
    ensures |stem| <= 6 && |ext| <= 3 && KeptOf(StemOf(n), 6, stem) && KeptOf(ExtOf(n), 3, ext)
    ensures ShortName(n, attempt)[..8] == Padded((if stem == [] then [95] else stem) + [TILDE, 48 + attempt], 8)
    ensures ShortName(n, attempt)[8..] == Padded(ext, 3)
  {
    hide Plain, SfnCharOk, LastDot, Picks;
    stem, ext := Kept(StemOf(n), 6), Kept(ExtOf(n), 3);
    var at := KeptPicks(StemOf(n), 6);
    var extAt := KeptPicks(ExtOf(n), 3);
    var base := if stem == [] then [95] else stem;
    assert Template(n) == (Padded(base + [TILDE], 8) + Padded(ext, 3), Some(|base| + 1));
  }

  /** s without its trailing spaces */
  function Trimmed(s: seq<byte>): (r: seq<byte>)
    ensures r <= s
  {
    if s != [] && s[|s| - 1] == SPACE then Trimmed(s[..|s| - 1]) else s
  }

  /** decode_sfn */
  function DecodeSfn(s: Sfn): seq<byte> {
    var ext := Trimmed(s[8..]);
    Trimmed(s[..8]) + if ext == [] then [] else [DOT] + ext
  }

  lemma {:induction false} TrimsPadding(s: seq<byte>, n: nat)
    requires |s| <= n && (s == [] || s[|s| - 1] != SPACE)
    ensures Trimmed(Padded(s, n)) == s
    decreases n - |s|
  {
    if n > |s| {
      TrimsPadding(s, n - 1);
      assert Padded(s, n)[..n - 1] == Padded(s, n - 1);
    }
  }

  function StemOf(n: seq<byte>): seq<byte> {
    var dot := LastDot(n);
    if dot.Some? then n[..dot.value] else n
  }

  function ExtOf(n: seq<byte>): seq<byte> {
    var dot := LastDot(n);
    if dot.Some? then n[dot.value + 1..] else []
  }

  lemma SplitAt(n: seq<byte>, d: nat)
    requires d < |n|
    ensures n == n[..d] + ([n[d]] + n[d + 1..])
  {
  }

  lemma PlainParts(n: Name)
    requires Plain(n)
    ensures 1 <= |StemOf(n)| <= 8 && |ExtOf(n)| <= 3 && (LastDot(n).Some? <==> ExtOf(n) != [])
    ensures n == if ExtOf(n) == [] then StemOf(n) else StemOf(n) + ([DOT] + ExtOf(n))
    ensures forall i :: 0 <= i < |StemOf(n)| ==> SfnCharOk(StemOf(n)[i])
    ensures forall i :: 0 <= i < |ExtOf(n)| ==> SfnCharOk(ExtOf(n)[i])
  {
    hide SfnCharOk, LastDot;
    var dot := LastDot(n);
    if dot.Some? {
      var ext := n[dot.value + 1..];
      SplitAt(n, dot.value);
      forall i | 0 <= i < |ext| ensures SfnCharOk(ext[i]) { assert ext[i] == n[dot.value + 1 + i]; }
    }
  }

  lemma UpperSame(s: seq<byte>)
    requires forall i :: 0 <= i < |s| ==> SfnCharOk(s[i])
    ensures Upper(s) == s && (s == [] || s[|s| - 1] != SPACE)
  {
  }

  lemma PlainTemplate(n: Name)
    requires Plain(n) && |StemOf(n)| <= 8 && |ExtOf(n)| <= 3 && Upper(StemOf(n)) == StemOf(n) && Upper(ExtOf(n)) == ExtOf(n)
    ensures Template(n).0[..8] == Padded(StemOf(n), 8) && Template(n).0[8..] == Padded(ExtOf(n), 3)
  {
    hide SfnCharOk, Upper, LastDot;
  }

  /** A plain name is read back from the short name made for it. */
  lemma PlainReadsBack(n: Name)
    requires Plain(n)
    ensures DecodeSfn(Template(n).0) == n
  {
    hide Template, Trimmed, Padded, Upper, SfnCharOk, StemOf, ExtOf, Plain;
    PlainParts(n);
    UpperSame(StemOf(n));
    UpperSame(ExtOf(n));
    PlainTemplate(n);
    TrimsPadding(StemOf(n), 8);
    TrimsPadding(ExtOf(n), 3);
    assert StemOf(n) + [] == StemOf(n);
  }

  /** A short name never begins with an end-of-directory or deletion mark. */
  lemma ShortNameVisible(n: Name, attempt: nat)
    requires if Plain(n) then attempt == 0 else 1 <= attempt <= 9
    ensures ShortName(n, attempt)[0] != SLOT_FREE && ShortName(n, attempt)[0] != SLOT_DELETED
  {
    var dot := LastDot(n);
    var stem := if dot.Some? then n[..dot.value] else n;
    if Plain(n) {
      assert Template(n).0[0] == Upchar(n[0]);
    } else {
      assert Template(n).0[0] == if Kept(stem, 6) == [] then 95 else Kept(stem, 6)[0];
    }
  }

  /** lfn_checksum after the first k bytes */
  function Sum(s: Sfn, k: nat): byte
    requires k <= 11
  {
    if k == 0 then 0 else var sum := Sum(s, k - 1); (sum / 2 + sum % 2 * 128 + s[k - 1]) % 256
  }

  /** y is the 8-bit register x rotated right by one: its low seven bits are the high ones of x. */
  predicate RotatedRight(x: byte, y: byte) {
    y as int % 128 == x as int / 2 && y as int / 128 == x as int % 2
  }

  function Turn(x: byte): (y: byte)
    ensures RotatedRight(x, y)
  {
    x / 2 + x % 2 * 128
  }

  lemma SumMore(s: Sfn, k: nat)
    requires 1 <= k <= 11
    ensures Sum(s, k) as int == (Turn(Sum(s, k - 1)) as int + s[k - 1]) % 256 && RotatedRight(Sum(s, k - 1), Turn(Sum(s, k - 1)))
    ensures Sum(s, 0) == 0
  {
  }

  /** The checksum is an 8-bit register, 0 at first, that is rotated right before each byte of the
      short name is added to it. */
  lemma ChecksumRegisters(s: Sfn) returns (regs: seq<byte>, turned: seq<byte>)
    ensures |regs| == 12 && |turned| == 11 && regs[0] == 0 && regs[11] == Checksum(s)
    ensures forall i: nat :: i < 11 ==> RotatedRight(regs[i], turned[i]) && regs[i + 1] as int == (turned[i] as int + s[i]) % 256
  {
    hide Sum, Turn, RotatedRight;
    regs := seq(12, i requires 0 <= i < 12 => Sum(s, i));
    turned := seq(11, i requires 0 <= i < 11 => Turn(Sum(s, i)));
    forall i: nat | i < 11 ensures RotatedRight(regs[i], turned[i]) && regs[i + 1] as int == (turned[i] as int + s[i]) % 256 {
      SumMore(s, i + 1);
    }
    SumMore(s, 1);
  }

  function Checksum(s: Sfn): byte { Sum(s, 11) }

  method LfnChecksum(s: Sfn) returns (sum: byte)
    ensures sum == Checksum(s)
  {
    sum := 0;
    for i := 0 to 11
      invariant sum == Sum(s, i)
    {
      sum := (sum / 2 + sum % 2 * 128 + s[i]) % 256;
    }
  }

  // ---- slots ---------------------------------------------------------------------------------

  /** Where character k of a fragment lies in its slot. */
  function CharAt(k: nat): (r: nat)
    requires k < 13
    ensures 1 <= r <= 30 && r != 10 && r != 11 && r != 12 && r != 13 && r != 25 && r != 26 && r != 27
  {
    if k < 5 then 1 + k * 2 else if k < 11 then 14 + (k - 5) * 2 else 28 + (k - 11) * 2
  }

  lemma CharsApart(j: nat, k: nat)
    requires j < k < 13
    ensures CharAt(j) + 2 <= CharAt(k)
  {
  }

  /** Character i of a long name, padded with 0xFFFF. */
  function LongChar(n: Name, i: nat): nat { if i < |n| then n[i] as int else 0xFFFF }

  function Fragments(n: Name): nat { (|n| + 12) / 13 }

  /** The three areas of a slot that hold characters. */
  function CharBytes(e: Slot): (r: seq<byte>)
    ensures |r| == 26
  {
    e[1..11] + e[14..26] + e[28..32]
  }

  /** e is fragment `ord` of the long name n. */
  ghost predicate IsFragment(e: Slot, n: Name, ord: nat, sum: byte)
    requires 1 <= ord <= Fragments(n) <= 5
  {
    && e[0] as int == (if ord == Fragments(n) then 0x40 + ord else ord) && e[11] == ATTR_LFN && e[13] == sum
    && forall k :: 0 <= k < 13 ==> Rd16(e, CharAt(k)) == LongChar(n, (ord - 1) * 13 + k)
  }

  /** The slot e records this first cluster and size. */
  predicate Records(e: Slot, first: nat, size: nat) {
    Rd16(e, 26) + 0x1_0000 * Rd16(e, 20) == first && Rd32(e, 28) == size
  }

  /** e is a short entry, with the size last recorded in it. */
  predicate IsShort(e: Slot, s: Sfn, dir: bool, first: nat, size: nat) {
    e[..11] == s && e[11] == (if dir then ATTR_DIR else ATTR_ARCHIVE) && Records(e, first, size)
  }

  /** The date of every entry, 1 January 2026 at midnight, as created, last used and last written. */
  ghost predicate Stamped(e: Slot) {
    && Rd16(e, 14) == 0 && Rd16(e, 22) == 0
    && forall at :: at == 16 || at == 18 || at == 24 ==>
         Rd16(e, at) % 32 == 1 && Rd16(e, at) / 32 % 16 == 1 && 1980 + Rd16(e, at) / 512 == 2026
  }

  /** What fat_create writes, up to the size in the short entry: the fragments in descending order, then the short entry. */
  ghost predicate IsRun(run: seq<Slot>, n: Name, s: Sfn, dir: bool, first: nat, size: nat) {
    var count := if Plain(n) then 0 else Fragments(n);
    && count <= 5 && |run| == count + 1
    && (forall i :: 0 <= i < count ==> IsFragment(run[i], n, count - i, Checksum(s)))
    && IsShort(run[count], s, dir, first, size)
  }

  /** A fragment's characters fill the three areas in order, low byte first. */
  lemma FragmentBytes(e: Slot, n: Name, ord: nat, sum: byte, k: nat)
    requires 1 <= ord <= Fragments(n) <= 5 && IsFragment(e, n, ord, sum) && k < 13
    ensures CharBytes(e)[2 * k] as int == LongChar(n, (ord - 1) * 13 + k) % 0x100
    ensures CharBytes(e)[2 * k + 1] as int == LongChar(n, (ord - 1) * 13 + k) / 0x100
  {
    assert Rd16(e, CharAt(k)) == LongChar(n, (ord - 1) * 13 + k);
    hide IsFragment, LongChar, Fragments;
    assert CharBytes(e)[2 * k] == e[CharAt(k)] && CharBytes(e)[2 * k + 1] == e[CharAt(k) + 1];
  }

  lemma ReadOther16(b: seq<byte>, off: nat, v: nat, j: nat)
    requires off + 2 <= |b| && j + 2 <= |b| && (j + 2 <= off || off + 2 <= j)
    ensures Rd16(Wr16(b, off, v), j) == Rd16(b, j)
  {
  }

  /** One fragment, built in a zeroed slot. */
  method MakeFragment(n: Name, ord: nat, sum: byte) returns (e: Slot)
    requires 1 <= ord <= Fragments(n) <= 5
    ensures IsFragment(e, n, ord, sum)
  {
    e := Zeros(32)[0 := if ord == Fragments(n) then 0x40 + ord else ord][11 := ATTR_LFN][13 := sum];
    var base := (ord - 1) * 13;
    var k := 0;
    while k < 13
      invariant 0 <= k <= 13
      invariant e[0] as int == (if ord == Fragments(n) then 0x40 + ord else ord) && e[11] == ATTR_LFN && e[13] == sum
      invariant forall j :: 0 <= j < k ==> Rd16(e, CharAt(j)) == LongChar(n, base + j)
    {
      var before := e;
      e := Wr16(e, CharAt(k), LongChar(n, base + k));
      ReadBack16(before, CharAt(k), LongChar(n, base + k));
      forall j | 0 <= j < k ensures Rd16(e, CharAt(j)) == Rd16(before, CharAt(j)) {
        CharsApart(j, k);
        ReadOther16(before, CharAt(k), LongChar(n, base + k), CharAt(j));
      }
      k := k + 1;
    }
  }

  method MakeShort(s: Sfn, dir: bool, first: nat) returns (e: Slot)
    requires first < 0x1_0000_0000
    ensures IsShort(e, s, dir, first, 0) && Stamped(e)
  {
    e := Splice(Zeros(32), 0, s)[11 := if dir then ATTR_DIR else ATTR_ARCHIVE];
    e := StampSlot(e);
    ghost var stamped := e;
    ReadBack16(e, 26, first % 0x1_0000);
    e := Wr16(e, 26, first % 0x1_0000);
    ReadBack16(e, 20, first / 0x1_0000);
    ReadOther16(e, 20, first / 0x1_0000, 26);
    e := Wr16(e, 20, first / 0x1_0000);
    ReadBack32(e, 28, 0);
    ghost var last := e;
    e := Wr32(e, 28, 0);
    assert Rd16(e, 26) == Rd16(last, 26) && Rd16(e, 20) == Rd16(last, 20) && e[11] == last[11];
    assert e[..11] == last[..11];
    forall at | at in [14, 16, 18, 22, 24] ensures Rd16(e, at) == Rd16(stamped, at) {}
  }

  method StampSlot(e0: Slot) returns (e: Slot)
    ensures Stamped(e) && forall i :: 0 <= i < 14 ==> e[i] == e0[i]
  {
    e := Wr16(e0, 14, 0);
    e := Wr16(e, 16, DOS_DATE);
    e := Wr16(e, 18, DOS_DATE);
    e := Wr16(e, 22, 0);
    e := Wr16(e, 24, DOS_DATE);
    assert Rd16(e, 16) == DOS_DATE && Rd16(e, 18) == DOS_DATE && Rd16(e, 24) == DOS_DATE;
  }

  /** The slot run of fat_create. */
  method MakeRun(n: Name, s: Sfn, dir: bool, first: nat) returns (run: seq<Slot>)
    requires |n| < VFS_NAME_MAX && first < 0x1_0000_0000
    ensures IsRun(run, n, s, dir, first, 0) && Stamped(run[|run| - 1])
  {
    hide IsFragment, IsShort;
    run := [];
    var count := if Plain(n) then 0 else Fragments(n);
    if count > 0 {
      var sum := LfnChecksum(s);
      var ord := count;
      while ord >= 1
        invariant 0 <= ord <= count && |run| == count - ord
        invariant forall i :: 0 <= i < |run| ==> IsFragment(run[i], n, count - i, sum)
      {
        var e := MakeFragment(n, ord, sum);
        run := run + [e];
        ord := ord - 1;
      }
    }
    var e := MakeShort(s, dir, first);
    run := run + [e];
  }

  // ---- reading back ----------------------------------------------------------------------------

  /** The long name being collected: fragments announced by the last head, its checksum, the characters. */
  datatype Pending = Pending(parts: nat, sum: byte, lfn: seq<nat>)

  datatype Info = Info(name: seq<byte>, sfn: Sfn, attr: byte, first: nat, size: nat, pidx: nat)

  function FiledAt(lfn: seq<nat>, e: Slot, base: nat, i: nat): nat
    requires i < |lfn|
  {
    if base <= i < base + 13 then Rd16(e, CharAt(i - base)) else lfn[i]
  }

  /** A long-name slot restarts the collection if it is a head, and files its characters. */
  function Collect(p: Pending, e: Slot): (r: Pending)
    requires |p.lfn| == VFS_NAME_MAX
    ensures |r.lfn| == VFS_NAME_MAX
  {
    var ord := e[0] as int % 0x20;
    var q := if e[0] as int / 0x40 % 2 == 1 then Pending(ord, e[13], seq(VFS_NAME_MAX, _ => 0xFFFF)) else p;
    if ord == 0 || ord > q.parts then q
    else
      var base := (ord - 1) * 13;
      q.(lfn := seq(VFS_NAME_MAX, i requires 0 <= i < VFS_NAME_MAX => FiledAt(q.lfn, e, base, i)))
  }

  /** The name printed from the collected characters, from character i on. */
  function NameFrom(p: Pending, i: nat): (r: seq<byte>)
    requires |p.lfn| == VFS_NAME_MAX
    decreases VFS_NAME_MAX - i
  {
    if i >= p.parts * 13 || i >= VFS_NAME_MAX - 1 || p.lfn[i] == 0xFFFF || p.lfn[i] == 0 then []
    else [if p.lfn[i] < 128 then p.lfn[i] else 63] + NameFrom(p, i + 1)
  }

  predicate UsesLong(p: Pending, s: Sfn) { p.parts != 0 && Checksum(s) == p.sum }

  /** The entry a short slot stands for, after the pending long name. */
  function Entry(p: Pending, e: Slot, pidx: nat): Info
    requires |p.lfn| == VFS_NAME_MAX
  {
    var s: Sfn := e[..11];
    Info(if UsesLong(p, s) then NameFrom(p, 0) else DecodeSfn(s), s, e[11], Rd16(e, 26) + 0x1_0000 * Rd16(e, 20),
         if e[11] as int / 0x10 % 2 == 1 then 0 else Rd32(e, 28), pidx)
  }

  /** dir_next from slot i on with the long name p pending */
  function Next(slots: seq<Slot>, i: nat, p: Pending): Option<Info>
    requires |p.lfn| == VFS_NAME_MAX
    decreases |slots| - i
  {
    if i >= |slots| || slots[i][0] == SLOT_FREE then None
    else if slots[i][0] == SLOT_DELETED then Next(slots, i + 1, p)
    else if slots[i][11] == ATTR_LFN then Next(slots, i + 1, Collect(p, slots[i]))
    else Some(Entry(p, slots[i], i))
  }

  /** A slot dir_next passes over: a deleted one or a fragment of some long name. */
  predicate Stale(e: Slot) { e[0] != SLOT_FREE && (e[0] == SLOT_DELETED || e[11] == ATTR_LFN) }

  /** The scan from `start` on passes slots until it meets slot k, which cannot be read. */
  predicate StopsAt(slots: seq<Slot>, readable: seq<bool>, start: nat, k: nat)
    requires |readable| == |slots|
  {
    start <= k < |slots| && !readable[k] && forall j :: start <= j < k ==> readable[j] && Stale(slots[j])
  }

  /** What the slot e records, as dir_next reports it; a directory's size is not looked at. */
  ghost predicate Describes(e: Slot, info: Info) {
    && info.sfn == e[..11] && info.attr == e[11]
    && forall first: nat, size: nat :: Records(e, first, size) ==>
         info.first == first && info.size == if e[11] as int / 0x10 % 2 == 1 then 0 else size
  }

  /** The entry found is the first slot that is not stale, and reported as recorded. */
  lemma {:induction false} NextDescribes(slots: seq<Slot>, i: nat, p: Pending)
    requires |p.lfn| == VFS_NAME_MAX
    ensures var r := Next(slots, i, p); r.Some? ==>
      && i <= r.value.pidx < |slots| && Describes(slots[r.value.pidx], r.value)
      && slots[r.value.pidx][0] != SLOT_FREE && !Stale(slots[r.value.pidx]) && forall j :: i <= j < r.value.pidx ==> Stale(slots[j])
    decreases |slots| - i
  {
    hide Collect, NameFrom, DecodeSfn, UsesLong;
    if i < |slots| && slots[i][0] != SLOT_FREE && Stale(slots[i]) {
      NextDescribes(slots, i + 1, if slots[i][0] == SLOT_DELETED then p else Collect(p, slots[i]));
    }
  }

  /** dir_next over the slots of a directory, `readable` telling which of them the device yields. */
  method DirNext(slots: seq<Slot>, readable: seq<bool>, start: nat, uninit: seq<nat>) returns (r: int, info: Option<Info>, next: nat)
    requires |uninit| == VFS_NAME_MAX && |readable| == |slots|
    ensures r == DEVERR <==> exists k :: StopsAt(slots, readable, start, k)
    ensures r != DEVERR ==> info == Next(slots, start, Pending(0, 0, uninit)) && r == (if info.Some? then 1 else 0)
    ensures info.Some? ==> next == info.value.pidx + 1 && start <= info.value.pidx < |slots| && Describes(slots[info.value.pidx], info.value)
    ensures r == DEVERR ==> info.None?
  {
    hide Collect, Checksum, NameFrom, DecodeSfn, Rd16, Rd32, Describes;
    NextDescribes(slots, start, Pending(0, 0, uninit));
    var parts: nat, sum: byte, lfn: seq<nat>, pidx: nat := 0, 0, uninit, start;
    next := start;
    while true
      invariant |lfn| == VFS_NAME_MAX && next == start <= pidx
      invariant forall j :: start <= j < pidx ==> j < |slots| && readable[j] && Stale(slots[j])
      invariant Next(slots, start, Pending(0, 0, uninit)) == Next(slots, pidx, Pending(parts, sum, lfn))
      decreases |slots| - pidx
    {
      if pidx >= |slots| { return 0, None, next; }
      if !readable[pidx] {
        assert StopsAt(slots, readable, start, pidx);
        return DEVERR, None, next;
      }
      var e := slots[pidx];
      if e[0] == SLOT_FREE { return 0, None, next; }
      if e[0] != SLOT_DELETED {
        if e[11] == ATTR_LFN {
          parts, sum, lfn := FileFragment(e, parts, sum, lfn);
        } else {
          var s: Sfn := e[..11];
          var name := DecodeSfn(s);
          if parts != 0 {
            var check := LfnChecksum(s);
            if check == sum { name := PrintLong(parts, sum, lfn); }
          }
          return 1, Some(Info(name, s, e[11], Rd16(e, 26) + 0x1_0000 * Rd16(e, 20),
                              if e[11] as int / 0x10 % 2 == 1 then 0 else Rd32(e, 28), pidx)), pidx + 1;
        }
      }
      pidx := pidx + 1;
    }
  }

  method FileFragment(e: Slot, parts0: nat, sum0: byte, lfn0: seq<nat>) returns (parts: nat, sum: byte, lfn: seq<nat>)
    requires |lfn0| == VFS_NAME_MAX
    ensures Pending(parts, sum, lfn) == Collect(Pending(parts0, sum0, lfn0), e)
  {
    parts, sum, lfn := parts0, sum0, lfn0;
    var ord := e[0] as int % 0x20;
    if e[0] as int / 0x40 % 2 == 1 {
      parts, sum, lfn := ord, e[13], seq(VFS_NAME_MAX, _ => 0xFFFF);
    }
    if ord == 0 || ord > parts { return; }
    var base := (ord - 1) * 13;
    var start := lfn;
    for k := 0 to 13
      invariant |lfn| == VFS_NAME_MAX
      invariant forall i :: 0 <= i < VFS_NAME_MAX ==>
        lfn[i] == if base <= i < base + k then Rd16(e, CharAt(i - base)) else start[i]
    {
      if base + k < VFS_NAME_MAX { lfn := lfn[base + k := Rd16(e, CharAt(k))]; }
    }
    assert lfn == seq(VFS_NAME_MAX, i requires 0 <= i < VFS_NAME_MAX => FiledAt(start, e, base, i));
  }

  lemma NameStep(p: Pending, i: nat)
    requires |p.lfn| == VFS_NAME_MAX
    ensures NameFrom(p, i) ==
            if i >= p.parts * 13 || i >= VFS_NAME_MAX - 1 || p.lfn[i] == 0xFFFF || p.lfn[i] == 0 then []
            else [if p.lfn[i] < 128 then p.lfn[i] else 63] + NameFrom(p, i + 1)
  {
  }

  method PrintLong(parts: nat, sum: byte, lfn: seq<nat>) returns (name: seq<byte>)
    requires |lfn| == VFS_NAME_MAX
    ensures name == NameFrom(Pending(parts, sum, lfn), 0)
  {
    hide NameFrom;
    ghost var p := Pending(parts, sum, lfn);
    name := [];
    var i := 0;
    NameStep(p, 0);
    while i < parts * 13 && |name| < VFS_NAME_MAX - 1
      invariant 0 <= i == |name| < VFS_NAME_MAX && NameFrom(p, 0) == name + NameFrom(p, i)
    {
      NameStep(p, i);
      if lfn[i] == 0xFFFF || lfn[i] == 0 { break; }
      name := name + [if lfn[i] < 128 then lfn[i] else 63];
      i := i + 1;
    }
    NameStep(p, i);
  }

  // ---- the round trip ----------------------------------------------------------------------------

  /** What is pending after stale slots. */
  function After(p: Pending, stale: seq<Slot>): (r: Pending)
    requires |p.lfn| == VFS_NAME_MAX
    ensures |r.lfn| == VFS_NAME_MAX
    decreases |stale|
  {
    if stale == [] then p
    else After(if stale[0][0] == SLOT_DELETED then p else Collect(p, stale[0]), stale[1..])
  }

  lemma {:induction false} SkipsStale(slots: seq<Slot>, i: nat, stale: seq<Slot>, p: Pending)
    requires |p.lfn| == VFS_NAME_MAX && i + |stale| <= |slots| && slots[i..i + |stale|] == stale
    requires forall k :: 0 <= k < |stale| ==> Stale(stale[k])
    ensures Next(slots, i, p) == Next(slots, i + |stale|, After(p, stale))
    decreases |stale|
  {
    hide Collect, Entry;
    if stale != [] {
      var e := stale[0];
      assert slots[i] == slots[i..i + |stale|][0];
      assert slots[i + 1..i + 1 + |stale[1..]|] == stale[1..];
      SkipsStale(slots, i + 1, stale[1..], if e[0] == SLOT_DELETED then p else Collect(p, e));
    }
  }

  lemma {:induction false} AfterSplit(p: Pending, a: seq<Slot>, b: seq<Slot>)
    requires |p.lfn| == VFS_NAME_MAX
    ensures After(p, a + b) == After(After(p, a), b)
    decreases |a|
  {
    if a == [] {
      assert a + b == b;
    } else {
      assert (a + b)[1..] == a[1..] + b;
      AfterSplit(if a[0][0] == SLOT_DELETED then p else Collect(p, a[0]), a[1..], b);
    }
  }

  /** The fragments of n from the first down to `ord` have been read. */
  ghost predicate ReadDown(p: Pending, n: Name, ord: nat, sum: byte) {
    && |p.lfn| == VFS_NAME_MAX && p.parts == Fragments(n) && p.sum == sum
    && forall i :: (ord - 1) * 13 <= i < VFS_NAME_MAX && 0 <= i ==> p.lfn[i] == LongChar(n, i)
  }

  /** A character as dir_next prints it. */
  function Printed(n: Name): (r: seq<byte>)
    ensures |r| == |n|
  {
    seq(|n|, i requires 0 <= i < |n| => if n[i] < 128 then n[i] else 63)
  }

  lemma FragmentKinds(e: Slot, n: Name, ord: nat, sum: byte)
    requires 1 <= ord <= Fragments(n) <= 5 && IsFragment(e, n, ord, sum)
    ensures Stale(e) && e[0] != SLOT_DELETED
    ensures e[0] as int % 0x20 == ord && (e[0] as int / 0x40 % 2 == 1 <==> ord == Fragments(n))
  {
  }

  lemma CollectsFragment(p: Pending, e: Slot, n: Name, ord: nat, sum: byte)
    requires 1 <= ord <= Fragments(n) <= 5 && IsFragment(e, n, ord, sum)
    requires |p.lfn| == VFS_NAME_MAX && (ord < Fragments(n) ==> ReadDown(p, n, ord + 1, sum))
    ensures ReadDown(Collect(p, e), n, ord, sum)
  {
    FragmentKinds(e, n, ord, sum);
    var q := Collect(p, e);
    var base := (ord - 1) * 13;
    var before: seq<nat> := if ord == Fragments(n) then seq(VFS_NAME_MAX, _ => 0xFFFF) else p.lfn;
    assert q.lfn == seq(VFS_NAME_MAX, i requires 0 <= i < VFS_NAME_MAX => FiledAt(before, e, base, i));
    forall i | base <= i < VFS_NAME_MAX ensures q.lfn[i] == LongChar(n, i) {
      if i < base + 13 {
        var k := i - base;
        assert Rd16(e, CharAt(k)) == LongChar(n, (ord - 1) * 13 + k);
      } else if ord == Fragments(n) {
        assert i >= |n|;
      }
    }
  }

  /** Whatever is pending, reading the fragments of n leaves n pending. */
  lemma {:induction false} CollectsRun(p: Pending, frags: seq<Slot>, n: Name, ord: nat, sum: byte)
    requires |p.lfn| == VFS_NAME_MAX && |frags| == ord <= Fragments(n) <= 5
    requires ord < Fragments(n) ==> ReadDown(p, n, ord + 1, sum)
    requires forall i :: 0 <= i < |frags| ==> IsFragment(frags[i], n, ord - i, sum)
    ensures ord > 0 ==> ReadDown(After(p, frags), n, 1, sum)
    ensures forall i :: 0 <= i < |frags| ==> Stale(frags[i])
    decreases ord
  {
    hide IsFragment, ReadDown, Collect;
    if ord > 0 {
      FragmentKinds(frags[0], n, ord, sum);
      CollectsFragment(p, frags[0], n, ord, sum);
      var q := Collect(p, frags[0]);
      var rest := frags[1..];
      forall i | 0 <= i < |rest| ensures IsFragment(rest[i], n, ord - 1 - i, sum) {
        assert rest[i] == frags[i + 1];
      }
      CollectsRun(q, rest, n, ord - 1, sum);
      if ord == 1 { assert rest == [] && After(q, rest) == q; }
      forall i | 0 <= i < |frags| ensures Stale(frags[i]) {
        if i > 0 { assert frags[i] == rest[i - 1]; }
      }
    }
  }

  /** Printing stops exactly at the end of the name. */
  lemma {:induction false} PrintsName(p: Pending, n: Name, i: nat, sum: byte)
    requires ReadDown(p, n, 1, sum) && i <= |n| < VFS_NAME_MAX
    ensures NameFrom(p, i) == Printed(n)[i..]
    decreases |n| - i
  {
    if i < |n| {
      PrintsName(p, n, i + 1, sum);
      assert Printed(n)[i..] == [Printed(n)[i]] + Printed(n)[i + 1..];
    }
  }

  /** A long name's run is read back whatever stale slots come before it: every 7-bit
      character as written, any other as a question mark. */
  lemma LongReadsBack(dir: seq<Slot>, i: nat, p: Pending, stale: seq<Slot>, run: seq<Slot>, n: Name, s: Sfn, isDir: bool, first: nat, size: nat)
    requires |p.lfn| == VFS_NAME_MAX && !Plain(n) && 1 <= |n| < VFS_NAME_MAX
    requires forall k :: 0 <= k < |stale| ==> Stale(stale[k])
    requires IsRun(run, n, s, isDir, first, size) && s[0] != SLOT_FREE && s[0] != SLOT_DELETED
    requires i + |stale| + |run| <= |dir| && dir[i..i + |stale| + |run|] == stale + run
    ensures var r := Next(dir, i, p);
      r == Some(Info(Printed(n), s, if isDir then ATTR_DIR else ATTR_ARCHIVE, first, if isDir then 0 else size, i + |stale| + Fragments(n)))
  {
    hide IsFragment, IsShort, Checksum, DecodeSfn, Collect, Plain;
    var count := Fragments(n);
    var frags := run[..count];
    var passed := stale + frags;
    assert dir[i..i + |passed|] == dir[i..i + |stale| + |run|][..|passed|] == passed;
    CollectsRun(After(p, stale), frags, n, count, Checksum(s));
    SkipsStale(dir, i, passed, p);
    AfterSplit(p, stale, frags);
    var q := After(p, passed);
    PrintsName(q, n, 0, Checksum(s));
    assert dir[i + |passed|] == dir[i..i + |stale| + |run|][|passed|] == run[count];
    ShortEntry(q, run[count], s, isDir, first, size, i + |passed|);
  }

  lemma ShortEntry(p: Pending, e: Slot, s: Sfn, isDir: bool, first: nat, size: nat, at: nat)
    requires |p.lfn| == VFS_NAME_MAX && IsShort(e, s, isDir, first, size)
    ensures e[0] == s[0] && e[11] != ATTR_LFN
    ensures Entry(p, e, at) == Info(if UsesLong(p, s) then NameFrom(p, 0) else DecodeSfn(s), s,
                                    if isDir then ATTR_DIR else ATTR_ARCHIVE, first, if isDir then 0 else size, at)
  {
    hide Checksum, NameFrom, DecodeSfn;
    assert e[0] == e[..11][0];
  }

  /** A plain name's entry after stale slots: its own name, or the pending long name when the
      checksums agree. */
  lemma PlainReads(dir: seq<Slot>, i: nat, p: Pending, stale: seq<Slot>, run: seq<Slot>, n: Name, isDir: bool, first: nat, size: nat)
    requires |p.lfn| == VFS_NAME_MAX && Plain(n)
    requires forall k :: 0 <= k < |stale| ==> Stale(stale[k])
    requires IsRun(run, n, ShortName(n, 0), isDir, first, size)
    requires i + |stale| + 1 <= |dir| && dir[i..i + |stale| + 1] == stale + run
    ensures var q := After(p, stale); var s := ShortName(n, 0);
      Next(dir, i, p) == Some(Info(if UsesLong(q, s) then NameFrom(q, 0) else n, s, if isDir then ATTR_DIR else ATTR_ARCHIVE,
                                   first, if isDir then 0 else size, i + |stale|))
  {
    hide Checksum, NameFrom, DecodeSfn;
    assert dir[i..i + |stale|] == dir[i..i + |stale| + 1][..|stale|] == stale;
    SkipsStale(dir, i, stale, p);
    assert dir[i + |stale|] == dir[i..i + |stale| + 1][|stale|] == run[0];
    PlainReadsBack(n);
    ShortNameVisible(n, 0);
    ShortEntry(After(p, stale), run[0], ShortName(n, 0), isDir, first, size, i + |stale|);
  }

  /** The last long-name head among the slots. */
  function LastHead(stale: seq<Slot>): Option<Slot>
    decreases |stale|
  {
    if stale == [] then None
    else
      var e := stale[|stale| - 1];
      if e[0] != SLOT_DELETED && e[0] as int / 0x40 % 2 == 1 then Some(e) else LastHead(stale[..|stale| - 1])
  }

  /** The stale slots announce a long name under this short name's checksum. */
  predicate Claimed(stale: seq<Slot>, s: Sfn) {
    var h := LastHead(stale);
    h.Some? && h.value[0] as int % 0x20 != 0 && h.value[13] == Checksum(s)
  }

  lemma {:induction false} PendingFromHead(p: Pending, stale: seq<Slot>)
    requires |p.lfn| == VFS_NAME_MAX
    ensures var q, h := After(p, stale), LastHead(stale);
      if h.Some? then q.parts == h.value[0] as int % 0x20 && q.sum == h.value[13] else q.parts == p.parts && q.sum == p.sum
    decreases |stale|
  {
    if stale != [] {
      var k := |stale| - 1;
      assert stale == stale[..k] + [stale[k]];
      AfterSplit(p, stale[..k], [stale[k]]);
      PendingFromHead(p, stale[..k]);
      var q := After(p, stale[..k]);
      assert [stale[k]][1..] == [];
      assert After(q, [stale[k]]) == if stale[k][0] == SLOT_DELETED then q else Collect(q, stale[k]);
    }
  }

  predicate SevenBit(n: Name) { forall i :: 0 <= i < |n| ==> n[i] < 128 }

  /** Exactly when the run written for a name is read back as that name, for every name and
      whatever stale slots come first, fat_create's or not: a long name when it is 7-bit; a plain
      one unless the stale slots announce a long name under the same short-name checksum (and
      that name is not the very same). */
  lemma ReadsBackExactly(dir: seq<Slot>, i: nat, uninit: seq<nat>, stale: seq<Slot>, run: seq<Slot>, n: Name, attempt: nat, isDir: bool, first: nat, size: nat)
    requires |uninit| == VFS_NAME_MAX && 1 <= |n| < VFS_NAME_MAX && (if Plain(n) then attempt == 0 else 1 <= attempt <= 9)
    requires forall k :: 0 <= k < |stale| ==> Stale(stale[k])
    requires IsRun(run, n, ShortName(n, attempt), isDir, first, size)
    requires i + |stale| + |run| <= |dir| && dir[i..i + |stale| + |run|] == stale + run
    ensures var p := Pending(0, 0, uninit); var r := Next(dir, i, p);
      && r.Some? && r.value.sfn == ShortName(n, attempt) && r.value.pidx == i + |stale| + |run| - 1
      && r.value.first == first && r.value.size == (if isDir then 0 else size) && r.value.attr == (if isDir then ATTR_DIR else ATTR_ARCHIVE)
      && (r.value.name == n <==>
            if Plain(n) then !Claimed(stale, ShortName(n, 0)) || NameFrom(After(p, stale), 0) == n else SevenBit(n))
  {
    hide IsFragment, IsShort, Checksum, NameFrom, DecodeSfn, Collect;
    var p := Pending(0, 0, uninit);
    ShortNameVisible(n, attempt);
    PendingFromHead(p, stale);
    if Plain(n) {
      PlainReads(dir, i, p, stale, run, n, isDir, first, size);
    } else {
      LongReadsBack(dir, i, p, stale, run, n, ShortName(n, attempt), isDir, first, size);
      forall k | 0 <= k < |n| ensures Printed(n)[k] == n[k] <==> n[k] < 128 {}
    }
  }

  /** A slot left over from fat_create: deleted, or a fragment of some name that is not plain. */
  ghost predicate LeftOver(e: Slot) {
    Stale(e) && (e[0] != SLOT_DELETED ==>
      exists m: Name, ord: nat, sum: byte :: !Plain(m) && 1 <= ord <= Fragments(m) <= 5 && IsFragment(e, m, ord, sum))
  }

  /** Nothing is pending, or the first 13 characters are blank or those of a name that is not plain. */
  ghost predicate NoPlainPending(p: Pending) {
    && |p.lfn| == VFS_NAME_MAX
    && (p.parts == 0 || p.lfn[0] == 0xFFFF || exists m: Name :: !Plain(m) && BeginsWith(p, m))
  }

  predicate BeginsWith(p: Pending, m: Name) {
    |p.lfn| == VFS_NAME_MAX && forall k :: 0 <= k < 13 ==> p.lfn[k] == LongChar(m, k)
  }

  lemma Collected(p: Pending, e: Slot, i: nat)
    requires |p.lfn| == VFS_NAME_MAX && i < VFS_NAME_MAX
    ensures var ord, head, q := e[0] as int % 0x20, e[0] as int / 0x40 % 2 == 1, Collect(p, e);
      && q.parts == (if head then ord else p.parts)
      && q.lfn[i] == if 1 <= ord <= q.parts && (ord - 1) * 13 <= i < (ord - 1) * 13 + 13 then Rd16(e, CharAt(i - (ord - 1) * 13))
                     else if head then 0xFFFF else p.lfn[i]
  {
    var ord: nat, head := e[0] as int % 0x20, e[0] as int / 0x40 % 2 == 1;
    var before: seq<nat> := if head then seq(VFS_NAME_MAX, _ => 0xFFFF) else p.lfn;
    if 1 <= ord <= Collect(p, e).parts {
      var base := (ord - 1) * 13;
      assert Collect(p, e).lfn == seq(VFS_NAME_MAX, j requires 0 <= j < VFS_NAME_MAX => FiledAt(before, e, base, j));
      assert Collect(p, e).lfn[i] == FiledAt(before, e, base, i);
    }
  }

  lemma CollectsLeftOver(p: Pending, e: Slot)
    requires NoPlainPending(p) && LeftOver(e) && e[0] != SLOT_DELETED
    ensures NoPlainPending(Collect(p, e))
  {
    var m: Name, ord: nat, sum: byte :| !Plain(m) && 1 <= ord <= Fragments(m) <= 5 && IsFragment(e, m, ord, sum);
    FragmentKinds(e, m, ord, sum);
    hide Plain, Stale, Collect, Rd16;
    var q := Collect(p, e);
    forall k | 0 <= k < 13
      ensures ord == 1 && q.parts != 0 ==> q.lfn[k] == LongChar(m, k)
      ensures ord != 1 && e[0] as int / 0x40 % 2 != 1 ==> q.lfn[k] == p.lfn[k] && q.parts == p.parts
      ensures ord != 1 && e[0] as int / 0x40 % 2 == 1 ==> q.lfn[k] == 0xFFFF
    {
      Collected(p, e, k);
    }
    Collected(p, e, 0);
    hide IsFragment;
    if ord == 1 {
      assert q.parts != 0 ==> BeginsWith(q, m);
    } else if q.parts != 0 && q.lfn[0] != 0xFFFF {
      var w: Name :| !Plain(w) && BeginsWith(p, w);
      assert BeginsWith(q, w);
    }
  }

  lemma {:induction false} AfterLeftOvers(p: Pending, stale: seq<Slot>)
    requires |p.lfn| == VFS_NAME_MAX && NoPlainPending(p) && forall k :: 0 <= k < |stale| ==> LeftOver(stale[k])
    ensures NoPlainPending(After(p, stale))
    decreases |stale|
  {
    hide NoPlainPending, LeftOver, Collect;
    if stale != [] {
      var e := stale[0];
      if e[0] != SLOT_DELETED { CollectsLeftOver(p, e); }
      AfterLeftOvers(if e[0] == SLOT_DELETED then p else Collect(p, e), stale[1..]);
    }
  }

  /** The printed name stops where the collected characters do. */
  lemma {:induction false} PrintedChars(p: Pending, i: nat, j: nat)
    requires |p.lfn| == VFS_NAME_MAX && i <= VFS_NAME_MAX - 1 && j <= |NameFrom(p, i)|
    ensures i + j <= VFS_NAME_MAX - 1
    ensures j < |NameFrom(p, i)| ==> p.lfn[i + j] != 0xFFFF && p.lfn[i + j] != 0 && i + j < p.parts * 13
    ensures j < |NameFrom(p, i)| ==> NameFrom(p, i)[j] == if p.lfn[i + j] < 128 then p.lfn[i + j] else 63
    ensures j == |NameFrom(p, i)| ==> i + j >= p.parts * 13 || i + j >= VFS_NAME_MAX - 1 || p.lfn[i + j] == 0xFFFF || p.lfn[i + j] == 0
    decreases j
  {
    if j > 0 { PrintedChars(p, i + 1, j - 1); }
  }

  lemma PrintsItself(p: Pending, n: Name, m: Name)
    requires BeginsWith(p, m) && 1 <= |n| <= 12 && NameFrom(p, 0) == n && forall k :: 0 <= k < |n| ==> n[k] != 63
    ensures m == n
  {
    hide NameFrom;
    PrintedChars(p, 0, 0);
    PrintedChars(p, 0, |n|);
    assert p.lfn[|n|] == LongChar(m, |n|);
    forall k | 0 <= k < |n| ensures k < |m| && m[k] == n[k] {
      PrintedChars(p, 0, k);
      assert p.lfn[k] == LongChar(m, k);
    }
    var last := n[|n| - 1];
    assert m[|n| - 1] == last && |m| == |n|;
  }

  /** What is pending after fat_create's slots never prints as a plain name. */
  lemma PrintsNoPlain(p: Pending, n: Name)
    requires NoPlainPending(p) && Plain(n)
    ensures NameFrom(p, 0) != n
  {
    PlainParts(n);
    forall k | 0 <= k < |n| ensures n[k] != 63 { PlainChar(n, k); }
    hide NameFrom, Plain, SfnCharOk, StemOf, ExtOf;
    if NameFrom(p, 0) == n {
      PrintedChars(p, 0, 0);
      var m: Name :| !Plain(m) && BeginsWith(p, m);
      PrintsItself(p, n, m);
    }
  }

  lemma PlainChar(n: Name, k: nat)
    requires Plain(n) && k < |n|
    ensures n[k] != 63 && n[k] < 128
  {
  }

  /** After slots that fat_create left over, the condition for a plain name is the guard of
      dir_next's branch alone: no left-over head announces a name under its checksum. */
  lemma ReadsBackAfterCreates(dir: seq<Slot>, i: nat, uninit: seq<nat>, stale: seq<Slot>, run: seq<Slot>, n: Name, attempt: nat, isDir: bool, first: nat, size: nat)
    requires |uninit| == VFS_NAME_MAX && 1 <= |n| < VFS_NAME_MAX && (if Plain(n) then attempt == 0 else 1 <= attempt <= 9)
    requires forall k :: 0 <= k < |stale| ==> LeftOver(stale[k])
    requires IsRun(run, n, ShortName(n, attempt), isDir, first, size)
    requires i + |stale| + |run| <= |dir| && dir[i..i + |stale| + |run|] == stale + run
    ensures var r := Next(dir, i, Pending(0, 0, uninit));
      r.Some? && (r.value.name == n <==> if Plain(n) then !Claimed(stale, ShortName(n, 0)) else SevenBit(n))
  {
    hide Next, Claimed, ShortName, IsRun, NameFrom, Plain, SevenBit, Stale;
    forall k | 0 <= k < |stale| ensures Stale(stale[k]) { assert LeftOver(stale[k]); }
    ReadsBackExactly(dir, i, uninit, stale, run, n, attempt, isDir, first, size);
    if Plain(n) {
      AfterLeftOvers(Pending(0, 0, uninit), stale);
      PrintsNoPlain(After(Pending(0, 0, uninit), stale), n);
    }
  }

  /** The failing case happens: the fragments left by an interrupted creation of "a" (short
      name A~1) make a new plain file A~1 read as "a". */
  lemma InterruptedCreate(frags: seq<Slot>, run: seq<Slot>, uninit: seq<nat>, first: nat, size: nat)
    requires |uninit| == VFS_NAME_MAX && |frags| == 1 && IsFragment(frags[0], [97], 1, Checksum(ShortName([97], 1)))
    requires IsRun(run, [65, 126, 49], ShortName([65, 126, 49], 0), false, first, size)
    ensures Next(frags + run, 0, Pending(0, 0, uninit)).Some?
    ensures Next(frags + run, 0, Pending(0, 0, uninit)).value.name == [97]
  {
    var a: Name, n: Name := [97], [65, 126, 49];
    hide Checksum, IsFragment, NameFrom, Collect, Plain, ShortName, Next, After, IsRun, IsShort, DecodeSfn;
    SameShort();
    var p := Pending(0, 0, uninit);
    CollectsRun(p, frags, a, 1, Checksum(ShortName(a, 1)));
    PrintsName(After(p, frags), a, 0, Checksum(ShortName(a, 1)));
    PlainReads(frags + run, 0, p, frags, run, n, false, first, size);
    assert Printed(a)[0..] == a;
  }

  lemma SameShort()
    ensures Plain([65, 126, 49]) && !Plain([97])
    ensures ShortName([97], 1) == ShortName([65, 126, 49], 0)
  {
    var a: Name, n: Name := [97], [65, 126, 49];
    assert LastDot(a[..0]) == None && LastDot(a) == None;
    assert LastDot(n[..1][..0]) == None && n[..2][..1] == n[..1] && LastDot(n[..1]) == None && LastDot(n[..2]) == None && LastDot(n) == None;
    assert !SfnCharOk(a[0]);
    assert Kept(a, 6) == [65] + Kept(a[1..], 5) == [65];
    assert Kept([], 3) == [];
    assert ShortName(a, 1) == Padded(n, 8) + Padded([], 3);
    assert Upper(n) == n && Upper([]) == [];
  }
}
