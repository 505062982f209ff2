/** SMS coding of drivers/sms.c: the 7-bit alphabet, septet packing and swapped-nibble addresses,
    on 8-bit words with the code's own shifts and ors. */
module Septets {
  type Byte = bv8

  const SPACE: Byte := 32

  // ---- the alphabet -------------------------------------------------------------------------

  /** char_to_gsm */
  function ToGsm(c: Byte): (g: Byte)
    ensures g & 0x80 == 0
  {
    if c == 64 then 0x00 else if c == 36 then 0x02 else if c == 10 then 0x0A else if c == 13 then 0x0D
    else if 32 <= c <= 95 then c else if 97 <= c <= 122 then c else 0x20
  }

  /** gsm_to_char */
  function FromGsm(g: Byte): Byte {
    if g == 0x00 then 64 else if g == 0x02 then 36 else if g == 0x0A then 10 else if g == 0x0D then 13
    else if 0x20 <= g <= 0x5F then g else if 0x61 <= g <= 0x7A then g else SPACE
  }

  predicate Supported(c: Byte) { c == 10 || c == 13 || 32 <= c <= 95 || 97 <= c <= 122 }

  /** The alphabet gives exactly the supported characters back, and a space for any other. */
  lemma AlphabetExactly(c: Byte)
    ensures FromGsm(ToGsm(c)) == if Supported(c) then c else SPACE
    ensures FromGsm(ToGsm(c)) == c <==> Supported(c)
  {
  }

  /** g is the character c's code in the GSM alphabet: @, $, line feed and carriage return have codes
      of their own, the rest keep their ASCII value, and what is not supported is sent as a space. */
  ghost predicate Coded(c: Byte, g: Byte) {
    && (g == 0x00 <==> c == 64) && (g == 0x02 <==> c == 36) && (g == 0x0A <==> c == 10) && (g == 0x0D <==> c == 13)
    && (((32 <= c <= 95 && c != 64 && c != 36) || 97 <= c <= 122) ==> g == c)
    && (!Supported(c) ==> g == 0x20)
  }

  lemma GsmCodes(c: Byte)
    ensures Coded(c, ToGsm(c))
  {
  }

  // ---- shifts ----------------------------------------------------------------------------------

  function Shl(b: Byte, s: nat): Byte
    requires s <= 8
  {
    match s
    case 0 => b
    case 1 => b << 1
    case 2 => b << 2
    case 3 => b << 3
    case 4 => b << 4
    case 5 => b << 5
    case 6 => b << 6
    case 7 => b << 7
    case 8 => 0
  }

  function Shr(b: Byte, s: nat): Byte
    requires s <= 8
  {
    match s
    case 0 => b
    case 1 => b >> 1
    case 2 => b >> 2
    case 3 => b >> 3
    case 4 => b >> 4
    case 5 => b >> 5
    case 6 => b >> 6
    case 7 => b >> 7
    case 8 => 0
  }

  /** The septet that starts at bit s of b0 and runs on into b1. */
  function Extract(b0: Byte, b1: Byte, s: nat): Byte
    requires s < 8
  {
    (if s == 0 then b0 else Shr(b0, s) | Shl(b1, 8 - s)) & 0x7F
  }

  /** Writing septet g at bit s of a byte clear from there on, and its rest in a clear byte, makes it
      readable; one starting at bit 0 or 1 does not need the second byte. */
  lemma ExtractOwn(b0: Byte, g: Byte, s: nat, x: Byte)
    requires s < 8 && Shr(b0, s) == 0 && g & 0x80 == 0
    ensures s <= 1 ==> Extract(b0 | Shl(g, s), x, s) == g
    ensures s > 0 ==> Extract(b0 | Shl(g, s), 0 | Shr(g, 8 - s), s) == g
  {
    match s
    case 0 =>
    case 1 =>
    case 2 =>
    case 3 =>
    case 4 =>
    case 5 =>
    case 6 =>
    case 7 =>
  }

  /** The next septet does not reach into an earlier one. */
  lemma ExtractKept(a: Byte, b0: Byte, g: Byte, s: nat, t: nat)
    requires s < 8 && t < 8 && Shr(b0, s) == 0
    ensures t == 0 && s == 7 ==> Extract(b0 | Shl(g, s), a, t) == Extract(b0, a, t)
    ensures t == s + 1 ==> Extract(a, b0 | Shl(g, s), t) == Extract(a, b0, t)
  {
    match s
    case 0 =>
    case 1 =>
    case 2 =>
    case 3 =>
    case 4 =>
    case 5 =>
    case 6 =>
    case 7 =>
  }

  /** A septet starting at bit 0 or 1 ends with its byte. */
  lemma ExtractWithin(a: Byte, b: Byte, c: Byte, t: nat)
    requires t <= 1
    ensures Extract(a, b, t) == Extract(a, c, t)
  {
  }

  /** After a septet at bit s the byte it ends in is clear from the next septet on. */
  lemma ClearNext(b0: Byte, g: Byte, s: nat)
    requires s < 8 && Shr(b0, s) == 0 && g & 0x80 == 0
    ensures s == 0 ==> Shr(b0 | Shl(g, s), 7) == 0
    ensures s > 0 ==> Shr(0 | Shr(g, 8 - s), s - 1) == 0
  {
    match s
    case 0 =>
    case 1 =>
    case 2 =>
    case 3 =>
    case 4 =>
    case 5 =>
    case 6 =>
    case 7 =>
  }

  // ---- packing -----------------------------------------------------------------------------------

  function ByteOf(i: nat): nat { 7 * i / 8 }

  function ShiftOf(i: nat): (s: nat)
    ensures s < 8
  {
    7 * i % 8
  }

  /** Septet i + 1 starts seven bits after septet i. */
  lemma NextSeptet(i: nat)
    ensures 8 * ByteOf(i) + ShiftOf(i) == 7 * i
    ensures if ShiftOf(i) == 0 then ByteOf(i + 1) == ByteOf(i) && ShiftOf(i + 1) == 7
            else ByteOf(i + 1) == ByteOf(i) + 1 && ShiftOf(i + 1) == ShiftOf(i) - 1
  {
  }

  /** Byte m of b, or x just past its end. */
  function Past(b: seq<Byte>, x: Byte, m: nat): Byte { if m < |b| then b[m] else x }

  /** Septet i of b when the bytes after b are x. */
  function Septet(b: seq<Byte>, x: Byte, i: nat): Byte {
    Extract(Past(b, x, ByteOf(i)), Past(b, x, ByteOf(i) + 1), ShiftOf(i))
  }

  /** The first n septets of b are those of text, whatever follows b. */
  ghost predicate Packed(b: seq<Byte>, text: seq<Byte>, n: nat)
    requires n <= |text|
  {
    forall j: nat, x: Byte :: j < n ==> Septet(b, x, j) == ToGsm(text[j])
  }

  /** Nothing has been written from bit 7 * i on. */
  ghost predicate ClearFrom(b: seq<Byte>, i: nat) {
    && (ByteOf(i) < |b| ==> Shr(b[ByteOf(i)], ShiftOf(i)) == 0)
    && forall m :: ByteOf(i) < m < |b| ==> b[m] == 0
  }

  /** b with septet i ored in; what falls past the end is dropped. */
  function Written(b: seq<Byte>, i: nat, g: Byte): (r: seq<Byte>)
    requires ByteOf(i) < |b|
    ensures |r| == |b|
  {
    var m, s := ByteOf(i), ShiftOf(i);
    var b1 := b[m := b[m] | Shl(g, s)];
    if s > 0 && m + 1 < |b| then b1[m + 1 := b1[m + 1] | Shr(g, 8 - s)] else b1
  }

  lemma WrittenAt(b: seq<Byte>, i: nat, g: Byte)
    requires ByteOf(i) < |b|
    ensures Written(b, i, g)[ByteOf(i)] == b[ByteOf(i)] | Shl(g, ShiftOf(i))
    ensures ShiftOf(i) > 0 && ByteOf(i) + 1 < |b| ==> Written(b, i, g)[ByteOf(i) + 1] == b[ByteOf(i) + 1] | Shr(g, 8 - ShiftOf(i))
    ensures forall m :: 0 <= m < |b| && m != ByteOf(i) && (m != ByteOf(i) + 1 || ShiftOf(i) == 0) ==> Written(b, i, g)[m] == b[m]
  {
    hide Shl, Shr;
  }

  lemma RoomAt(b: seq<Byte>, i: nat)
    requires ClearFrom(b, i) && 7 * (i + 1) <= 8 * |b|
    ensures ByteOf(i) < |b| && Shr(b[ByteOf(i)], ShiftOf(i)) == 0
    ensures ShiftOf(i) > 1 ==> ByteOf(i) + 1 < |b|
    ensures ByteOf(i) + 1 < |b| ==> b[ByteOf(i) + 1] == 0
  {
    hide Shr;
    NextSeptet(i);
  }

  lemma WriteOwn(b: seq<Byte>, i: nat, g: Byte, x: Byte)
    requires ClearFrom(b, i) && 7 * (i + 1) <= 8 * |b| && g & 0x80 == 0
    ensures ByteOf(i) < |b| && Septet(Written(b, i, g), x, i) == g
  {
    hide Extract, Shl, Shr, Written, ByteOf, ShiftOf, ClearFrom;
    RoomAt(b, i);
    WrittenAt(b, i, g);
    var m, s, w := ByteOf(i), ShiftOf(i), Written(b, i, g);
    ExtractOwn(b[m], g, s, Past(w, x, m + 1));
  }

  lemma WriteEarlier(b: seq<Byte>, i: nat, g: Byte, j: nat, x: Byte)
    requires ClearFrom(b, i) && ByteOf(i) < |b| && j < i
    ensures Septet(Written(b, i, g), x, j) == Septet(b, x, j)
  {
    var w, m, s, k, t := Written(b, i, g), ByteOf(i), ShiftOf(i), ByteOf(j), ShiftOf(j);
    Positions(i, j);
    WrittenAt(b, i, g);
    hide Extract, Shl, Shr, Written, ByteOf, ShiftOf;
    if k + 1 == m {
      if t <= 1 { ExtractWithin(b[k], w[m], b[m], t); } else { ExtractKept(b[k], b[m], g, s, t); }
    } else if k == m {
      ExtractKept(Past(w, x, m + 1), b[m], g, s, t);
      ExtractWithin(b[m], Past(w, x, m + 1), Past(b, x, m + 1), t);
    }
  }

  /** How an earlier septet lies to a later one. */
  lemma Positions(i: nat, j: nat)
    requires j < i
    ensures ByteOf(j) <= ByteOf(i)
    ensures ByteOf(j) == ByteOf(i) ==> ShiftOf(j) == 0 && ShiftOf(i) == 7
    ensures ByteOf(j) + 1 == ByteOf(i) ==> ShiftOf(j) <= 1 || ShiftOf(j) == ShiftOf(i) + 1
  {
    NextSeptet(i);
    NextSeptet(j);
    NextSeptet(j + 1);
  }

  lemma WriteClears(b: seq<Byte>, i: nat, g: Byte)
    requires ClearFrom(b, i) && ByteOf(i) < |b| && g & 0x80 == 0
    ensures ClearFrom(Written(b, i, g), i + 1)
  {
    NextSeptet(i);
    hide Shl, Shr;
    ClearNext(b[ByteOf(i)], g, ShiftOf(i));
  }

  /** Writing the next character keeps the earlier ones. */
  lemma WriteNext(b: seq<Byte>, text: seq<Byte>, i: nat)
    requires i < |text| && Packed(b, text, i) && ClearFrom(b, i) && 7 * (i + 1) <= 8 * |b|
    ensures ByteOf(i) < |b| && Packed(Written(b, i, ToGsm(text[i])), text, i + 1)
  {
    var g := ToGsm(text[i]);
    NextSeptet(i);
    hide Septet, Written, ToGsm;
    forall j: nat, x: Byte | j < i + 1 ensures Septet(Written(b, i, g), x, j) == ToGsm(text[j]) {
      if j == i { WriteOwn(b, i, g, x); } else { WriteEarlier(b, i, g, j, x); }
    }
  }

  function Bytes(n: nat): nat { (7 * n + 7) / 8 }

  // ---- the bits of a message -------------------------------------------------------------------------

  function Bit(x: Byte, k: nat): Byte
    requires k < 8
  {
    Shr(x, k) & 1
  }

  /** Bit n of a message: its bytes in order, each from its lowest bit up. */
  function BitAt(b: seq<Byte>, n: nat): Byte
    requires n < 8 * |b|
  {
    Bit(b[n / 8], n % 8)
  }

  lemma ExtractBit(b0: Byte, b1: Byte, s: nat, k: nat)
    requires s < 8 && k < 7
    ensures Bit(Extract(b0, b1, s), k) == if s + k < 8 then Bit(b0, s + k) else Bit(b1, s + k - 8)
  {
    if s < 4 {
      match s
      case 0 =>
      case 1 =>
      case 2 =>
      case 3 =>
    } else {
      match s
      case 4 =>
      case 5 =>
      case 6 =>
      case 7 =>
    }
  }

  lemma SeptetBit(b: seq<Byte>, x: Byte, i: nat, k: nat)
    requires k < 7 && 7 * i + k < 8 * |b|
    ensures Bit(Septet(b, x, i), k) == BitAt(b, 7 * i + k)
  {
    NextSeptet(i);
    hide Extract, Bit;
    ExtractBit(Past(b, x, ByteOf(i)), Past(b, x, ByteOf(i) + 1), ShiftOf(i), k);
    if ShiftOf(i) + k < 8 {
      assert (7 * i + k) / 8 == ByteOf(i) && (7 * i + k) % 8 == ShiftOf(i) + k;
    } else {
      assert (7 * i + k) / 8 == ByteOf(i) + 1 && (7 * i + k) % 8 == ShiftOf(i) + k - 8;
    }
  }

  /** The message b is the codes of the text, seven bits each, lowest first, one after the other, and
      zero bits up to the end. */
  ghost predicate IsMessage(b: seq<Byte>, text: seq<Byte>) {
    && 7 * |text| <= 8 * |b| && (exists codes: seq<Byte> :: Spells(b, text, codes))
    && forall n: nat :: 7 * |text| <= n < 8 * |b| ==> BitAt(b, n) == 0
  }

  ghost predicate Spells(b: seq<Byte>, text: seq<Byte>, codes: seq<Byte>) {
    && |codes| == |text| && 7 * |text| <= 8 * |b|
    && forall i: nat :: i < |text| ==> Coded(text[i], codes[i]) && forall k: nat :: k < 7 ==> BitAt(b, 7 * i + k) == Bit(codes[i], k)
  }

  lemma ClearBits(x: Byte, s: nat, k: nat)
    requires s <= k < 8 && Shr(x, s) == 0
    ensures Bit(x, k) == 0
  {
    match s
    case 0 =>
    case 1 =>
    case 2 =>
    case 3 =>
    case 4 =>
    case 5 =>
    case 6 =>
    case 7 =>
  }

  lemma RestClear(b: seq<Byte>, i: nat, n: nat)
    requires ClearFrom(b, i) && 7 * i <= n < 8 * |b|
    ensures BitAt(b, n) == 0
  {
    NextSeptet(i);
    assert n / 8 < |b| && BitAt(b, n) == Bit(b[n / 8], n % 8);
    hide Shr, Bit, BitAt;
    assert ByteOf(i) <= n / 8 && (ByteOf(i) == n / 8 ==> ShiftOf(i) <= n % 8);
    if n / 8 == ByteOf(i) {
      ClearBits(b[n / 8], ShiftOf(i), n % 8);
    } else {
      ShrNone(b[n / 8]);
      ClearBits(b[n / 8], 0, n % 8);
    }
  }

  lemma ShrNone(x: Byte)
    ensures Shr(x, 0) == x
  {
  }

  lemma PackedIsMessage(b: seq<Byte>, text: seq<Byte>)
    requires Packed(b, text, |text|) && ClearFrom(b, |text|) && 7 * |text| <= 8 * |b|
    ensures IsMessage(b, text)
  {
    hide ToGsm, Coded, Septet, Bit, BitAt, ClearFrom;
    var codes := seq(|text|, i requires 0 <= i < |text| => ToGsm(text[i]));
    forall i: nat | i < |text| ensures Coded(text[i], codes[i]) && forall k: nat :: k < 7 ==> BitAt(b, 7 * i + k) == Bit(codes[i], k) {
      GsmCodes(text[i]);
      forall k: nat | k < 7 ensures BitAt(b, 7 * i + k) == Bit(codes[i], k) { SeptetBit(b, 0, i, k); }
    }
    assert Spells(b, text, codes);
    forall n: nat | 7 * |text| <= n < 8 * |b| ensures BitAt(b, n) == 0 { RestClear(b, |text|, n); }
  }

  /** The body of the packing loop. */
  method OrSeptet(out: array<Byte>, bitpos: nat, g: Byte, ghost i: nat)
    requires bitpos == 7 * i && ByteOf(i) < out.Length
    modifies out
    ensures out[..] == Written(old(out[..]), i, g)
  {
    hide Shl, Shr;
    var m, shift := bitpos / 8, bitpos % 8;
    out[m] := out[m] | Shl(g, shift);
    if shift > 0 && m + 1 < out.Length {
      out[m + 1] := out[m + 1] | Shr(g, 8 - shift);
    }
    assert out[..] == Written(old(out[..]), i, g);
  }

  lemma ByteOfGrows(i: nat, j: nat)
    requires i <= j
    ensures ByteOf(i) <= ByteOf(j)
  {
  }

  /** memset to zero */
  method Clear(out: array<Byte>)
    modifies out
    ensures forall m :: 0 <= m < out.Length ==> out[m] == 0
  {
    var k := 0;
    while k < out.Length
      invariant 0 <= k <= out.Length && forall m :: 0 <= m < k ==> out[m] == 0
    {
      out[k] := 0;
      k := k + 1;
    }
  }

  /** sms_encode_7bit: the packed septets exactly when the buffer is big enough; an error exactly
      when some septet starts behind the buffer, so not when only the end of the last one is cut. */
  method Encode7Bit(text: seq<Byte>, out: array<Byte>) returns (r: int)
    modifies out
    ensures 0 <= r <= out.Length <==> out.Length > 0 && 7 * |text| <= 8 * out.Length
    ensures 0 <= r <= out.Length ==> r == Bytes(|text|) && Packed(out[..], text, |text|) && forall m :: r <= m < out.Length ==> out[m] == 0
    ensures 0 <= r <= out.Length ==> IsMessage(out[..], text)
    ensures r == -1 || r == Bytes(|text|)
    ensures r == -1 <==> out.Length == 0 || (|text| > 0 && ByteOf(|text| - 1) >= out.Length)
    ensures out.Length > 0 ==> (r <= out.Length <==> 7 * |text| <= 8 * out.Length || 7 * (|text| - 1) >= 8 * out.Length)
  {
    if out.Length == 0 { return -1; }
    Clear(out);
    hide Septet, Written, ToGsm, Shr, Packed, ClearFrom, IsMessage;
    EmptyPacked(out[..], text);
    var bitpos, i := 0, 0;
    while i < |text|
      invariant 0 <= i <= |text| && bitpos == 7 * i && ClearFrom(out[..], i)
      invariant 7 * i <= 8 * out.Length ==> Packed(out[..], text, i)
      invariant i > 0 ==> ByteOf(i - 1) < out.Length
    {
      var g := ToGsm(text[i]);
      if bitpos / 8 >= out.Length {
        ByteOfGrows(i, |text| - 1);
        return -1;
      }
      if 7 * (i + 1) <= 8 * out.Length { WriteNext(out[..], text, i); }
      WriteClears(out[..], i, g);
      OrSeptet(out, bitpos, g, i);
      bitpos := bitpos + 7;
      i := i + 1;
    }
    ClearTail(out[..], |text|);
    if 7 * |text| <= 8 * out.Length { PackedIsMessage(out[..], text); }
    r := (bitpos + 7) / 8;
  }

  /** The user data of sms_build_submit_pdu: a text of 183 characters, and no other, is reported
      one byte longer than the buffer that holds it. */
  method UserData(text: seq<Byte>) returns (ud: seq<Byte>, r: int)
    ensures |ud| == 160
    ensures |text| <= 182 ==> 0 <= r <= 160 && r == Bytes(|text|) && Packed(ud, text, |text|) && IsMessage(ud, text)
    ensures |text| == 183 <==> r > 160
    ensures |text| == 183 ==> r == 161
    ensures |text| >= 184 <==> r == -1
  {
    var out := new Byte[160](_ => 0);
    r := Encode7Bit(text, out);
    ud := out[..];
  }

  lemma EmptyPacked(b: seq<Byte>, text: seq<Byte>)
    requires forall m :: 0 <= m < |b| ==> b[m] == 0
    ensures Packed(b, text, 0) && ClearFrom(b, 0)
  {
  }

  lemma ClearTail(b: seq<Byte>, n: nat)
    requires ClearFrom(b, n)
    ensures forall m :: Bytes(n) <= m < |b| ==> b[m] == 0
  {
    NextSeptet(n);
    forall m | Bytes(n) <= m < |b| ensures b[m] == 0 {
      if m == ByteOf(n) { assert ShiftOf(n) == 0; }
    }
  }

  /** The septets that fit an output buffer of cap characters and a terminator. */
  function Fit(septets: nat, cap: nat): nat { if septets + 1 <= cap then septets else if cap > 0 then cap - 1 else 0 }

  /** sms_decode_7bit reads the byte after the one a septet starts in, unless it starts at bit 0. */
  method Decode7Bit(input: seq<Byte>, septets: nat, cap: nat) returns (text: seq<Byte>)
    requires cap > 0
    requires forall i: nat :: i < Fit(septets, cap) ==> ByteOf(i) + (if ShiftOf(i) > 0 then 1 else 0) < |input|
    ensures |text| == Fit(septets, cap)
    ensures forall i :: 0 <= i < |text| ==> text[i] == FromGsm(Septet(input, 0, i))
  {
    hide FromGsm, Shl, Shr;
    text := [];
    var bitpos, i := 0, 0;
    while i < septets && |text| + 1 < cap
      invariant 0 <= i == |text| <= Fit(septets, cap) && bitpos == 7 * i
      invariant forall k :: 0 <= k < |text| ==> text[k] == FromGsm(Septet(input, 0, k))
    {
      var m, shift := bitpos / 8, bitpos % 8;
      assert m == ByteOf(i) && shift == ShiftOf(i);
      var g := Shr(input[m], shift);
      if shift > 0 { g := g | Shl(input[m + 1], 8 - shift); }
      g := g & 0x7F;
      ExtractCode(input[m], if shift > 0 then input[m + 1] else 0, shift);
      ExtractZero(input[m], if m + 1 < |input| then input[m + 1] else 0, shift);
      text := text + [FromGsm(g)];
      bitpos := bitpos + 7;
      i := i + 1;
    }
  }

  lemma ExtractCode(b0: Byte, b1: Byte, s: nat)
    requires s < 8
    ensures Extract(b0, b1, s) == (if s > 0 then Shr(b0, s) | Shl(b1, 8 - s) else Shr(b0, s)) & 0x7F
  {
  }

  lemma ExtractZero(b0: Byte, b1: Byte, s: nat)
    requires s < 8
    ensures s == 0 ==> Extract(b0, b1, s) == Extract(b0, 0, s)
  {
  }

  /** What the decoder makes of a text: unsupported characters become spaces. */
  function Spaced(text: seq<Byte>): (r: seq<Byte>)
    ensures |r| == |text|
  {
    seq(|text|, i requires 0 <= i < |text| => if Supported(text[i]) then text[i] else SPACE)
  }

  /** Packing and unpacking give each character back, independently of what follows the packed bytes. */
  lemma DecodesWhatWasPacked(b: seq<Byte>, text: seq<Byte>, x: Byte, rest: seq<Byte>, i: nat)
    requires Packed(b, text, |text|) && Bytes(|text|) <= |b| && i < |text|
    ensures ByteOf(i) + 1 < |b[..Bytes(|text|)] + [x] + rest|
    ensures FromGsm(Septet(b[..Bytes(|text|)] + [x] + rest, 0, i)) == Spaced(text)[i]
  {
    var n := Bytes(|text|);
    var input := b[..n] + [x] + rest;
    NextSeptet(i);
    AlphabetExactly(text[i]);
    var m, t := ByteOf(i), ShiftOf(i);
    assert input[m] == b[m] && (m + 1 < n ==> input[m + 1] == b[m + 1]);
    hide Extract, FromGsm, ToGsm, Supported;
    assert Septet(b, x, i) == ToGsm(text[i]);
    if m + 1 >= n { ExtractWithin(b[m], Past(input, 0, m + 1), Past(b, x, m + 1), t); }
  }

  /** Encoding then decoding, whatever byte follows the packed data in the decoder's buffer. */
  method RoundTrip(text: seq<Byte>, out: array<Byte>, x: Byte, cap: nat) returns (back: seq<Byte>)
    requires 7 * |text| <= 8 * out.Length && out.Length > 0 && cap > |text|
    modifies out
    ensures back == Spaced(text)
  {
    hide Packed, Septet, FromGsm;
    var r := Encode7Bit(text, out);
    var input := out[..r] + [x];
    forall i: nat | i < |text|
      ensures ByteOf(i) + 1 < |input| && FromGsm(Septet(input, 0, i)) == Spaced(text)[i]
    {
      DecodesWhatWasPacked(out[..], text, x, [], i);
      assert out[..][..r] + [x] + [] == input;
    }
    back := Decode7Bit(input, |text|, cap);
  }

  // ---- addresses -----------------------------------------------------------------------------------

  predicate Digits(s: seq<Byte>) { forall i :: 0 <= i < |s| ==> 48 <= s[i] <= 57 }

  /** The nibble of one digit; a missing second digit is the filler F. */
  function LowNibble(d: Byte): Byte { if d - 48 > 9 then 0 else d - 48 }

  function HighNibble(d: Byte): Byte { if d - 48 > 9 then 0x0F else d - 48 }

  /** Byte k of an encoded address. */
  function AddrByte(digits: seq<Byte>, k: nat): Byte
    requires 2 * k < |digits|
  {
    LowNibble(digits[2 * k]) | ((if 2 * k + 1 < |digits| then HighNibble(digits[2 * k + 1]) else 0x0F) << 4)
  }

  /** addr_bcd */
  method AddrBcd(digits: seq<Byte>, cap: nat) returns (r: int, out: seq<Byte>)
    ensures r == -1 <==> cap < (|digits| + 1) / 2
    ensures r != -1 ==> r == |out| == (|digits| + 1) / 2 && forall k :: 0 <= k < |out| ==> out[k] == AddrByte(digits, k)
  {
    out := [];
    var i := 0;
    while i < |digits|
      invariant 0 <= i <= |digits| + 1 && i == 2 * |out| && |out| <= cap
      invariant forall k :: 0 <= k < |out| ==> out[k] == AddrByte(digits, k)
    {
      var lo: Byte := digits[i] - 48;
      var hi: Byte := if i + 1 < |digits| then digits[i + 1] - 48 else 0x0F;
      if |out| >= cap { return -1, out; }
      if lo > 9 { lo := 0; }
      if hi > 9 { hi := 0x0F; }
      out := out + [lo | (hi << 4)];
      i := i + 2;
    }
    r := |out|;
  }

  function Nibble(input: seq<Byte>, i: nat): Byte
    requires i / 2 < |input|
  {
    if i % 2 == 1 then input[i / 2] >> 4 else input[i / 2] & 0x0F
  }

  /** addr_bcd_decode stops at a filler. */
  method AddrBcdDecode(input: seq<Byte>, ndigits: nat, cap: nat) returns (out: seq<Byte>)
    requires cap > 0 && (ndigits + 1) / 2 <= |input|
    ensures |out| <= Fit(ndigits, cap)
    ensures forall i :: 0 <= i < |out| ==> Nibble(input, i) <= 9 && out[i] == 48 + Nibble(input, i)
    ensures |out| < Fit(ndigits, cap) ==> |out| / 2 < |input| && Nibble(input, |out|) > 9
  {
    out := [];
    var i := 0;
    while i < ndigits && |out| + 1 < cap
      invariant 0 <= i == |out| <= Fit(ndigits, cap)
      invariant forall k :: 0 <= k < |out| ==> Nibble(input, k) <= 9 && out[k] == 48 + Nibble(input, k)
    {
      var nib := Nibble(input, i);
      if nib > 9 { break; }
      out := out + [48 + nib];
      i := i + 1;
    }
  }

  lemma NibblesBack(lo: Byte, hi: Byte)
    requires lo <= 15 && hi <= 15
    ensures (lo | (hi << 4)) & 0x0F == lo && (lo | (hi << 4)) >> 4 == hi
  {
  }

  /** The nibbles of an encoded address are its digits, odd or even in number. */
  lemma AddressDigits(digits: seq<Byte>, input: seq<Byte>, i: nat)
    requires Digits(digits) && i < |digits| && |input| == (|digits| + 1) / 2
    requires forall k :: 0 <= k < |input| ==> input[k] == AddrByte(digits, k)
    ensures Nibble(input, i) <= 9 && 48 + Nibble(input, i) == digits[i]
  {
    var k := i / 2;
    var d0 := digits[2 * k];
    DigitFits(d0);
    var hi: Byte := if 2 * k + 1 < |digits| then HighNibble(digits[2 * k + 1]) else 0x0F;
    if 2 * k + 1 < |digits| { DigitFits(digits[2 * k + 1]); }
    NibblesBack(LowNibble(d0), hi);
    assert input[k] == LowNibble(d0) | (hi << 4);
    hide LowNibble, HighNibble;
  }

  /** Byte k of an encoded address has the first of its two digits in its low nibble, and the second,
      or the filler F, in the high one. */
  lemma AddressBytes(digits: seq<Byte>, k: nat)
    requires Digits(digits) && 2 * k < |digits|
    ensures AddrByte(digits, k) & 0x0F == digits[2 * k] - 48
    ensures AddrByte(digits, k) >> 4 == if 2 * k + 1 < |digits| then digits[2 * k + 1] - 48 else 0x0F
  {
    var d0 := digits[2 * k];
    DigitFits(d0);
    var hi: Byte := if 2 * k + 1 < |digits| then HighNibble(digits[2 * k + 1]) else 0x0F;
    if 2 * k + 1 < |digits| { DigitFits(digits[2 * k + 1]); }
    NibblesBack(LowNibble(d0), hi);
    hide LowNibble, HighNibble;
  }

  lemma DigitFits(d: Byte)
    requires 48 <= d <= 57
    ensures LowNibble(d) == HighNibble(d) <= 9 && 48 + LowNibble(d) == d
  {
  }

  /** Encoding a digit string and decoding it gives it back, whenever it fits both buffers. */
  method AddressRoundTrip(digits: seq<Byte>, encCap: nat, decCap: nat) returns (back: seq<Byte>)
    requires Digits(digits) && (|digits| + 1) / 2 <= encCap && |digits| < decCap
    ensures back == digits
  {
    hide Nibble, AddrByte;
    var r, enc := AddrBcd(digits, encCap);
    forall i: nat | i < |digits| ensures Nibble(enc, i) <= 9 && 48 + Nibble(enc, i) == digits[i] {
      AddressDigits(digits, enc, i);
    }
    back := AddrBcdDecode(enc, |digits|, decCap);
  }
}
