/** CRC-32: the table-driven streaming form of drivers/block.c and the bitwise form of
    kernel/abmgr.c are the same function. */
module Crc {
  import opened Bytes

  const POLY: bv32 := 0xEDB8_8320

  // The C operators by name, so that the proofs below can keep them folded.

  function Xor(a: bv32, b: bv32): bv32 { a ^ b }

  function Half(c: bv32): bv32 { c >> 1 }

  predicate Odd(c: bv32) { c & 1 == 1 }

  function Low(c: bv32): bv32 { c & 0xFF }

  function High(c: bv32): bv32 { c & 0xFFFF_FF00 }

  function Down(c: bv32): bv32 { c >> 8 }

  /** The polynomial if the low bit of c is set, else 0. */
  function Mask(c: bv32): bv32 { POLY & (0 - (c & 1)) }

  function Wide(b: byte): bv32 { b as bv32 }

  /** The table index in the low byte. */
  function Index(c: bv32): (i: nat)
    ensures i < 256
  {
    Low(c) as int
  }

  /** One bit, as crc_init writes it. */
  function Step(c: bv32): bv32 { if Odd(c) then Xor(POLY, Half(c)) else Half(c) }

  function Steps(c: bv32, k: nat): bv32
    decreases k
  {
    if k == 0 then c else Step(Steps(c, k - 1))
  }

  /** The register after one more byte, bit by bit. */
  function Feed(c: bv32, b: byte): bv32 { Steps(Xor(c, Wide(b)), 8) }

  /** The register after all of p. */
  function Run(c: bv32, p: seq<byte>): bv32
    decreases |p|
  {
    if p == [] then c else Run(Feed(c, p[0]), p[1..])
  }

  function Crc32(p: seq<byte>): bv32 { Xor(Run(0xFFFF_FFFF, p), 0xFFFF_FFFF) }

  // ---- facts about the operations ---------------------------------------------------------

  lemma Halves(x: bv32)
    ensures x == Xor(Low(x), High(x)) && Low(High(x)) == 0 && Down(High(x)) == Down(x)
  {
  }

  lemma XorHalf(a: bv32, b: bv32)
    ensures Half(Xor(a, b)) == Xor(Half(a), Half(b))
  {
  }

  lemma XorOdd(a: bv32, b: bv32)
    ensures Odd(Xor(a, b)) <==> Odd(a) != Odd(b)
  {
  }

  lemma XorLeft(p: bv32, x: bv32, y: bv32)
    ensures Xor(p, Xor(x, y)) == Xor(Xor(p, x), y)
  {
  }

  lemma XorRight(p: bv32, x: bv32, y: bv32)
    ensures Xor(p, Xor(x, y)) == Xor(x, Xor(p, y))
  {
  }

  lemma XorSelf(x: bv32)
    ensures Xor(x, x) == 0
  {
  }

  lemma XorZero(x: bv32)
    ensures Xor(0, x) == x
  {
  }

  lemma XorCancels(p: bv32, x: bv32, y: bv32)
    ensures Xor(Xor(p, x), Xor(p, y)) == Xor(x, y)
  {
    XorLeft(p, x, Xor(p, y));
    XorRight(x, p, y);
    XorLeft(p, p, Xor(x, y));
    XorSelf(p);
    XorZero(Xor(x, y));
    hide Xor;
  }

  lemma MaskIs(c: bv32)
    ensures Mask(c) == if Odd(c) then POLY else 0
  {
    assert c & 1 == 0 || c & 1 == 1;
  }

  lemma XorNothing(x: bv32, y: bv32)
    ensures Xor(x, 0) == x && Xor(x, y) == Xor(y, x)
  {
  }

  /** The branch-free step of the bitwise form. */
  lemma MaskedStep(c: bv32)
    ensures Xor(Half(c), Mask(c)) == Step(c)
  {
    MaskIs(c);
    XorNothing(Half(c), POLY);
    hide Xor, Half, Odd, Mask;
  }

  // ---- the table form agrees with the bitwise form -------------------------------------------

  lemma StepLinear(a: bv32, b: bv32)
    ensures Step(Xor(a, b)) == Xor(Step(a), Step(b))
  {
    hide Xor, Half, Odd;
    XorHalf(a, b);
    XorOdd(a, b);
    XorCancels(POLY, Half(a), Half(b));
    XorLeft(POLY, Half(a), Half(b));
    XorRight(POLY, Half(a), Half(b));
  }

  lemma {:induction false} StepsLinear(a: bv32, b: bv32, k: nat)
    ensures Steps(Xor(a, b), k) == Xor(Steps(a, k), Steps(b, k))
    decreases k
  {
    hide Xor, Step;
    if k > 0 {
      StepsLinear(a, b, k - 1);
      StepLinear(Steps(a, k - 1), Steps(b, k - 1));
    }
  }

  /** Eight halvings. */
  lemma EightHalves(c: bv32)
    requires Low(c) == 0
    ensures var c1 := Half(c); var c2 := Half(c1); var c3 := Half(c2); var c4 := Half(c3);
      var c5 := Half(c4); var c6 := Half(c5); var c7 := Half(c6);
      && !Odd(c) && !Odd(c1) && !Odd(c2) && !Odd(c3) && !Odd(c4) && !Odd(c5) && !Odd(c6) && !Odd(c7)
      && Half(c7) == Down(c)
  {
  }

  /** A register whose low byte is zero just shifts down. */
  lemma HighSteps(c: bv32)
    requires Low(c) == 0
    ensures Steps(c, 8) == Down(c)
  {
    EightHalves(c);
    hide Xor, Half, Odd, Low, Down;
    assert Steps(c, 0) == c;
    assert Steps(c, 2) == Half(Half(c));
    assert Steps(c, 4) == Half(Half(Half(Half(c))));
    assert Steps(c, 6) == Half(Half(Half(Half(Half(Half(c))))));
  }

  /** One table lookup does the work of eight bit steps. */
  lemma TableStep(x: bv32)
    ensures Steps(x, 8) == Xor(Steps(Low(x), 8), Down(x))
  {
    Halves(x);
    hide Xor, Steps, Low, High, Down, Step;
    StepsLinear(Low(x), High(x), 8);
    HighSteps(High(x));
  }

  lemma ByteLow(c: bv32, b: bv32)
    requires b & 0xFFFF_FF00 == 0
    ensures Down(Xor(c, b)) == Down(c)
  {
  }

  lemma ByteFits(b: byte)
    ensures Wide(b) & 0xFFFF_FF00 == 0
  {
  }

  lemma LowFits(c: bv32)
    ensures Low(c) as int < 256 && (Low(c) as int) as bv32 == Low(c)
  {
  }

  lemma IndexWide(c: bv32)
    ensures Wide(Index(c)) == Low(c)
  {
    LowFits(c);
    hide Low;
  }

  /** What crc_init leaves in the table. */
  ghost predicate IsTable(table: seq<bv32>) {
    |table| == 256 && forall i :: 0 <= i < 256 ==> table[i] == Steps(Wide(i), 8)
  }

  lemma Lookup(table: seq<bv32>, c: bv32, b: byte)
    requires IsTable(table)
    ensures |table| == 256 && Xor(table[Index(Xor(c, Wide(b)))], Down(c)) == Feed(c, b)
  {
    var x := Xor(c, Wide(b));
    IndexWide(x);
    ByteFits(b);
    ByteLow(c, Wide(b));
    hide Xor, Low, Down, Steps, Wide, Index, Step;
    TableStep(x);
  }

  /** crc_init */
  method CrcInit() returns (table: array<bv32>)
    ensures fresh(table) && IsTable(table[..])
  {
    hide Xor, Half, Odd, Wide;
    table := new bv32[256](_ => 0);
    for i := 0 to 256
      invariant forall j :: 0 <= j < i ==> table[j] == Steps(Wide(j), 8)
    {
      var c := Wide(i);
      for k := 0 to 8
        invariant c == Steps(Wide(i), k)
      {
        c := if Odd(c) then Xor(POLY, Half(c)) else Half(c);
      }
      table[i] := c;
    }
  }

  /** crc32_update */
  method Crc32Update(table: array<bv32>, crc: bv32, p: seq<byte>) returns (r: bv32)
    requires IsTable(table[..])
    ensures r == Run(crc, p)
  {
    hide Xor, Low, Down, Wide, Index, Feed, IsTable;
    r := crc;
    var i := 0;
    while i < |p|
      invariant 0 <= i <= |p| && Run(crc, p) == Run(r, p[i..])
    {
      Lookup(table[..], r, p[i]);
      assert p[i..][1..] == p[i + 1..];
      r := Xor(table[Index(Xor(r, Wide(p[i])))], Down(r));
      i := i + 1;
    }
  }

  /** crc32_calc */
  method Crc32Calc(p: seq<byte>) returns (r: bv32)
    ensures r == Crc32(p)
  {
    hide Xor, Half, Mask, Wide, Step;
    r := 0xFFFF_FFFF;
    var i := 0;
    while i < |p|
      invariant 0 <= i <= |p| && Run(0xFFFF_FFFF, p) == Run(r, p[i..])
    {
      ghost var before := r;
      r := Xor(r, Wide(p[i]));
      for b := 0 to 8
        invariant r == Steps(Xor(before, Wide(p[i])), b)
      {
        MaskedStep(r);
        r := Xor(Half(r), Mask(r));
      }
      assert p[i..][1..] == p[i + 1..];
      i := i + 1;
    }
    r := Xor(r, 0xFFFF_FFFF);
  }

  /** The streaming form, seeded with all ones and complemented at the end, over two consecutive
      pieces is the bitwise form of the whole. */
  method PiecesAgree(p: seq<byte>, q: seq<byte>) returns (streamed: bv32, whole: bv32)
    ensures streamed == whole == Crc32(p + q)
  {
    hide Xor, Steps, IsTable;
    var table := CrcInit();
    var running := Crc32Update(table, 0xFFFF_FFFF, p);
    running := Crc32Update(table, running, q);
    Streaming(0xFFFF_FFFF, p, q);
    streamed := Xor(running, 0xFFFF_FFFF);
    whole := Crc32Calc(p + q);
  }

  /** Feeding two pieces one after the other is feeding their concatenation. */
  lemma {:induction false} Streaming(c: bv32, p: seq<byte>, q: seq<byte>)
    ensures Run(c, p + q) == Run(Run(c, p), q)
    decreases |p|
  {
    hide Feed;
    if p == [] {
      assert p + q == q;
    } else {
      assert (p + q)[1..] == p[1..] + q;
      Streaming(Feed(c, p[0]), p[1..], q);
    }
  }

  // ---- the standard check value --------------------------------------------------------------------

  const DIGITS: seq<byte> := [0x31, 0x32, 0x33, 0x34, 0x35, 0x36, 0x37, 0x38, 0x39]

  lemma RunMore(c: bv32, p: seq<byte>, b: byte, d: bv32)
    requires Feed(Run(c, p), b) == d
    ensures Run(c, p + [b]) == d
  {
    hide Feed;
    Streaming(c, p, [b]);
    assert [b][1..] == [];
  }

  lemma ThreeDigits()
    ensures Run(0xFFFF_FFFF, DIGITS[..3]) == 0x77B7_9C2D
  {
    hide Run;
    RunNone(0xFFFF_FFFF);
    assert DIGITS[..1] == DIGITS[..0] + [0x31];
    assert Feed(0xFFFF_FFFF, 0x31) == 0x7C23_1048;
    RunMore(0xFFFF_FFFF, DIGITS[..0], 0x31, 0x7C23_1048);
    assert DIGITS[..2] == DIGITS[..1] + [0x32];
    assert Feed(0x7C23_1048, 0x32) == 0xB0AC_BB32;
    RunMore(0xFFFF_FFFF, DIGITS[..1], 0x32, 0xB0AC_BB32);
    assert DIGITS[..3] == DIGITS[..2] + [0x33];
    assert Feed(0xB0AC_BB32, 0x33) == 0x77B7_9C2D;
    RunMore(0xFFFF_FFFF, DIGITS[..2], 0x33, 0x77B7_9C2D);
  }

  lemma SixDigits()
    ensures Run(0xFFFF_FFFF, DIGITS[..6]) == 0xF68D_2C9E
  {
    hide Run;
    ThreeDigits();
    assert DIGITS[..4] == DIGITS[..3] + [0x34];
    assert Feed(0x77B7_9C2D, 0x34) == 0x641C_1F5C;
    RunMore(0xFFFF_FFFF, DIGITS[..3], 0x34, 0x641C_1F5C);
    assert DIGITS[..5] == DIGITS[..4] + [0x35];
    assert Feed(0x641C_1F5C, 0x35) == 0x340A_C5E3;
    RunMore(0xFFFF_FFFF, DIGITS[..4], 0x35, 0x340A_C5E3);
    assert DIGITS[..6] == DIGITS[..5] + [0x36];
    assert Feed(0x340A_C5E3, 0x36) == 0xF68D_2C9E;
    RunMore(0xFFFF_FFFF, DIGITS[..5], 0x36, 0xF68D_2C9E);
  }

  lemma NineDigits()
    ensures Run(0xFFFF_FFFF, DIGITS[..9]) == 0x340B_C6D9
  {
    hide Run;
    SixDigits();
    assert DIGITS[..7] == DIGITS[..6] + [0x37];
    assert Feed(0xF68D_2C9E, 0x37) == 0xAFFC_9660;
    RunMore(0xFFFF_FFFF, DIGITS[..6], 0x37, 0xAFFC_9660);
    assert DIGITS[..8] == DIGITS[..7] + [0x38];
    assert Feed(0xAFFC_9660, 0x38) == 0x651F_2550;
    RunMore(0xFFFF_FFFF, DIGITS[..7], 0x38, 0x651F_2550);
    assert DIGITS[..9] == DIGITS[..8] + [0x39];
    assert Feed(0x651F_2550, 0x39) == 0x340B_C6D9;
    RunMore(0xFFFF_FFFF, DIGITS[..8], 0x39, 0x340B_C6D9);
  }

  /** The CRC of the nine digits is the check value of CRC-32. */
  lemma CheckValue()
    ensures Crc32(DIGITS) == 0xCBF4_3926
  {
    hide Run;
    NineDigits();
    assert DIGITS[..9] == DIGITS;
  }

  lemma RunNone(c: bv32)
    ensures Run(c, []) == c
  {
  }
}
