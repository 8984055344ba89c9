// The CRC-32 of PNG chunks: the byte-wise table walk against the bit-serial register of
// section 3.4 of RFC 2083.
module Crc32 {

  // A 32-bit word. The wrapper keeps algebra over words apart from arithmetic on bits.
  datatype Word = Word(bits: bv32)

  const POLY: bv32 := 0xEDB88320
  const ALL_ONES: bv32 := 0xFFFFFFFF

  // ---- the standard's register: one data bit at a time, least significant bit first ----

  function Half(c: bv32): bv32 { c >> 1 }
  predicate Odd(c: bv32) { c & 1 == 1 }
  function XorBits(a: bv32, b: bv32): bv32 { a ^ b }

  function BitStepBits(c: bv32, bit: bool): bv32 {
    if Odd(c) != bit then XorBits(Half(c), POLY) else Half(c)
  }

  function BitStep(c: Word, bit: bool): Word {
    Word(BitStepBits(c.bits, bit))
  }

  function BitOf(b: bv8, i: nat): bool
    requires i < 8
  {
    (b >> i) & 1 == 1
  }

  function ByteSerial(c: Word, b: bv8, n: nat): Word
    requires n <= 8
  {
    if n == 0 then c else BitStep(ByteSerial(c, b, n - 1), BitOf(b, n - 1))
  }

  function Register(c: Word, bytes: seq<bv8>): Word {
    if bytes == [] then c
    else ByteSerial(Register(c, bytes[..|bytes| - 1]), bytes[|bytes| - 1], 8)
  }

  // Preset to ones, inverted at the end.
  function Crc(bytes: seq<bv8>): bv32 {
    Register(Word(ALL_ONES), bytes).bits ^ ALL_ONES
  }

  // ---- the table ----

  function ShiftBits(c: bv32): bv32 {
    if Odd(c) then XorBits(POLY, Half(c)) else Half(c)
  }

  function Shift(c: Word): Word {
    Word(ShiftBits(c.bits))
  }

  function ShiftN(c: Word, n: nat): Word {
    if n == 0 then c else Shift(ShiftN(c, n - 1))
  }

  ghost predicate EntryOk(t: seq<bv32>, i: nat)
    requires i < |t| && i < 256
  {
    Word(t[i]) == ShiftN(Word(i as bv32), 8)
  }

  ghost predicate IsTable(t: seq<bv32>) {
    |t| == 256 && forall n :: 0 <= n < 256 ==> EntryOk(t, n)
  }

  lemma StepIs(c: bv32)
    ensures (if c & 1 != 0 then POLY ^ (c >> 1) else c >> 1) == ShiftBits(c)
  {
    assert c & 1 == 0 || c & 1 == 1;
  }

  method TableEntry(n: bv32) returns (c: bv32)
    ensures Word(c) == ShiftN(Word(n), 8)
  {
    hide ShiftBits;
    c := n;
    for k := 0 to 8
      invariant Word(c) == ShiftN(Word(n), k)
    {
      StepIs(c);
      ShiftOnce(Word(n), k);
      c := if c & 1 != 0 then POLY ^ (c >> 1) else c >> 1;
    }
  }

  method BuildTable() returns (t: array<bv32>)
    ensures fresh(t) && IsTable(t[..])
  {
    t := new bv32[256];
    for n := 0 to 256
      invariant forall i :: 0 <= i < n ==> EntryOk(t[..], i)
    {
      ghost var before := t[..];
      t[n] := TableEntry(n as bv32);
      hide ShiftN;
      forall i | 0 <= i < n ensures EntryOk(t[..], i) {
        assert EntryOk(before, i) && before[i] == t[..][i];
      }
    }
  }

  function LowBits(a: bv32): bv32 { a & 0xFF }
  function HighBits(a: bv32): bv32 { a & 0xFFFFFF00 }
  function ShrBits(a: bv32): bv32 { a >> 8 }
  function WideBits(b: bv8): bv32 { b as bv32 }

  function Xor(a: Word, b: Word): Word { Word(XorBits(a.bits, b.bits)) }
  function LowByte(a: Word): Word { Word(LowBits(a.bits)) }
  function HighBytes(a: Word): Word { Word(HighBits(a.bits)) }
  function ShrByte(a: Word): Word { Word(ShrBits(a.bits)) }
  function OfByte(b: bv8): Word { Word(WideBits(b)) }

  lemma HalfXor(x: bv32, y: bv32)
    ensures Half(XorBits(x, y)) == XorBits(Half(x), Half(y))
  {
  }

  lemma OddXor(x: bv32, y: bv32)
    ensures Odd(XorBits(x, y)) <==> Odd(x) != Odd(y)
  {
  }

  lemma XorComm(a: bv32, b: bv32)
    ensures XorBits(a, b) == XorBits(b, a)
  {
  }

  lemma XorAssoc(a: bv32, b: bv32, c: bv32)
    ensures XorBits(XorBits(a, b), c) == XorBits(a, XorBits(b, c))
  {
  }

  lemma XorTwice(a: bv32, b: bv32)
    ensures XorBits(a, XorBits(a, b)) == b
  {
  }

  lemma XorLaws(p: bv32, a: bv32, b: bv32)
    ensures XorBits(XorBits(p, a), XorBits(p, b)) == XorBits(a, b)
    ensures XorBits(XorBits(p, a), b) == XorBits(p, XorBits(a, b))
    ensures XorBits(a, XorBits(p, b)) == XorBits(p, XorBits(a, b))
    ensures XorBits(XorBits(a, p), b) == XorBits(p, XorBits(a, b))
  {
    hide XorBits;
    XorComm(p, a);
    XorAssoc(a, p, XorBits(p, b));
    XorTwice(p, b);
    XorAssoc(p, a, b);
    XorAssoc(a, p, b);
  }

  lemma ShiftXorBits(x: bv32, y: bv32)
    ensures ShiftBits(XorBits(x, y)) == XorBits(ShiftBits(x), ShiftBits(y))
  {
    hide XorBits, Half, Odd;
    HalfXor(x, y);
    OddXor(x, y);
    XorLaws(POLY, Half(x), Half(y));
  }

  // Shifting is linear.
  lemma ShiftXor(x: Word, y: Word)
    ensures Shift(Xor(x, y)) == Xor(Shift(x), Shift(y))
  {
    hide ShiftBits, XorBits;
    ShiftXorBits(x.bits, y.bits);
  }

  lemma {:induction false} ShiftNXor(x: Word, y: Word, n: nat)
    ensures ShiftN(Xor(x, y), n) == Xor(ShiftN(x, n), ShiftN(y, n))
  {
    if n > 0 {
      ShiftNXor(x, y, n - 1);
      ShiftXor(ShiftN(x, n - 1), ShiftN(y, n - 1));
      hide Shift, Xor;
    }
  }

  function Shift4(c: bv32): bv32 { ShiftBits(ShiftBits(ShiftBits(ShiftBits(c)))) }

  // With no low bits nothing is fed back: each step is a plain shift.
  lemma EvenChain(v: bv32)
    requires LowBits(v) == 0
    ensures Shift4(Shift4(v)) == ShrBits(v)
  {
    assert ShiftBits(v) == v >> 1 && ShiftBits(v >> 1) == v >> 2 && ShiftBits(v >> 2) == v >> 3;
    assert ShiftBits(v >> 3) == v >> 4 && ShiftBits(v >> 4) == v >> 5 && ShiftBits(v >> 5) == v >> 6;
    assert ShiftBits(v >> 6) == v >> 7 && ShiftBits(v >> 7) == v >> 8;
  }

  // High bytes only move down.
  lemma ShiftHigh(y: Word)
    requires LowBits(y.bits) == 0
    ensures ShiftN(y, 8) == ShrByte(y)
  {
    EvenChain(y.bits);
    hide ShiftBits, ShrBits, LowBits;
    ShiftOnce(y, 0); ShiftOnce(y, 1); ShiftOnce(y, 2); ShiftOnce(y, 3);
    ShiftOnce(y, 4); ShiftOnce(y, 5); ShiftOnce(y, 6); ShiftOnce(y, 7);
  }

  lemma ShiftOnce(y: Word, n: nat)
    ensures ShiftN(y, n + 1) == Word(ShiftBits(ShiftN(y, n).bits))
  {
    hide ShiftBits;
  }

  lemma SplitBits(x: bv32)
    ensures XorBits(LowBits(x), HighBits(x)) == x && LowBits(HighBits(x)) == 0 && ShrBits(HighBits(x)) == ShrBits(x)
  {
  }

  lemma ShiftEight(x: Word)
    ensures ShiftN(x, 8) == Xor(ShiftN(LowByte(x), 8), ShrByte(x))
  {
    hide XorBits, LowBits, HighBits, ShrBits, ShiftN;
    SplitBits(x.bits);
    assert x == Xor(LowByte(x), HighBytes(x)) && ShrByte(HighBytes(x)) == ShrByte(x);
    ShiftNXor(LowByte(x), HighBytes(x), 8);
    ShiftHigh(HighBytes(x));
  }

  // ---- one byte through the table is eight bits through the register ----

  lemma WideHalf(d: bv8)
    ensures Half(WideBits(d)) == WideBits(d >> 1) && (Odd(WideBits(d)) <==> d & 1 == 1)
  {
  }

  lemma BitIntoBits(c: bv32, d: bv8)
    ensures XorBits(BitStepBits(c, d & 1 == 1), WideBits(d >> 1)) == ShiftBits(XorBits(c, WideBits(d)))
  {
    hide XorBits, Half, Odd, WideBits;
    var w := WideBits(d);
    WideHalf(d);
    HalfXor(c, w);
    OddXor(c, w);
    XorLaws(POLY, Half(c), Half(w));
  }

  lemma BitInto(c: Word, d: bv8)
    ensures Xor(BitStep(c, d & 1 == 1), OfByte(d >> 1)) == Shift(Xor(c, OfByte(d)))
  {
    BitIntoBits(c.bits, d);
    hide XorBits, BitStepBits, WideBits, ShiftBits;
  }

  lemma DropBit(b: bv8, n: nat)
    requires n < 8
    ensures (b >> n) >> 1 == b >> (n + 1)
  {
  }

  // Feeding n bits serially equals mixing the byte in first and shifting n times.
  lemma {:induction false} SerialIsShift(c: Word, b: bv8, n: nat)
    requires n <= 8
    ensures Xor(ByteSerial(c, b, n), OfByte(b >> n)) == ShiftN(Xor(c, OfByte(b)), n)
  {
    if n == 0 {
      assert b >> 0 == b;
    } else {
      SerialIsShift(c, b, n - 1);
      DropBit(b, n - 1);
      BitInto(ByteSerial(c, b, n - 1), b >> (n - 1));
      hide Shift, BitStep, Xor, OfByte;
    }
  }

  lemma ByteGoneBits(c: bv32, d: bv32, b: bv8)
    ensures XorBits(d, WideBits(b >> 8)) == d
    ensures ShrBits(XorBits(c, WideBits(b))) == ShrBits(c)
  {
  }

  lemma ByteStep(c: Word, b: bv8)
    ensures ByteSerial(c, b, 8) == Xor(ShiftN(LowByte(Xor(c, OfByte(b))), 8), ShrByte(c))
  {
    hide ShiftN, ByteSerial, XorBits, ShrBits, WideBits, LowBits;
    SerialIsShift(c, b, 8);
    ByteGoneBits(c.bits, ByteSerial(c, b, 8).bits, b);
    ShiftEight(Xor(c, OfByte(b)));
  }

  function IndexOf(c: bv32, b: bv8): int {
    (LowBits(XorBits(c, WideBits(b)))) as int
  }

  lemma LowIndex(x: bv32)
    ensures (LowBits(x) as int) < 256 && (LowBits(x) as int) as bv32 == LowBits(x)
  {
  }

  lemma TableStep(t: seq<bv32>, c: bv32, b: bv8)
    requires IsTable(t)
    ensures 0 <= IndexOf(c, b) < 256 && Word(XorBits(t[IndexOf(c, b)], ShrBits(c))) == ByteSerial(Word(c), b, 8)
  {
    var n := IndexOf(c, b);
    hide ShiftN, ByteSerial, XorBits, ShrBits, WideBits, LowBits;
    LowIndex(XorBits(c, WideBits(b)));
    assert EntryOk(t, n);
    ByteStep(Word(c), b);
  }

  method Crc32Of(table: array<bv32>, bytes: seq<bv8>) returns (r: bv32)
    requires IsTable(table[..])
    ensures r == Crc(bytes)
  {
    var c := ALL_ONES;
    for i := 0 to |bytes|
      invariant Word(c) == Register(Word(ALL_ONES), bytes[..i])
    {
      assert bytes[..i + 1][..i] == bytes[..i];
      TableStep(table[..], c, bytes[i]);
      hide ByteSerial, IsTable, XorBits, ShrBits, WideBits, LowBits;
      c := XorBits(table[IndexOf(c, bytes[i])], ShrBits(c));
    }
    assert bytes[..|bytes|] == bytes;
    r := c ^ ALL_ONES;
  }

  // ---- a value to check against ----

  // The register after one more byte, bit by bit.
  function EightBits(c: bv32, b: bv8): bv32 {
    var c1 := BitStepBits(c, BitOf(b, 0));
    var c2 := BitStepBits(c1, BitOf(b, 1));
    var c3 := BitStepBits(c2, BitOf(b, 2));
    var c4 := BitStepBits(c3, BitOf(b, 3));
    var c5 := BitStepBits(c4, BitOf(b, 4));
    var c6 := BitStepBits(c5, BitOf(b, 5));
    var c7 := BitStepBits(c6, BitOf(b, 6));
    BitStepBits(c7, BitOf(b, 7))
  }

  lemma OneBit(c: Word, b: bv8, n: nat)
    requires n < 8
    ensures ByteSerial(c, b, 0) == c && ByteSerial(c, b, n + 1) == BitStep(ByteSerial(c, b, n), BitOf(b, n))
  {
  }

  lemma SerialIsEight(c: Word, b: bv8)
    ensures ByteSerial(c, b, 8) == Word(EightBits(c.bits, b))
  {
    hide ByteSerial, BitStepBits, BitOf;
    OneBit(c, b, 0);
    OneBit(c, b, 1);
    OneBit(c, b, 2);
    OneBit(c, b, 3);
    OneBit(c, b, 4);
    OneBit(c, b, 5);
    OneBit(c, b, 6);
    OneBit(c, b, 7);
  }

  lemma RegisterPush(c: Word, bytes: seq<bv8>, b: bv8)
    ensures Register(c, bytes + [b]) == ByteSerial(Register(c, bytes), b, 8)
  {
    assert (bytes + [b])[..|bytes|] == bytes;
    hide ByteSerial;
  }

  lemma IendBits()
    ensures EightBits(0xFFFFFFFF, 0x49) == 0x22FDE946 && EightBits(0x22FDE946, 0x45) == 0x992BAC53
    ensures EightBits(0x992BAC53, 0x4E) == 0x639F4775 && EightBits(0x639F4775, 0x44) == 0x51BD9F7D
  {
  }

  // The check value every PNG file ends with: the CRC of the empty chunk "IEND".
  lemma IendCrc()
    ensures Crc([0x49, 0x45, 0x4E, 0x44]) == 0xAE426082
  {
    hide ByteSerial, EightBits, Register;
    var a, b, c, d: bv8 := 0x49, 0x45, 0x4E, 0x44;
    RegisterNone(Word(ALL_ONES));
    RegisterPush(Word(ALL_ONES), [], a);
    RegisterPush(Word(ALL_ONES), [] + [a], b);
    RegisterPush(Word(ALL_ONES), [] + [a] + [b], c);
    RegisterPush(Word(ALL_ONES), [] + [a] + [b] + [c], d);
    SerialIsEight(Word(ALL_ONES), a);
    SerialIsEight(Word(0x22FDE946), b);
    SerialIsEight(Word(0x992BAC53), c);
    SerialIsEight(Word(0x639F4775), d);
    IendBits();
    assert [] + [a] + [b] + [c] + [d] == [a, b, c, d];
  }

  lemma RegisterNone(c: Word)
    ensures Register(c, []) == c
  {
  }
}
