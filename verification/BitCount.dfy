/** The multiply-and-shift bit count of private/utils.h and the extended-timestamp test built on it. */
module BitCount {
  import opened Bytes

  // ----- the fast count, in the word arithmetic the source uses

  /** The three rounds of parallel sums. */
  function Rounds(word: bv32): bv32 {
    var i := word - ((word >> 1) & 0x5555_5555);
    var i := (i & 0x3333_3333) + ((i >> 2) & 0x3333_3333);
    (i + (i >> 4)) & 0x0F0F_0F0F
  }

  function NumberOfSetBits(word: bv32): bv32 {
    (Rounds(word) * 0x0101_0101) >> 24
  }

  /** The set bits among the eight lowest ones, added one at a time. */
  function LowByteCount(x: bv32): bv32 {
    (x & 1) + ((x >> 1) & 1) + ((x >> 2) & 1) + ((x >> 3) & 1)
    + ((x >> 4) & 1) + ((x >> 5) & 1) + ((x >> 6) & 1) + ((x >> 7) & 1)
  }

  /** All 32 bits added one at a time. */
  function PlainCount(x: bv32): bv32 {
    LowByteCount(x) + LowByteCount(x >> 8) + LowByteCount(x >> 16) + LowByteCount(x >> 24)
  }

  lemma RoundsCountByte0(x: bv32)
    ensures Rounds(x) & 0xFF == LowByteCount(x) <= 8
  {
  }

  lemma RoundsCountByte1(x: bv32)
    ensures (Rounds(x) >> 8) & 0xFF == LowByteCount(x >> 8) <= 8
  {
  }

  lemma RoundsCountByte2(x: bv32)
    ensures (Rounds(x) >> 16) & 0xFF == LowByteCount(x >> 16) <= 8
  {
  }

  lemma RoundsCountByte3(x: bv32)
    ensures (Rounds(x) >> 24) & 0xFF == LowByteCount(x >> 24) <= 8
  {
  }

  /** The multiplication gathers four small byte sums in the top byte. */
  lemma MultiplyGathers(z: bv32, a: bv32, b: bv32, c: bv32, d: bv32)
    requires z & 0xFF == a <= 8 && (z >> 8) & 0xFF == b <= 8
    requires (z >> 16) & 0xFF == c <= 8 && (z >> 24) & 0xFF == d <= 8
    ensures (z * 0x0101_0101) >> 24 == a + b + c + d
  {
  }

  /** The fast count is the plain count, for every 32-bit word. */
  lemma FastCountIsPlainCount(x: bv32)
    ensures NumberOfSetBits(x) == PlainCount(x)
  {
    hide Rounds, LowByteCount;
    RoundsCountByte0(x);
    RoundsCountByte1(x);
    RoundsCountByte2(x);
    RoundsCountByte3(x);
    MultiplyGathers(Rounds(x), LowByteCount(x), LowByteCount(x >> 8), LowByteCount(x >> 16), LowByteCount(x >> 24));
  }

  lemma FullByte(x: bv32)
    ensures LowByteCount(x) <= 8
    ensures LowByteCount(x) == 8 <==> x & 0xFF == 0xFF
    ensures x == 0 ==> LowByteCount(x) == 0
  {
  }

  lemma ThreeFullBytes(a: bv32, b: bv32, c: bv32)
    requires a <= 8 && b <= 8 && c <= 8
    ensures a + b + c + 0 >= 24 <==> a == 8 && b == 8 && c == 8
  {
  }

  /** On a 24-bit timestamp field the fast test holds only for the all-ones sentinel. */
  lemma FastTestFindsSentinel(t: bv32)
    requires t <= 0xFF_FFFF
    ensures NumberOfSetBits(t) >= 24 <==> t == 0xFF_FFFF
  {
    hide LowByteCount, NumberOfSetBits;
    FastCountIsPlainCount(t);
    assert t >> 24 == 0;
    FullByte(t);
    FullByte(t >> 8);
    FullByte(t >> 16);
    FullByte(0);
    ThreeFullBytes(LowByteCount(t), LowByteCount(t >> 8), LowByteCount(t >> 16));
  }

  // ----- the test on the integers that message headers hold

  function Assemble(b7: bool, b6: bool, b5: bool, b4: bool, b3: bool, b2: bool, b1: bool, b0: bool): bv32 {
    (if b7 then 0x80 else 0) | (if b6 then 0x40 else 0) | (if b5 then 0x20 else 0) | (if b4 then 0x10 else 0)
    | (if b3 then 8 else 0) | (if b2 then 4 else 0) | (if b1 then 2 else 0) | (if b0 then 1 else 0)
  }

  /** The word with the binary digits of a byte. */
  function ByteWord(b: byte): bv32 {
    Assemble(b / 0x80 == 1, b / 0x40 % 2 == 1, b / 0x20 % 2 == 1, b / 0x10 % 2 == 1,
             b / 8 % 2 == 1, b / 4 % 2 == 1, b / 2 % 2 == 1, b % 2 == 1)
  }

  /** The machine word that holds `t`. */
  function Word(t: u32): bv32 {
    (ByteWord(t / 0x100_0000) << 24) | (ByteWord(t / 0x1_0000 % 0x100) << 16)
    | (ByteWord(t / 0x100 % 0x100) << 8) | ByteWord(t % 0x100)
  }

  /** `hasExtendedTimestamp`: the fast count finds at least 24 set bits. */
  predicate HasExtendedTimestamp(t: u32) {
    NumberOfSetBits(Word(t)) >= 24
  }

  lemma AssembleExtremes(b7: bool, b6: bool, b5: bool, b4: bool, b3: bool, b2: bool, b1: bool, b0: bool)
    ensures Assemble(b7, b6, b5, b4, b3, b2, b1, b0) <= 0xFF
    ensures Assemble(b7, b6, b5, b4, b3, b2, b1, b0) == 0xFF <==> b7 && b6 && b5 && b4 && b3 && b2 && b1 && b0
    ensures Assemble(b7, b6, b5, b4, b3, b2, b1, b0) == 0
            <==> !b7 && !b6 && !b5 && !b4 && !b3 && !b2 && !b1 && !b0
  {
  }

  lemma ByteWordExtremes(b: byte)
    ensures ByteWord(b) <= 0xFF
    ensures ByteWord(b) == 0xFF <==> b == 0xFF
    ensures ByteWord(b) == 0 <==> b == 0
  {
    hide Assemble;
    AssembleExtremes(b / 0x80 == 1, b / 0x40 % 2 == 1, b / 0x20 % 2 == 1, b / 0x10 % 2 == 1,
                     b / 8 % 2 == 1, b / 4 % 2 == 1, b / 2 % 2 == 1, b % 2 == 1);
  }

  lemma JoinBytes(a: bv32, b: bv32, c: bv32)
    requires a <= 0xFF && b <= 0xFF && c <= 0xFF
    ensures (0 << 24) | (a << 16) | (b << 8) | c <= 0xFF_FFFF
    ensures (0 << 24) | (a << 16) | (b << 8) | c == 0xFF_FFFF <==> a == 0xFF && b == 0xFF && c == 0xFF
  {
  }

  lemma WordExtremes(t: u24)
    ensures Word(t) <= 0xFF_FFFF
    ensures Word(t) == 0xFF_FFFF <==> t == MAX24
  {
    hide ByteWord;
    var a, b, c: byte := t / 0x1_0000, t / 0x100 % 0x100, t % 0x100;
    assert t == 0x1_0000 * a + 0x100 * b + c;
    ByteWordExtremes(a);
    ByteWordExtremes(b);
    ByteWordExtremes(c);
    ByteWordExtremes(0);
    JoinBytes(ByteWord(a), ByteWord(b), ByteWord(c));
  }

  /** A 24-bit timestamp field announces an extended timestamp exactly when all its bits are set. */
  lemma SentinelIsAllOnes(t: u24)
    ensures HasExtendedTimestamp(t) <==> t == MAX24
  {
    hide NumberOfSetBits, Word;
    WordExtremes(t);
    FastTestFindsSentinel(Word(t));
  }
}
