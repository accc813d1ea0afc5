/** Bytes, fixed-width integers and the endian conversions of private/utils.h. */
module Bytes {

  type byte = x: int | 0 <= x < 0x100
  type u16 = x: int | 0 <= x < 0x1_0000
  type u24 = x: int | 0 <= x < 0x100_0000
  type u32 = x: int | 0 <= x < 0x1_0000_0000

  const MAX24: u24 := 0xFF_FFFF

  // ----- conversions (a wider value loses its high bits, as the casts in the source do)

  function ToBigEndian16(d: u32): (s: seq<byte>)
    ensures |s| == 2
  {
    [d / 0x100 % 0x100, d % 0x100]
  }

  function ToBigEndian24(d: u32): (s: seq<byte>)
    ensures |s| == 3
  {
    [d / 0x1_0000 % 0x100, d / 0x100 % 0x100, d % 0x100]
  }

  function ToBigEndian32(d: u32): (s: seq<byte>)
    ensures |s| == 4
  {
    [d / 0x100_0000 % 0x100, d / 0x1_0000 % 0x100, d / 0x100 % 0x100, d % 0x100]
  }

  function ToLittleEndian16(d: u32): (s: seq<byte>)
    ensures |s| == 2
  {
    [d % 0x100, d / 0x100 % 0x100]
  }

  function ToLittleEndian24(d: u32): (s: seq<byte>)
    ensures |s| == 3
  {
    [d % 0x100, d / 0x100 % 0x100, d / 0x1_0000 % 0x100]
  }

  function ToLittleEndian32(d: u32): (s: seq<byte>)
    ensures |s| == 4
  {
    [d % 0x100, d / 0x100 % 0x100, d / 0x1_0000 % 0x100, d / 0x100_0000 % 0x100]
  }

  function FromBigEndian16(s: seq<byte>): (d: u16)
    requires |s| == 2
  {
    0x100 * (s[0] as int) + s[1]
  }

  function FromBigEndian24(s: seq<byte>): (d: u24)
    requires |s| == 3
  {
    0x1_0000 * (s[0] as int) + 0x100 * (s[1] as int) + s[2]
  }

  function FromBigEndian32(s: seq<byte>): (d: u32)
    requires |s| == 4
  {
    0x100_0000 * (s[0] as int) + 0x1_0000 * (s[1] as int) + 0x100 * (s[2] as int) + s[3]
  }

  function FromLittleEndian16(s: seq<byte>): (d: u16)
    requires |s| == 2
  {
    s[0] as int + 0x100 * (s[1] as int)
  }

  function FromLittleEndian24(s: seq<byte>): (d: u24)
    requires |s| == 3
  {
    s[0] as int + 0x100 * (s[1] as int) + 0x1_0000 * (s[2] as int)
  }

  function FromLittleEndian32(s: seq<byte>): (d: u32)
    requires |s| == 4
  {
    s[0] as int + 0x100 * (s[1] as int) + 0x1_0000 * (s[2] as int) + 0x100_0000 * (s[3] as int)
  }

  /** Encoding and decoding compose to truncation, so they round-trip exactly on values that fit. */
  lemma EndianRoundTrips(d: u32)
    ensures FromBigEndian16(ToBigEndian16(d)) == d % 0x1_0000
    ensures FromBigEndian24(ToBigEndian24(d)) == d % 0x100_0000
    ensures FromBigEndian32(ToBigEndian32(d)) == d
    ensures FromLittleEndian16(ToLittleEndian16(d)) == d % 0x1_0000
    ensures FromLittleEndian24(ToLittleEndian24(d)) == d % 0x100_0000
    ensures FromLittleEndian32(ToLittleEndian32(d)) == d
  {
    var q1, q2, q3: int := d / 0x100, d / 0x1_0000, d / 0x100_0000;
    assert q2 == q1 / 0x100 && q3 == q2 / 0x100 && q3 % 0x100 == q3;
  }

  // ----- what the encodings mean

  /** The number that bytes spell, the most significant one first. */
  function Spelled(s: seq<byte>): nat {
    if s == [] then 0 else 0x100 * Spelled(s[..|s| - 1]) + s[|s| - 1]
  }

  function Backwards(s: seq<byte>): (r: seq<byte>)
    ensures |r| == |s|
  {
    seq(|s|, i requires 0 <= i < |s| => s[|s| - 1 - i])
  }

  lemma BackwardsTwice(s: seq<byte>)
    ensures Backwards(Backwards(s)) == s
  {
  }

  lemma SpelledBy2(s: seq<byte>)
    requires |s| == 2
    ensures Spelled(s) == 0x100 * (s[0] as int) + s[1]
  {
    assert s[..1][..0] == [] && s[..1][0] == s[0];
    assert Spelled(s[..1]) == s[0];
  }

  lemma SpelledBy3(s: seq<byte>)
    requires |s| == 3
    ensures Spelled(s) == 0x1_0000 * (s[0] as int) + 0x100 * (s[1] as int) + s[2]
  {
    SpelledBy2(s[..2]);
  }

  lemma SpelledBy4(s: seq<byte>)
    requires |s| == 4
    ensures Spelled(s) == 0x100_0000 * (s[0] as int) + 0x1_0000 * (s[1] as int) + 0x100 * (s[2] as int) + s[3]
  {
    SpelledBy3(s[..3]);
  }

  /** The big-endian encodings spell the number, cut to the width of the field. */
  lemma BigEndianSpells(d: u32)
    ensures Spelled(ToBigEndian16(d)) == d % 0x1_0000
    ensures Spelled(ToBigEndian24(d)) == d % 0x100_0000
    ensures Spelled(ToBigEndian32(d)) == d
  {
    hide Spelled;
    SpelledBy2(ToBigEndian16(d));
    SpelledBy3(ToBigEndian24(d));
    SpelledBy4(ToBigEndian32(d));
    EndianRoundTrips(d);
  }

  /** The big-endian decodings give the number that is spelled. */
  lemma BigEndianReads(s: seq<byte>)
    ensures |s| == 2 ==> FromBigEndian16(s) == Spelled(s)
    ensures |s| == 3 ==> FromBigEndian24(s) == Spelled(s)
    ensures |s| == 4 ==> FromBigEndian32(s) == Spelled(s)
  {
    hide Spelled;
    if |s| == 2 {
      SpelledBy2(s);
    } else if |s| == 3 {
      SpelledBy3(s);
    } else if |s| == 4 {
      SpelledBy4(s);
    }
  }

  /** The little-endian forms are the big-endian ones backwards. */
  lemma LittleEndianIsBackwards(d: u32, s: seq<byte>)
    ensures ToLittleEndian16(d) == Backwards(ToBigEndian16(d))
    ensures ToLittleEndian24(d) == Backwards(ToBigEndian24(d))
    ensures ToLittleEndian32(d) == Backwards(ToBigEndian32(d))
    ensures |s| == 2 ==> FromLittleEndian16(s) == FromBigEndian16(Backwards(s))
    ensures |s| == 3 ==> FromLittleEndian24(s) == FromBigEndian24(Backwards(s))
    ensures |s| == 4 ==> FromLittleEndian32(s) == FromBigEndian32(Backwards(s))
  {
  }

  // ----- a byte string found inside another one

  /** `s` occupies `data[pos..pos + |s|]`. */
  predicate At(data: seq<byte>, pos: nat, s: seq<byte>) {
    pos + |s| <= |data| && data[pos..pos + |s|] == s
  }

  lemma AtSplit(data: seq<byte>, pos: nat, a: seq<byte>, b: seq<byte>)
    ensures At(data, pos, a + b) <==> At(data, pos, a) && At(data, pos + |a|, b)
  {
    if At(data, pos, a + b) {
      var s := data[pos..pos + |a + b|];
      assert s == a + b;
      assert data[pos..pos + |a|] == s[..|a|] == a;
      assert data[pos + |a|..pos + |a| + |b|] == s[|a|..] == b;
    }
    if At(data, pos, a) && At(data, pos + |a|, b) {
      assert data[pos..pos + |a + b|] == data[pos..pos + |a|] + data[pos + |a|..pos + |a| + |b|];
    }
  }

  lemma AtByte(data: seq<byte>, pos: nat, b: byte)
    ensures At(data, pos, [b]) <==> pos < |data| && data[pos] == b
  {
    if pos < |data| {
      assert data[pos..pos + 1] == [data[pos]];
    }
  }

  /** The bytes of a list of byte strings, one after the other. */
  function Concat(ss: seq<seq<byte>>): (s: seq<byte>) {
    if ss == [] then [] else ss[0] + Concat(ss[1..])
  }

  lemma {:induction false} ConcatAppend(xs: seq<seq<byte>>, ys: seq<seq<byte>>)
    ensures Concat(xs + ys) == Concat(xs) + Concat(ys)
  {
    if xs == [] {
      assert xs + ys == ys;
    } else {
      ConcatAppend(xs[1..], ys);
      assert (xs + ys)[1..] == xs[1..] + ys;
      assert Concat(xs + ys) == xs[0] + Concat(xs[1..] + ys);
    }
  }

  lemma ConcatOne(x: seq<byte>)
    ensures Concat([x]) == x
  {
  }
}
