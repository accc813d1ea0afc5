/** The AVC parameter packet: the builder of src/apple/bridge_utility.mm and the parser of src/mediautils.cc, for the
    configuration record of section 5.2.4.1 of ISO/IEC 14496-15:2004. */
module AvcConfig {
  import opened Bytes

  const AVC := 7
  const KEY_FRAME_AVC: byte := 0x17
  const NALU_HEADER: seq<byte> := [0x00, 0x00, 0x00, 0x01]

  datatype Descriptor = Descriptor(sps: seq<byte>, pps: seq<byte>, nalUnitSize: nat)

  const EMPTY := Descriptor([], [], 0)

  // ----- the packet

  /** The part before the SPS: flag byte, packet type, composition time, profile bytes, NAL length size, SPS count. */
  function Preamble(sps: seq<byte>, nl: int): (s: seq<byte>)
    requires |sps| >= 4
    ensures |s| == 11
  {
    [KEY_FRAME_AVC, 0, 0, 0, 0, 1, sps[1], sps[2], sps[3], 0xFC + (nl - 1) % 4, 0xE1]
  }

  /** A parameter set behind its 16-bit length; a longer one keeps only the low bits of its length. */
  function Sized(s: seq<byte>): seq<byte> {
    ToBigEndian16(|s| % 0x1_0000) + s
  }

  function Packet(sps: seq<byte>, pps: seq<byte>, nl: int): seq<byte>
    requires |sps| >= 4
  {
    Preamble(sps, nl) + (Sized(sps) + ([1] + Sized(pps)))
  }

  /** `buildParametersVideoPacketWithSPS`; the profile bytes are read from the SPS without a check. */
  method BuildParametersVideoPacket(sps: seq<byte>, pps: seq<byte>, nl: int) returns (data: seq<byte>)
    requires |sps| >= 4
    ensures data == Packet(sps, pps, nl)
  {
    var nalSizeLen: byte := 0xFC + (nl - 1) % 4;
    var spsCount: byte := 0xE0 + 1;
    data := [KEY_FRAME_AVC, 0];
    data := data + ToBigEndian24(0);
    data := data + [1];
    data := data + [sps[1], sps[2], sps[3]];
    data := data + [nalSizeLen];
    data := data + [spsCount];
    assert data == Preamble(sps, nl);
    data := data + ToBigEndian16(|sps| % 0x1_0000);
    data := data + sps;
    data := data + [1];
    data := data + ToBigEndian16(|pps| % 0x1_0000);
    data := data + pps;
    assert data == Packet(sps, pps, nl);
  }

  // ----- parsing

  /** A read past the end of the data, or a descriptor with the cursor and the timestamp after it. */
  datatype Unpacked = Overrun | Unpacked(descriptor: Descriptor, next: nat, timestamp: u32)

  datatype SetRead = SetOverrun | SetRead(bytes: seq<byte>, next: nat)

  function ReadSized(data: seq<byte>, pos: nat): SetRead {
    if pos + 2 > |data| then SetOverrun else
    var size := FromBigEndian16(data[pos..pos + 2]);
    if pos + 2 + size > |data| then SetOverrun else
    SetRead(data[pos + 2..pos + 2 + size], pos + 2 + size)
  }

  function Prefixed(s: seq<byte>, appendNaluHeader: bool): seq<byte> {
    if appendNaluHeader then NALU_HEADER + s else s
  }

  /** The configuration record from `pos` on. */
  function UnpackRecord(data: seq<byte>, pos: nat, timestamp: u32, appendNaluHeader: bool): Unpacked {
    if pos + 5 > |data| then Overrun else
    var nalUnitSize := data[pos + 4] % 4 + 1;
    if nalUnitSize != 4 then Unpacked(EMPTY, pos + 5, timestamp) else
    if pos + 6 > |data| then Overrun else
    if data[pos + 5] % 32 != 1 then Unpacked(EMPTY, pos + 6, timestamp) else
    var sps := ReadSized(data, pos + 6);
    if sps.SetOverrun? || sps.next >= |data| then Overrun else
    if data[sps.next] != 1 then Unpacked(EMPTY, sps.next + 1, timestamp) else
    var pps := ReadSized(data, sps.next + 1);
    if pps.SetOverrun? then Overrun else
    Unpacked(Descriptor(Prefixed(sps.bytes, appendNaluHeader), Prefixed(pps.bytes, appendNaluHeader), nalUnitSize),
             pps.next, timestamp)
  }

  function Unpack(data: seq<byte>, pos: nat, timestamp: u32, appendNaluHeader: bool): Unpacked {
    if pos >= |data| then Overrun else
    if data[pos] % 16 != AVC then Unpacked(EMPTY, pos + 1, timestamp) else
    if pos + 2 > |data| then Overrun else
    if data[pos + 1] > 2 then Unpacked(EMPTY, pos + 2, timestamp) else
    if pos + 5 > |data| then Overrun else
    var later := (timestamp + FromBigEndian24(data[pos + 2..pos + 5])) % 0x1_0000_0000;
    if data[pos + 1] != 0 then Unpacked(EMPTY, pos + 5, later) else
    UnpackRecord(data, pos + 5, later, appendNaluHeader)
  }

  /** The cursor and the timestamp that `unpackVideoData` takes by reference. */
  class Cursor {
    const data: seq<byte>
    var iter: nat
    var timestamp: u32

    constructor (data: seq<byte>, timestamp: u32)
      ensures this.data == data && iter == 0 && this.timestamp == timestamp
    {
      this.data, this.iter, this.timestamp := data, 0, timestamp;
    }

    method ReadParameterSet(appendNaluHeader: bool) returns (s: seq<byte>)
      requires ReadSized(data, iter).SetRead?
      modifies this`iter
      ensures var r := ReadSized(data, old(iter)); s == Prefixed(r.bytes, appendNaluHeader) && iter == r.next
    {
      var size := FromBigEndian16(data[iter..iter + 2]);
      iter := iter + 2;
      s := [];
      if appendNaluHeader {
        s := s + NALU_HEADER;
      }
      s := s + data[iter..iter + size];
      iter := iter + size;
    }

    method UnpackVideoData(appendNaluHeader: bool) returns (descriptor: Descriptor)
      requires !Unpack(data, iter, timestamp, appendNaluHeader).Overrun?
      modifies this
      ensures Unpack(data, old(iter), old(timestamp), appendNaluHeader) == Unpacked(descriptor, iter, timestamp)
    {
      hide Prefixed, FromBigEndian24, FromBigEndian16;
      descriptor := EMPTY;
      var codec := data[iter] % 16;
      iter := iter + 1;
      if codec != AVC {
        return;
      }
      var config := data[iter];
      iter := iter + 1;
      if config != 0 && config != 1 && config != 2 {
        return;
      }
      var delay := FromBigEndian24(data[iter..iter + 3]);
      timestamp := (timestamp + delay) % 0x1_0000_0000;
      iter := iter + 3;
      if config == 0 {
        iter := iter + 4;
        var nalUnitSize := data[iter] % 4 + 1;
        iter := iter + 1;
        if nalUnitSize != 4 {
          return;
        }
        var spsCount := data[iter] % 32;
        iter := iter + 1;
        if spsCount != 1 {
          return;
        }
        var sps := ReadParameterSet(appendNaluHeader);
        var ppsCount := data[iter];
        iter := iter + 1;
        if ppsCount != 1 {
          return;
        }
        var pps := ReadParameterSet(appendNaluHeader);
        descriptor := Descriptor(sps, pps, nalUnitSize);
      }
    }
  }

  // ----- the round trip

  /** A parameter set is read back exactly when its length fits in 16 bits. */
  lemma SizedRoundTrip(data: seq<byte>, pos: nat, s: seq<byte>)
    requires At(data, pos, Sized(s))
    ensures var r := ReadSized(data, pos);
            && r.SetRead? && |r.bytes| == |s| % 0x1_0000 && r.next == pos + 2 + |s| % 0x1_0000
            && (r.bytes == s <==> |s| < 0x1_0000)
  {
    hide FromBigEndian16, ToBigEndian16;
    var size := |s| % 0x1_0000;
    EndianRoundTrips(size);
    AtSplit(data, pos, ToBigEndian16(size), s);
    assert data[pos..pos + 2] == ToBigEndian16(size);
    if |s| >= 0x1_0000 {
      assert |ReadSized(data, pos).bytes| == size < |s|;
    }
  }

  lemma PreambleAt(data: seq<byte>, pos: nat, sps: seq<byte>, nl: int)
    requires |sps| >= 4 && At(data, pos, Preamble(sps, nl))
    ensures data[pos] == KEY_FRAME_AVC && data[pos + 1] == 0 && FromBigEndian24(data[pos + 2..pos + 5]) == 0
    ensures data[pos + 9] == 0xFC + (nl - 1) % 4 && data[pos + 10] == 0xE1
  {
    var p := data[pos..pos + 11];
    assert data[pos] == p[0] && data[pos + 1] == p[1] && data[pos + 2] == p[2];
    assert data[pos + 3] == p[3] && data[pos + 4] == p[4] && data[pos + 9] == p[9] && data[pos + 10] == p[10];
  }

  /** What parsing a built packet comes down to once the fixed part is passed. */
  lemma PacketUnpacks(data: seq<byte>, pos: nat, sps: seq<byte>, pps: seq<byte>, nl: int, timestamp: u32, prefix: bool)
    requires |sps| >= 4 && At(data, pos, Packet(sps, pps, nl))
    ensures At(data, pos + 11, Sized(sps)) && At(data, pos + 13 + |sps|, [1]) && At(data, pos + 14 + |sps|, Sized(pps))
    ensures Unpack(data, pos, timestamp, prefix) == UnpackRecord(data, pos + 5, timestamp, prefix)
    ensures data[pos + 9] % 4 == (nl - 1) % 4 && data[pos + 10] % 32 == 1
  {
    hide UnpackRecord, Preamble, FromBigEndian24;
    AtSplit(data, pos, Preamble(sps, nl), Sized(sps) + ([1] + Sized(pps)));
    AtSplit(data, pos + 11, Sized(sps), [1] + Sized(pps));
    AtSplit(data, pos + 13 + |sps|, [1], Sized(pps));
    PreambleAt(data, pos, sps, nl);
  }

  /** A built packet is unpacked into its two parameter sets, byte for byte and behind a start code when asked,
      with the timestamp unchanged and the cursor just past the packet, exactly when the NAL length size is 4
      (modulo 4, which is all that is stored) and both lengths fit in 16 bits. */
  lemma PacketRoundTrip(data: seq<byte>, pos: nat, sps: seq<byte>, pps: seq<byte>, nl: int, timestamp: u32,
                        prefix: bool)
    requires |sps| >= 4 && At(data, pos, Packet(sps, pps, nl))
    ensures Unpack(data, pos, timestamp, prefix)
            == Unpacked(Descriptor(Prefixed(sps, prefix), Prefixed(pps, prefix), 4),
                        pos + |Packet(sps, pps, nl)|, timestamp)
            <==> nl % 4 == 0 && |sps| < 0x1_0000 && |pps| < 0x1_0000
  {
    hide Unpack, At, ReadSized;
    PacketUnpacks(data, pos, sps, pps, nl, timestamp, prefix);
    SizedRoundTrip(data, pos + 11, sps);
    SizedRoundTrip(data, pos + 14 + |sps|, pps);
    AtByte(data, pos + 13 + |sps|, 1);
    var r := Unpack(data, pos, timestamp, prefix);
    if nl % 4 == 0 && r.Unpacked? && r.descriptor.nalUnitSize == 4 {
      assert r.descriptor.sps == Prefixed(ReadSized(data, pos + 11).bytes, prefix);
    }
  }

  // ----- the bytes themselves

  /** The builder's packet, byte for byte. */
  lemma PacketOnTheWire(sps: seq<byte>, pps: seq<byte>, nl: int)
    requires 4 <= |sps| < 0x1_0000 && |pps| < 0x1_0000 && 1 <= nl <= 4
    ensures var s := Packet(sps, pps, nl);
            && |s| == 16 + |sps| + |pps| && s[..6] == [0x17, 0x00, 0x00, 0x00, 0x00, 0x01]
            && s[6..9] == sps[1..4] && s[9] == 0xFC + nl - 1 && s[10] == 0xE1
            && Spelled(s[11..13]) == |sps| && s[13..13 + |sps|] == sps && s[13 + |sps|] == 0x01
            && Spelled(s[14 + |sps|..16 + |sps|]) == |pps| && s[16 + |sps|..] == pps
  {
    hide Spelled, ToBigEndian16;
    var s, n := Packet(sps, pps, nl), |sps|;
    BigEndianSpells(|sps|);
    BigEndianSpells(|pps|);
    assert s[..6] == [0x17, 0x00, 0x00, 0x00, 0x00, 0x01];
    assert s[6..9] == [sps[1], sps[2], sps[3]] == sps[1..4];
    assert s[11..13] == ToBigEndian16(|sps|) && s[13..13 + n] == sps;
    assert s[14 + n..16 + n] == ToBigEndian16(|pps|) && s[16 + n..] == pps;
  }

  /** The start code is put in front only when it is asked for. */
  lemma PrefixIsStartCode(s: seq<byte>)
    ensures Prefixed(s, true) == [0x00, 0x00, 0x00, 0x01] + s && Prefixed(s, false) == s
  {
  }

  /** The timestamp behind the composition time. */
  function Later(data: seq<byte>, pos: nat, timestamp: u32): u32
    requires pos + 5 <= |data|
  {
    (timestamp + Spelled(data[pos + 2..pos + 5])) % 0x1_0000_0000
  }

  /** A packet that is no configuration, but a frame or an end of sequence: nothing is unpacked and its composition time
      is added to the timestamp. */
  lemma CompositionTimeIsAdded(data: seq<byte>, pos: nat, timestamp: u32, prefix: bool)
    requires pos + 5 <= |data| && data[pos] % 16 == 7 && (data[pos + 1] == 1 || data[pos + 1] == 2)
    ensures Unpack(data, pos, timestamp, prefix)
            == Unpacked(Descriptor([], [], 0), pos + 5, Later(data, pos, timestamp))
  {
    hide Spelled;
    BigEndianReads(data[pos + 2..pos + 5]);
  }

  /** A configuration record with one SPS and one PPS: which bytes are taken. */
  lemma RecordIsUnpacked(data: seq<byte>, pos: nat, timestamp: u32, n: nat, m: nat)
    requires pos + 16 + n + m <= |data| && n == Spelled(data[pos + 11..pos + 13])
    requires m == Spelled(data[pos + 14 + n..pos + 16 + n])
    requires data[pos] % 16 == 7 && data[pos + 1] == 0 && data[pos + 9] % 4 == 3 && data[pos + 10] % 32 == 1
    requires data[pos + 13 + n] == 1
    ensures Unpack(data, pos, timestamp, false)
            == Unpacked(Descriptor(data[pos + 13..pos + 13 + n], data[pos + 16 + n..pos + 16 + n + m], 4),
                        pos + 16 + n + m, Later(data, pos, timestamp))
  {
    hide Spelled, FromBigEndian16, FromBigEndian24;
    BigEndianReads(data[pos + 2..pos + 5]);
    BigEndianReads(data[pos + 11..pos + 13]);
    BigEndianReads(data[pos + 14 + n..pos + 16 + n]);
  }

  /** Everything else: a check that fails leaves the descriptor empty and stops right behind the byte it looked at. */
  lemma OthersAreNotUnpacked(data: seq<byte>, pos: nat, timestamp: u32, prefix: bool)
    requires pos + 16 <= |data|
    ensures var u, empty := Unpack(data, pos, timestamp, prefix), Descriptor([], [], 0);
            var n := Spelled(data[pos + 11..pos + 13]);
            && (data[pos] % 16 != 7 ==> u == Unpacked(empty, pos + 1, timestamp))
            && (data[pos] % 16 == 7 && data[pos + 1] > 2 ==> u == Unpacked(empty, pos + 2, timestamp))
            && (data[pos] % 16 == 7 && data[pos + 1] == 0 ==>
                  && (data[pos + 9] % 4 != 3 ==> u == Unpacked(empty, pos + 10, Later(data, pos, timestamp)))
                  && (data[pos + 9] % 4 == 3 && data[pos + 10] % 32 != 1 ==>
                        u == Unpacked(empty, pos + 11, Later(data, pos, timestamp)))
                  && (data[pos + 9] % 4 == 3 && data[pos + 10] % 32 == 1
                      && pos + 13 + n < |data| && data[pos + 13 + n] != 1 ==>
                        u == Unpacked(empty, pos + 14 + n, Later(data, pos, timestamp))))
  {
    hide Spelled, FromBigEndian16, FromBigEndian24;
    BigEndianReads(data[pos + 2..pos + 5]);
    BigEndianReads(data[pos + 11..pos + 13]);
  }
}
