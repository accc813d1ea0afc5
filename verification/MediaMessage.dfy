/** RTMP message headers, audio/video messages and their division into chunks
    (src/rtmp/message/rtmp_media_message.cc, private/rtmp/rtmp_packet_generator.h). */
module MediaMessage {
  import opened Bytes
  import opened BitCount

  datatype Option<+T> = None | Some(value: T)

  /** Chunk header formats 0 to 3 of section 5.3.1.2 of RTMP 1.0. */
  type ChunkType = t: int | 0 <= t < 4

  const AUDIO: byte := 0x08
  const VIDEO: byte := 0x09
  const DATA_AMF0: byte := 0x12

  const CSID_AMF: byte := 0x03
  const CSID_AUDIO: byte := 0x04
  const CSID_VIDEO: byte := 0x05

  datatype Header = Header(chunkType: ChunkType, csid: byte, timestamp: u32, size: u32,
                           msgType: byte, streamId: u32, extended: u32)

  const FRESH := Header(0, CSID_AMF, 0, 0, 0, 0, 0)

  // ----- header bytes

  /** Bitwise OR of two 2-bit numbers. */
  function Or2(a: nat, b: nat): (r: nat)
    requires a < 4 && b < 4
    ensures r < 4
  {
    2 * (if a / 2 == 1 || b / 2 == 1 then 1 else 0) + (if a % 2 == 1 || b % 2 == 1 then 1 else 0)
  }

  /** `type << 6 | chunkStreamId`. */
  function BasicByte(t: ChunkType, csid: byte): byte {
    64 * Or2(t, csid / 64) + csid % 64
  }

  function HeaderBytes(h: Header): seq<byte> {
    [BasicByte(h.chunkType, h.csid)]
    + (if h.chunkType == 3 then [] else ToBigEndian24(h.timestamp))
    + (if h.chunkType >= 2 then [] else ToBigEndian24(h.size) + [h.msgType])
    + (if h.chunkType >= 1 then [] else ToLittleEndian32(h.streamId))
  }

  /** `hSize`: the length the source attributes to the header. */
  function HSize(h: Header): nat {
    hide HasExtendedTimestamp;
    [12, 8, 4, 1][h.chunkType] + if HasExtendedTimestamp(h.timestamp) then 4 else 0
  }

  /** `hSize` is the number of bytes `serialize` writes exactly when no extended timestamp is announced. */
  lemma HSizeIsHeaderLength(h: Header)
    ensures HSize(h) == |HeaderBytes(h)| <==> !HasExtendedTimestamp(h.timestamp)
  {
    assert |HeaderBytes(h)| == [12, 8, 4, 1][h.chunkType];
  }

  /** `deserialize` of a header into a message whose fields are `h0`; None is a read past the end. */
  function ReadHeader(h0: Header, s: seq<byte>): Option<Header> {
    hide HasExtendedTimestamp;
    if |s| < 1 then None else
    var t: ChunkType := s[0] / 64;
    var h1 := h0.(chunkType := t);
    if t == 3 then Some(h1) else
    if |s| < 4 then None else
    var h2 := h1.(timestamp := FromBigEndian24(s[1..4]));
    if t == 2 then Some(h2) else
    if |s| < 8 then None else
    var h3 := h2.(size := FromBigEndian24(s[4..7]), msgType := s[7]);
    if !HasExtendedTimestamp(h3.timestamp) then ReadStreamId(h3, s, 8) else
    if |s| < 12 then None else
    ReadStreamId(h3.(extended := FromLittleEndian32(s[8..12])), s, 12)
  }

  function ReadStreamId(h: Header, s: seq<byte>, pos: nat): Option<Header> {
    if h.chunkType != 0 then Some(h) else
    if |s| < pos + 4 then None else
    Some(h.(streamId := FromLittleEndian32(s[pos..pos + 4])))
  }

  /** The fields of `h0` overwritten by those a header of `h`'s type carries. */
  function Carried(h0: Header, h: Header): Header {
    var h1 := h0.(chunkType := h.chunkType);
    var h2 := if h.chunkType <= 2 then h1.(timestamp := h.timestamp) else h1;
    var h3 := if h.chunkType <= 1 then h2.(size := h.size, msgType := h.msgType) else h2;
    if h.chunkType == 0 then h3.(streamId := h.streamId) else h3
  }

  /** The chunk stream id leaves the two type bits alone. */
  predicate TypeBitsFree(h: Header) {
    Or2(h.chunkType, h.csid / 64) == h.chunkType
  }

  predicate FieldsFit(h: Header) {
    || h.chunkType == 3
    || (h.chunkType == 2 && h.timestamp <= MAX24)
    || (h.chunkType <= 1 && h.timestamp < MAX24 && h.size <= MAX24)
  }

  lemma HeaderFields(h: Header)
    ensures var s := HeaderBytes(h);
            && |s| == [12, 8, 4, 1][h.chunkType] && (s[0] / 64 == h.chunkType <==> TypeBitsFree(h))
            && (h.chunkType <= 2 ==> s[1..4] == ToBigEndian24(h.timestamp))
            && (h.chunkType <= 1 ==> s[4..7] == ToBigEndian24(h.size) && s[7] == h.msgType)
            && (h.chunkType == 0 ==> s[8..12] == ToLittleEndian32(h.streamId))
  {
    hide ToBigEndian24, ToLittleEndian32;
  }

  /** What a written header says, byte for byte. */
  lemma HeaderOnTheWire(h: Header)
    ensures var s := HeaderBytes(h);
            && |s| == [12, 8, 4, 1][h.chunkType]
            && (h.csid < 64 ==> s[0] == 64 * h.chunkType + h.csid)
            && (h.chunkType <= 2 ==> Spelled(s[1..4]) == h.timestamp % 0x100_0000)
            && (h.chunkType <= 1 ==> Spelled(s[4..7]) == h.size % 0x100_0000 && s[7] == h.msgType)
            && (h.chunkType == 0 ==> Spelled(Backwards(s[8..12])) == h.streamId)
  {
    hide HeaderBytes, Spelled, ToBigEndian24, ToLittleEndian32, Backwards;
    HeaderFields(h);
    BasicByteFirst(h);
    BigEndianSpells(h.timestamp);
    BigEndianSpells(h.size);
    BigEndianSpells(h.streamId);
    LittleEndianIsBackwards(h.streamId, []);
    BackwardsTwice(ToBigEndian32(h.streamId));
  }

  lemma BasicByteFirst(h: Header)
    ensures |HeaderBytes(h)| > 0 && (h.csid < 64 ==> HeaderBytes(h)[0] == 64 * h.chunkType + h.csid)
  {
  }

  /** What a header with an extended timestamp is read as. */
  lemma ExtendedHeaderMeans(h0: Header, s: seq<byte>)
    requires |s| == 16 && s[0] / 64 == 0 && s[1..4] == [0xFF, 0xFF, 0xFF]
    ensures var r := ReadHeader(h0, s);
            && r.Some? && r.value.chunkType == 0 && r.value.timestamp == MAX24 && r.value.msgType == s[7]
            && r.value.size == Spelled(s[4..7]) && r.value.extended == Spelled(Backwards(s[8..12]))
            && r.value.streamId == Spelled(Backwards(s[12..16])) && r.value.csid == h0.csid
  {
    hide HasExtendedTimestamp, Spelled, Backwards, FromLittleEndian32, FromBigEndian32;
    SentinelIsAllOnes(MAX24);
    BigEndianReads(s[4..7]);
    LittleEndianIsBackwards(0, s[8..12]);
    LittleEndianIsBackwards(0, s[12..16]);
    BigEndianReads(Backwards(s[8..12]));
    BigEndianReads(Backwards(s[12..16]));
  }

  lemma TypeIsRead(h0: Header, s: seq<byte>)
    ensures ReadHeader(h0, s).Some? ==> |s| > 0 && ReadHeader(h0, s).value.chunkType == s[0] / 64
  {
    hide HasExtendedTimestamp;
  }

  /** For all four formats: reading back a written header recovers every field the format carries
      and leaves the others untouched, exactly when the chunk stream id leaves the type bits alone, the fields fit
      and they announce no extension. */
  lemma HeaderRoundTrip(h0: Header, h: Header)
    ensures ReadHeader(h0, HeaderBytes(h)) == Some(Carried(h0, h)) <==> TypeBitsFree(h) && FieldsFit(h)
  {
    TypeIsRead(h0, HeaderBytes(h));
    hide HasExtendedTimestamp, HeaderBytes, ToBigEndian24, ToLittleEndian32, FromBigEndian24, FromLittleEndian32;
    HeaderFields(h);
    EndianRoundTrips(h.timestamp);
    EndianRoundTrips(h.size);
    EndianRoundTrips(h.streamId);
    if h.chunkType <= 2 {
      SentinelIsAllOnes(h.timestamp % 0x100_0000);
    }
  }

  // ----- cutting a body into pieces

  /** `static_cast<int32_t>`. */
  function CopySize(m: u32): int {
    if m < 0x8000_0000 then m else m - 0x1_0000_0000
  }

  /** The part of the body that stays with the header. */
  function Retained(body: seq<byte>, m: u32): seq<byte> {
    if |body| <= m then body else body[..m]
  }

  function Excess(body: seq<byte>, m: u32): seq<byte> {
    if |body| <= m then [] else body[m..]
  }

  function Pieces(s: seq<byte>, k: int): seq<seq<byte>> {
    if k <= 0 || s == [] then [] else
    if |s| < k then [s] else [s[..k]] + Pieces(s[k..], k)
  }

  /** Pieces of a positive size lose nothing, all but the last are full, and none is empty. */
  lemma {:induction false} PiecesConserve(s: seq<byte>, k: int)
    requires k > 0
    ensures Concat(Pieces(s, k)) == s
    ensures forall i :: 0 <= i < |Pieces(s, k)| - 1 ==> |Pieces(s, k)[i]| == k
    ensures forall i :: 0 <= i < |Pieces(s, k)| ==> 1 <= |Pieces(s, k)[i]| <= k
    ensures s != [] ==> (|Pieces(s, k)| - 1) * k < |s| <= |Pieces(s, k)| * k
    ensures s == [] ==> Pieces(s, k) == []
  {
    if s == [] {
    } else if |s| < k {
      ConcatOne(s);
    } else {
      var rest := Pieces(s[k..], k);
      PiecesConserve(s[k..], k);
      assert Pieces(s, k) == [s[..k]] + rest;
      assert Concat(Pieces(s, k)) == s[..k] + s[k..] by {
        assert ([s[..k]] + rest)[1..] == rest;
      }
      assert (|rest| + 1) * k == |rest| * k + k;
      assert (|rest| + 1 - 1) * k == (|rest| - 1) * k + k;
    }
  }

  function Cut(body: seq<byte>, m: u32): seq<seq<byte>> {
    [Retained(body, m)] + Pieces(Excess(body, m), CopySize(m))
  }

  /** Cutting a body loses nothing exactly when it needs no cut or the chunk size survives the cast. */
  lemma CutConserves(body: seq<byte>, m: u32)
    ensures Concat(Cut(body, m)) == body <==> |body| <= m || 1 <= m < 0x8000_0000
  {
    var ps := Pieces(Excess(body, m), CopySize(m));
    assert Concat(Cut(body, m)) == Retained(body, m) + Concat(ps) by {
      assert ([Retained(body, m)] + ps)[1..] == ps;
    }
    if CopySize(m) > 0 {
      PiecesConserve(Excess(body, m), CopySize(m));
    }
  }

  /** The number of chunks is the body size over the chunk size, rounded up. */
  lemma CutCount(body: seq<byte>, m: u32)
    requires |body| > 0 && 1 <= m < 0x8000_0000
    ensures (|Cut(body, m)| - 1) * m < |body| <= |Cut(body, m)| * m
    ensures forall i :: 0 <= i < |Cut(body, m)| - 1 ==> |Cut(body, m)[i]| == m
    ensures 1 <= |Cut(body, m)[|Cut(body, m)| - 1]| <= m
  {
    var ps := Pieces(Excess(body, m), CopySize(m));
    PiecesConserve(Excess(body, m), CopySize(m));
    if |body| > m {
      assert (|ps| + 1) * m == |ps| * m + m;
      assert |ps| * m == (|ps| - 1) * m + m;
    } else {
      assert ps == [];
      assert 0 * m == 0 && 1 * m == m;
    }
  }

  // ----- the chunks on the wire

  function Continuation(csid: byte, data: seq<byte>): seq<byte> {
    [BasicByte(3, csid)] + data
  }

  function Continuations(csid: byte, ps: seq<seq<byte>>): seq<seq<byte>> {
    seq(|ps|, i requires 0 <= i < |ps| => Continuation(csid, ps[i]))
  }

  /** What a sender of this header and body writes, chunk by chunk. */
  function ChunkBytes(h: Header, body: seq<byte>, m: u32): seq<seq<byte>>
    requires HSize(h) <= |HeaderBytes(h) + body|
  {
    var all := HeaderBytes(h) + body;
    var counted := all[HSize(h)..];
    [all[..HSize(h)] + Retained(counted, m)]
    + Continuations(h.csid, Pieces(Excess(counted, m), CopySize(m)))
  }

  /** The chunk-cutting loop of `trunkToSize`, from position `start` to the end. */
  lemma FirstPiece(rest: seq<byte>, k: int)
    requires rest != [] && k > 0
    ensures var n := if |rest| >= k then k else |rest|;
            Pieces(rest, k) == [rest[..n]] + Pieces(rest[n..], k)
  {
    if |rest| < k {
      assert rest[..|rest|] == rest && rest[|rest|..] == [];
    }
  }

  method CutFrom(all: seq<byte>, start: nat, defaultCopySize: int) returns (result: seq<seq<byte>>)
    requires start <= |all|
    ensures result == Pieces(all[start..], defaultCopySize)
  {
    result := [];
    var iter := start;
    var chunkSize := if |all| - iter >= defaultCopySize then defaultCopySize else |all| - iter;
    while chunkSize > 0
      invariant start <= iter <= |all|
      invariant chunkSize == if |all| - iter >= defaultCopySize then defaultCopySize else |all| - iter
      invariant result + Pieces(all[iter..], defaultCopySize) == Pieces(all[start..], defaultCopySize)
      decreases |all| - iter
    {
      hide Pieces;
      var data := all[iter..iter + chunkSize];
      ghost var rest := all[iter..];
      FirstPiece(rest, defaultCopySize);
      assert rest[..chunkSize] == data && rest[chunkSize..] == all[iter + chunkSize..];
      iter := iter + chunkSize;
      result := result + [data];
      chunkSize := if |all| - iter >= defaultCopySize then defaultCopySize else |all| - iter;
    }
  }

  /** Keeps `n` header bytes and at most `maxSize` body bytes, and cuts up the rest. */
  method SplitAfter(all: seq<byte>, n: nat, maxSize: u32) returns (kept: seq<byte>, result: seq<seq<byte>>)
    requires n <= |all|
    ensures kept == all[..n] + Retained(all[n..], maxSize)
    ensures result == Pieces(Excess(all[n..], maxSize), CopySize(maxSize))
  {
    var currentSize := |all| - n;
    if currentSize <= maxSize {
      assert all == all[..n] + all[n..];
      return all, [];
    }
    assert all[n + maxSize..] == all[n..][maxSize..];
    result := CutFrom(all, n + maxSize, CopySize(maxSize));
    kept := all[..n + maxSize];
    assert kept == all[..n] + all[n..][..maxSize];
  }

  /** RtmpAudioMessage and RtmpVideoMessage, which differ only in their constants. */
  class RtmpMediaMessage {
    var chunkType: ChunkType
    var csid: byte
    var timestamp: u32
    var payloadSize: u32
    var msgType: byte
    var streamId: u32
    var extended: u32
    var payload: seq<byte>     // payload_: the serialized form
    var tagPayload: seq<byte>  // the payload of the audio or video tag

    function Head(): Header
      reads this
    {
      Header(chunkType, csid, timestamp, payloadSize, msgType, streamId, extended)
    }

    function Serialized(): seq<byte>
      reads this
    {
      if payload != [] then payload else HeaderBytes(Head()) + tagPayload
    }

    constructor ()
      ensures Head() == FRESH && payload == [] && tagPayload == []
    {
      chunkType, csid, timestamp, payloadSize, msgType, streamId, extended := 0, CSID_AMF, 0, 0, 0, 0, 0;
      payload, tagPayload := [], [];
    }

    /** The message that carries a tag. */
    constructor FromTag(csid: byte, msgType: byte, tagTimestamp: u32, tagSize: u32, tag: seq<byte>)
      ensures Head() == FRESH.(csid := csid, timestamp := tagTimestamp, size := tagSize, msgType := msgType)
      ensures payload == [] && tagPayload == tag
    {
      this.chunkType, this.csid := 0, csid;
      this.timestamp, this.payloadSize, this.msgType := tagTimestamp, tagSize, msgType;
      this.streamId, this.extended := 0, 0;
      this.payload, this.tagPayload := [], tag;
    }

    /** The message that continues another one. */
    constructor Continue(csid: byte, msgType: byte, data: seq<byte>)
      ensures Head() == FRESH.(chunkType := 3, csid := csid, size := |data| % 0x1_0000_0000, msgType := msgType)
      ensures payload == [] && tagPayload == data
    {
      this.chunkType, this.csid := 3, csid;
      this.timestamp, this.payloadSize, this.msgType := 0, |data| % 0x1_0000_0000, msgType;
      this.streamId, this.extended := 0, 0;
      this.payload, this.tagPayload := [], data;
    }

    method Serialize() returns (s: seq<byte>)
      modifies this`payload
      ensures s == payload == old(Serialized())
    {
      if payload != [] {
        return payload;
      }
      payload := payload + [BasicByte(chunkType, csid)];
      if chunkType <= 2 {
        payload := payload + ToBigEndian24(timestamp);
        if chunkType != 2 {
          payload := payload + ToBigEndian24(payloadSize);
          payload := payload + [msgType];
          if chunkType == 0 {
            payload := payload + ToLittleEndian32(streamId);
          }
        }
      }
      assert payload == HeaderBytes(Head());
      payload := payload + tagPayload;
      s := payload;
    }

    /** Reads a header; a message that is already serialized is left alone. */
    method Deserialize(s: seq<byte>)
      requires payload == [] ==> ReadHeader(Head(), s).Some?
      modifies this
      ensures Head() == if old(payload) == [] then ReadHeader(old(Head()), s).value else old(Head())
      ensures payload == old(payload) && tagPayload == old(tagPayload)
    {
      hide HasExtendedTimestamp;
      if payload != [] {
        return;
      }
      var iter := 0;
      chunkType := s[iter] / 64;
      iter := iter + 1;
      if chunkType <= 2 {
        timestamp := FromBigEndian24(s[iter..iter + 3]);
        iter := iter + 3;
        if chunkType != 2 {
          payloadSize := FromBigEndian24(s[iter..iter + 3]);
          iter := iter + 3;
          msgType := s[iter];
          iter := iter + 1;
          if HasExtendedTimestamp(timestamp) {
            extended := FromLittleEndian32(s[iter..iter + 4]);
            iter := iter + 4;
          }
          if chunkType == 0 {
            streamId := FromLittleEndian32(s[iter..iter + 4]);
            iter := iter + 4;
          }
        }
      }
    }

    method SetPayload(data: seq<byte>)
      modifies this`payload
      ensures payload == data
    {
      payload := data;
    }

    method AppendPayload(data: seq<byte>)
      modifies this`tagPayload
      ensures tagPayload == old(tagPayload) + data
    {
      tagPayload := tagPayload + data;
    }

    /** Moves a received body into the tag unless the tag already has one. */
    method DeserializeBody()
      modifies this`payload, this`tagPayload
      ensures tagPayload == if old(tagPayload) == [] then old(payload) else old(tagPayload)
      ensures payload == []
    {
      if tagPayload == [] {
        AppendPayload(payload);
      }
      payload := [];
    }

    /** Cuts off and returns what exceeds `maxSize`; the serialized form must be as long as `hSize` says. */
    method TrunkToSize(maxSize: u32) returns (result: seq<seq<byte>>)
      requires HSize(Head()) <= |Serialized()|
      modifies this`payload
      ensures var n := HSize(Head());
              var body := old(Serialized())[n..];
              && result == Pieces(Excess(body, maxSize), CopySize(maxSize))
              && payload == old(Serialized())[..n] + Retained(body, maxSize)
    {
      var all := Serialize();
      payload, result := SplitAfter(all, HSize(Head()), maxSize);
    }
  }
}
