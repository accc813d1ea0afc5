/** The receive state machine of src/rtmp/rtmp_socket.cc: chunks read from a byte stream and joined into messages. */
module ChunkReceiver {
  import opened Bytes
  import opened BitCount
  import opened MediaMessage

  // ----- the transport

  /** All bytes the peer ever sends, how many of them were read, and whether the connection is open. */
  datatype Wire = Wire(input: seq<byte>, cursor: nat, open: bool)

  /** Reads exactly `n` bytes, or what is left and fails; a failed read closes the connection. */
  function ReadExactly(w: Wire, n: nat): (r: (Option<seq<byte>>, Wire))
    ensures r.0.Some? ==> r.1.open && |r.0.value| == n
    ensures r.0.None? ==> !r.1.open
  {
    if w.open && w.cursor + n <= |w.input| then
      (Some(w.input[w.cursor..w.cursor + n]), w.(cursor := w.cursor + n))
    else
      (None, w.(cursor := |w.input|, open := false))
  }

  // ----- one chunk

  datatype Error = TransportError | InvalidArgument

  /** RtmpMediaPacketVariant; audio, video and metadata messages are told apart by their type field. */
  datatype Packet = Blank | Media(head: Header, body: seq<byte>)

  /** RtmpChunk: accumulated continuation bytes, total size, current size. */
  datatype Progress = Progress(data: seq<byte>, total: u32, current: u32)

  datatype ChunkResult = Chunk(packet: Packet, size: nat) | Failed(error: Error)

  type HeaderRead = (Option<seq<byte>>, Wire)

  /** Reads `n` more header bytes. */
  function More(r: HeaderRead, n: nat): (r1: HeaderRead)
    ensures r1.0.Some? ==> r.0.Some? && |r1.0.value| == |r.0.value| + n
  {
    if r.0.None? then r else
    var (data, w) := ReadExactly(r.1, n);
    (if data.None? then None else Some(r.0.value + data.value), w)
  }

  // The chain of partial header reads; each stage appends to the header and picks the next stage.
  const BASIC := 0      // receiveChunk
  const TIMESTAMP := 1  // receiveTimestamp
  const BODY_SIZE := 2  // receiveBodySize
  const TYPE := 3       // receiveMessageType
  const EXTENDED := 4   // receiveExtentedTimestamp
  const STREAM_ID := 5  // receiveStreamID
  const COMPLETE := 6   // receivePayload

  type Stage = s: int | BASIC <= s <= COMPLETE

  function Width(stage: Stage): nat {
    [1, 3, 3, 1, 4, 4, 0][stage]
  }

  predicate AnnouncesExtension(header: seq<byte>) {
    |header| >= 4 && HasExtendedTimestamp(FromBigEndian24(header[1..4]))
  }

  function NextStage(stage: Stage, header: seq<byte>): (next: Stage)
    requires stage < COMPLETE && |header| > 0
    ensures next > stage
  {
    var fmt := header[0] / 64;
    if stage == BASIC then (if fmt == 3 then COMPLETE else TIMESTAMP)
    else if stage == TIMESTAMP then (if fmt == 2 then COMPLETE else BODY_SIZE)
    else if stage == BODY_SIZE then TYPE
    else if stage == TYPE && AnnouncesExtension(header) then EXTENDED
    else if stage <= EXTENDED && fmt == 0 then STREAM_ID
    else COMPLETE
  }

  function ReceiveFrom(stage: Stage, r: HeaderRead): (h: HeaderRead)
    ensures h.0.Some? ==> r.0.Some? && |h.0.value| >= |r.0.value|
    decreases COMPLETE - stage
  {
    if stage == COMPLETE then r else
    var r1 := More(r, Width(stage));
    if r1.0.None? then r1 else ReceiveFrom(NextStage(stage, r1.0.value), r1)
  }

  function ReceiveHeader(w: Wire): (h: HeaderRead)
    ensures h.0.Some? ==> |h.0.value| > 0
  {
    ReceiveFrom(BASIC, (Some([]), w))
  }

  predicate KnownType(t: byte) {
    t == AUDIO || t == VIDEO || t == DATA_AMF0
  }

  function Min(a: nat, b: nat): nat {
    if a > b then b else a
  }

  function ReceivePayload(header: seq<byte>, w: Wire, p: Progress, m: u32): (ChunkResult, Wire, Progress)
    requires |header| > 0
    requires header[0] / 64 <= 1 ==> ReadHeader(FRESH, header).Some?
  {
    if header[0] / 64 <= 1 then
      var h := ReadHeader(FRESH, header).value;
      var p1 := p.(total := h.size, current := Min(h.size, m));
      if !KnownType(h.msgType) then (Failed(InvalidArgument), w, p1) else
      var (data, w1) := ReadExactly(w, p1.current);
      (if data.None? then Failed(TransportError) else Chunk(Media(h, data.value), p1.current), w1, p1)
    else
      var (data, w1) := ReadExactly(w, p.current);
      if data.None? then (Failed(TransportError), w1, p)
      else (Chunk(Blank, p.current), w1, p.(data := p.data + data.value))
  }

  function ReceiveChunk(w: Wire, p: Progress, m: u32): (ChunkResult, Wire, Progress) {
    var (header, w1) := ReceiveHeader(w);
    if header.None? then (Failed(TransportError), w1, p) else
    HeaderIsComplete(w);
    ReceivePayload(header.value, w1, p, m)
  }

  /** Reading in two steps is reading at once. */
  lemma MoreIsRead(w: Wire, a: nat, b: nat)
    ensures More(ReadExactly(w, a), b) == ReadExactly(w, a + b)
  {
    if w.open && w.cursor + a + b <= |w.input| {
      assert w.input[w.cursor..w.cursor + a] + w.input[w.cursor + a..w.cursor + a + b]
          == w.input[w.cursor..w.cursor + (a + b)];
    }
  }

  /** How long a header that starts with these bytes is. */
  function FullLength(s: seq<byte>): nat
    requires |s| > 0
  {
    var fmt := s[0] / 64;
    if fmt == 3 then 1 else
    if fmt == 2 then 4 else
    8 + (if AnnouncesExtension(s) then 4 else 0) + (if fmt == 0 then 4 else 0)
  }

  /** What was read before each stage. */
  predicate StageInv(stage: Stage, s: seq<byte>) {
    if stage == BASIC then s == [] else
    && |s| > 0
    && (if stage == TIMESTAMP then |s| == 1 && s[0] / 64 <= 2
        else if stage == BODY_SIZE then |s| == 4 && s[0] / 64 <= 1
        else if stage == TYPE then |s| == 7 && s[0] / 64 <= 1
        else if stage == EXTENDED then |s| == 8 && s[0] / 64 <= 1 && AnnouncesExtension(s)
        else if stage == STREAM_ID then |s| + 4 == FullLength(s) && s[0] / 64 == 0
        else |s| == FullLength(s))
  }

  lemma StageKept(stage: Stage, s: seq<byte>, more: seq<byte>)
    requires stage < COMPLETE && StageInv(stage, s) && |more| == Width(stage)
    ensures StageInv(NextStage(stage, s + more), s + more)
  {
    if |s| >= 4 {
      assert (s + more)[1..4] == s[1..4];
    }
  }

  /** A complete header is long enough to be decoded. */
  lemma CompleteHeaderDecodes(s: seq<byte>)
    requires StageInv(COMPLETE, s)
    ensures ReadHeader(FRESH, s).Some?
  {
    hide HasExtendedTimestamp;
  }

  /** The partial reads amount to one read, and what they read is a complete header. */
  lemma {:induction false} StagesAreOneRead(stage: Stage, w: Wire, a: nat) returns (n: nat)
    requires ReadExactly(w, a).0.Some? && StageInv(stage, ReadExactly(w, a).0.value)
    ensures n >= a && ReceiveFrom(stage, ReadExactly(w, a)) == ReadExactly(w, n)
    ensures ReadExactly(w, n).0.Some? ==> StageInv(COMPLETE, ReadExactly(w, n).0.value)
    decreases COMPLETE - stage
  {
    if stage == COMPLETE {
      return a;
    }
    MoreIsRead(w, a, Width(stage));
    n := a + Width(stage);
    var r, r1 := ReadExactly(w, a), ReadExactly(w, n);
    if r1.0.Some? {
      StageKept(stage, r.0.value, ReadExactly(r.1, Width(stage)).0.value);
      n := StagesAreOneRead(NextStage(stage, r1.0.value), w, n);
    }
  }

  lemma HeaderIsOneRead(w: Wire) returns (n: nat)
    ensures n >= 1 && ReceiveHeader(w) == ReadExactly(w, n)
    ensures ReadExactly(w, n).0.Some? ==> StageInv(COMPLETE, ReadExactly(w, n).0.value)
  {
    n := 1;
    var r1 := ReadExactly(w, 1);
    assert More((Some([]), w), 1) == r1 by {
      if r1.0.Some? {
        assert [] + r1.0.value == r1.0.value;
      }
    }
    if r1.0.Some? {
      StageKept(BASIC, [], r1.0.value);
      assert [] + r1.0.value == r1.0.value;
      n := StagesAreOneRead(NextStage(BASIC, r1.0.value), w, 1);
    }
  }

  lemma HeaderIsComplete(w: Wire)
    requires ReceiveHeader(w).0.Some?
    ensures StageInv(COMPLETE, ReceiveHeader(w).0.value)
    ensures ReadHeader(FRESH, ReceiveHeader(w).0.value).Some?
  {
    var n := HeaderIsOneRead(w);
    CompleteHeaderDecodes(ReceiveHeader(w).0.value);
  }

  /** A complete header in the stream is the one that is read. */
  lemma {:induction false} StagesReadHeader(stage: Stage, w: Wire, s: seq<byte>, a: nat)
    requires w.open && StageInv(COMPLETE, s) && At(w.input, w.cursor, s)
    requires a <= |s| && StageInv(stage, s[..a])
    ensures ReceiveFrom(stage, ReadExactly(w, a)) == ReadExactly(w, |s|)
    decreases COMPLETE - stage
  {
    hide HasExtendedTimestamp, FromBigEndian24;
    if a >= 4 {
      assert s[..a][1..4] == s[1..4];
    }
    if stage != COMPLETE {
      var b := a + Width(stage);
      assert b <= |s|;
      MoreIsRead(w, a, Width(stage));
      assert s[..b] == s[..a] + s[a..b];
      StageKept(stage, s[..a], s[a..b]);
      ReadsPrefix(w, s, b);
      StagesReadHeader(NextStage(stage, s[..b]), w, s, b);
    }
  }

  lemma ReadsPrefix(w: Wire, s: seq<byte>, b: nat)
    requires w.open && At(w.input, w.cursor, s) && b <= |s|
    ensures ReadExactly(w, b) == (Some(s[..b]), w.(cursor := w.cursor + b))
  {
    assert w.input[w.cursor..w.cursor + |s|][..b] == w.input[w.cursor..w.cursor + b];
  }

  lemma HeaderInStreamIsRead(w: Wire, s: seq<byte>)
    requires w.open && StageInv(COMPLETE, s) && At(w.input, w.cursor, s)
    ensures ReceiveHeader(w) == (Some(s), w.(cursor := w.cursor + |s|))
  {
    ReadsPrefix(w, s, 0);
    ReadsPrefix(w, s, |s|);
    StagesReadHeader(BASIC, w, s, 0);
    assert s[..0] == [] && s[..|s|] == s;
  }

  /** For all four formats, a written header that announces no extension is read whole, and nothing behind it. */
  lemma WrittenHeaderIsRead(w: Wire, h: Header)
    requires w.open && At(w.input, w.cursor, HeaderBytes(h)) && TypeBitsFree(h)
    requires h.chunkType <= 1 ==> h.timestamp % 0x100_0000 != MAX24
    ensures ReceiveHeader(w) == (Some(HeaderBytes(h)), w.(cursor := w.cursor + [12, 8, 4, 1][h.chunkType]))
  {
    hide ReceiveHeader, HasExtendedTimestamp, HeaderBytes, ToBigEndian24, ToLittleEndian32, FromBigEndian24, At;
    HeaderFields(h);
    EndianRoundTrips(h.timestamp);
    SentinelIsAllOnes(h.timestamp % 0x100_0000);
    HeaderInStreamIsRead(w, HeaderBytes(h));
  }

  /** With an extended timestamp, a Type 0 header is 16 bytes long and a Type 1 header is 12. */
  lemma ExtendedHeaderIsRead(w: Wire, s: seq<byte>)
    requires w.open && At(w.input, w.cursor, s) && |s| >= 4 && s[1..4] == [0xFF, 0xFF, 0xFF]
    requires (s[0] / 64 == 0 && |s| == 16) || (s[0] / 64 == 1 && |s| == 12)
    ensures ReceiveHeader(w) == (Some(s), w.(cursor := w.cursor + |s|))
  {
    hide ReceiveHeader, HasExtendedTimestamp, At;
    SentinelIsAllOnes(MAX24);
    HeaderInStreamIsRead(w, s);
  }

  // ----- the continuation loop

  /** The loop's variables: transport, `chunks`, `nextChunkSize` and the saved error. */
  datatype Loop = Loop(wire: Wire, progress: Progress, next: u32, error: Option<Error>)

  datatype LoopEnd = Finished(loop: Loop) | Abandoned(loop: Loop)

  datatype Outcome =
    | Refused(error: Error)
    | Delivered(saved: Option<Error>, size: nat, packet: Packet)
    | Stalled

  /** Unsigned 32-bit subtraction, which wraps around. */
  function Subtract32(a: u32, b: u32): u32 {
    if a >= b then a - b else a - b + 0x1_0000_0000
  }

  /** The size still missing. */
  function Missing(p: Progress): u32 {
    Subtract32(p.total, p.current)
  }

  /** No chunk makes the current size exceed the total, so the subtraction never wraps around in the loop. */
  lemma SubtractionIsExact(w: Wire, p: Progress, m: u32)
    requires p.current <= p.total
    ensures var p1 := ReceiveChunk(w, p, m).2;
            Missing(p1) == p1.total - p1.current && Missing(p1.(current := 0)) == p1.total
  {
    hide ReceiveHeader, ReadHeader;
    var (header, w1) := ReceiveHeader(w);
    if header.Some? {
      HeaderIsComplete(w);
    }
  }

  function LoopStep(s: Loop, m: u32): Loop {
    var (r, w, p) := ReceiveChunk(s.wire, s.progress.(total := s.next), m);
    var p1 := if r.Failed? then p.(current := 0) else p;
    Loop(w, p1.(current := Min(Missing(p1), m)), Missing(p1), if r.Failed? then Some(r.error) else s.error)
  }

  lemma ChunkAdvances(w: Wire, p: Progress, m: u32)
    ensures var (r, w1, _) := ReceiveChunk(w, p, m);
            && w1.input == w.input
            && (w1.open ==> w.open && w.cursor < w1.cursor <= |w.input|)
            && (w1.open <==> !(r.Failed? && r.error.TransportError?))
  {
    var n := HeaderIsOneRead(w);
  }

  /** The loop after the first chunk; it is abandoned once the connection is lost, see `StallNeverEnds`. */
  function Join(s: Loop, m: u32): LoopEnd
    decreases |s.wire.input| - s.wire.cursor
  {
    if s.progress.current == 0 then Finished(s) else
    var s1 := LoopStep(s, m);
    ChunkAdvances(s.wire, s.progress.(total := s.next), m);
    if !s1.wire.open then Abandoned(s1) else Join(s1, m)
  }

  function Iterate(s: Loop, m: u32, k: nat): Loop
    decreases k
  {
    if k == 0 then s else Iterate(LoopStep(s, m), m, k - 1)
  }

  /** What holds of the loop's variables at its head. */
  predicate LoopInv(s: Loop, m: u32) {
    && s.progress.current == Min(s.next, m)
  }

  /** A chunk that is cut off leaves a size to go on for. */
  lemma LostChunkAnnouncesMore(w: Wire, p: Progress, m: u32)
    requires p.total > 0
    ensures var (r, _, p1) := ReceiveChunk(w, p, m);
            r.Failed? && r.error.TransportError? ==> p1.total > 0
  {
    hide ReceiveHeader, ReadHeader;
    var (header, w1) := ReceiveHeader(w);
    if header.Some? {
      HeaderIsComplete(w);
      var n := HeaderIsOneRead(w);
    }
  }

  lemma LostConnectionKeepsGuard(s: Loop, m: u32)
    requires LoopInv(s, m) && s.progress.current > 0 && !LoopStep(s, m).wire.open
    ensures LoopInv(LoopStep(s, m), m) && LoopStep(s, m).progress.current > 0
  {
    hide ReceiveChunk;
    ChunkAdvances(s.wire, s.progress.(total := s.next), m);
    LostChunkAnnouncesMore(s.wire, s.progress.(total := s.next), m);
  }

  lemma ClosedStaysClosed(s: Loop, m: u32)
    requires !s.wire.open
    ensures !LoopStep(s, m).wire.open
  {
    hide ReceiveChunk;
    ChunkAdvances(s.wire, s.progress.(total := s.next), m);
  }

  /** After a lost connection the loop guard holds for ever: the size zeroed to end the loop is recomputed. */
  lemma {:induction false} StallNeverEnds(s: Loop, m: u32, k: nat)
    requires LoopInv(s, m) && s.progress.current > 0 && !LoopStep(s, m).wire.open
    ensures LoopInv(Iterate(s, m, k), m) && Iterate(s, m, k).progress.current > 0
    decreases k
  {
    hide LoopStep, LoopInv;
    if k > 0 {
      LostConnectionKeepsGuard(s, m);
      ClosedStaysClosed(LoopStep(s, m), m);
      StallNeverEnds(LoopStep(s, m), m, k - 1);
    }
  }

  /** The header in front is refused for its type and announces an empty message. */
  predicate RefusesEmptyMessage(w: Wire) {
    var h := ReceiveHeader(w).0;
    && h.Some? && h.value[0] / 64 <= 1
    && var head := ReadHeader(FRESH, h.value);
       head.Some? && !KnownType(head.value.msgType) && head.value.size == 0
  }

  lemma RefusedChunk(w: Wire, p: Progress, m: u32)
    requires p.total > 0
    ensures var (r, _, p1) := ReceiveChunk(w, p, m);
            r.Failed? ==> (p1.total == 0 <==> RefusesEmptyMessage(w))
  {
    hide ReceiveHeader, ReadHeader;
    LostChunkAnnouncesMore(w, p, m);
    var (header, w1) := ReceiveHeader(w);
    if header.Some? {
      HeaderIsComplete(w);
    }
  }

  /** What an error does to the loop: zeroing the size ends it exactly when the error is a refused header that
      announces an empty message; every other error leaves a size to go on with. */
  lemma ErrorEndsLoopExactlyWhen(s: Loop, m: u32)
    requires LoopInv(s, m) && s.progress.current > 0
    requires ReceiveChunk(s.wire, s.progress.(total := s.next), m).0.Failed?
    ensures LoopStep(s, m).progress.current == 0 <==> RefusesEmptyMessage(s.wire)
  {
    hide ReceiveChunk, RefusesEmptyMessage;
    RefusedChunk(s.wire, s.progress.(total := s.next), m);
  }

  /** A Type 0 header of an unknown type that announces five bytes. */
  const REFUSED_HEADER: seq<byte> := [4, 0, 0, 0, 0, 0, 5, 7, 0, 0, 0, 0]

  lemma RefusedHeaderDecodes()
    ensures StageInv(COMPLETE, REFUSED_HEADER)
    ensures ReadHeader(FRESH, REFUSED_HEADER) == Some(FRESH.(size := 5, msgType := 7))
  {
    hide HasExtendedTimestamp;
    SentinelIsAllOnes(0);
    assert REFUSED_HEADER[1..4] == [0, 0, 0] && REFUSED_HEADER[4..7] == [0, 0, 5];
    assert REFUSED_HEADER[8..12] == [0, 0, 0, 0];
  }

  /** It is refused with the connection open: the error is saved and the loop goes on. */
  lemma RefusedHeaderGoesOn(s: Loop, m: u32)
    requires LoopInv(s, m) && s.progress.current > 0 && s.wire.open
    requires At(s.wire.input, s.wire.cursor, REFUSED_HEADER)
    ensures LoopStep(s, m).error == Some(InvalidArgument) && LoopStep(s, m).wire.open
    ensures LoopStep(s, m).progress.current == Min(5, m) > 0
  {
    hide StageInv, ReadHeader, ReceiveHeader, At;
    RefusedHeaderDecodes();
    HeaderInStreamIsRead(s.wire, REFUSED_HEADER);
  }

  // ----- the loop and its passes

  lemma StepKeepsInvariant(s: Loop, m: u32)
    ensures LoopInv(LoopStep(s, m), m)
  {
    hide ReceiveChunk;
  }

  /** An abandoned loop really never ends: its guard holds after any number of passes. */
  lemma {:induction false} AbandonedNeverEnds(s: Loop, m: u32, k: nat)
    requires LoopInv(s, m) && Join(s, m).Abandoned?
    ensures Iterate(s, m, k).progress.current > 0
    decreases k
  {
    hide LoopStep, LoopInv;
    if !LoopStep(s, m).wire.open {
      StallNeverEnds(s, m, k);
    } else if k > 0 {
      StepKeepsInvariant(s, m);
      AbandonedNeverEnds(LoopStep(s, m), m, k - 1);
    }
  }

  /** A finished loop really ends so: after some number of passes, and not after fewer. */
  lemma {:induction false} FinishedIsReached(s: Loop, m: u32) returns (k: nat)
    requires Join(s, m).Finished?
    ensures Iterate(s, m, k) == Join(s, m).loop && Join(s, m).loop.progress.current == 0
    ensures forall j: nat :: j < k ==> Iterate(s, m, j).progress.current > 0
    decreases |s.wire.input| - s.wire.cursor
  {
    hide LoopStep;
    k := 0;
    if s.progress.current > 0 {
      ChunkStepAdvances(s, m);
      k := FinishedIsReached(LoopStep(s, m), m);
      forall j: nat | j < k + 1 ensures Iterate(s, m, j).progress.current > 0 {
        assert j > 0 ==> Iterate(s, m, j) == Iterate(LoopStep(s, m), m, j - 1);
      }
      k := k + 1;
    }
  }

  lemma ChunkStepAdvances(s: Loop, m: u32)
    ensures LoopStep(s, m).wire.input == s.wire.input
    ensures LoopStep(s, m).wire.open ==> s.wire.cursor < LoopStep(s, m).wire.cursor <= |s.wire.input|
  {
    hide ReceiveChunk;
    ChunkAdvances(s.wire, s.progress.(total := s.next), m);
  }

  /** The loop of the source ends exactly when the specification says it finishes. */
  lemma JoinIsTheLoop(s: Loop, m: u32)
    requires LoopInv(s, m)
    ensures Join(s, m).Finished? <==> exists k: nat :: Iterate(s, m, k).progress.current == 0
  {
    hide LoopStep, LoopInv, Join, Iterate;
    if Join(s, m).Finished? {
      var k := FinishedIsReached(s, m);
    } else {
      forall k: nat ensures Iterate(s, m, k).progress.current > 0 {
        AbandonedNeverEnds(s, m, k);
      }
    }
  }

  /** A continuation chunk moves bytes from the missing part to the accumulated part and loses none:
      it reads min(missing, m) bytes and appends exactly those. */
  lemma ContinuationConserves(s: Loop, m: u32)
    requires LoopInv(s, m) && s.progress.current > 0
    requires var h := ReceiveHeader(s.wire).0; h.Some? && h.value[0] / 64 >= 2
    requires LoopStep(s, m).wire.open
    ensures var s1 := LoopStep(s, m);
            && LoopInv(s1, m)
            && |s1.progress.data| == |s.progress.data| + Min(s.next, m)
            && |s1.progress.data| + s1.next == |s.progress.data| + s.next
            && s.progress.data <= s1.progress.data
            && s1.error == s.error
  {
    hide ReceiveHeader;
    ChunkAdvances(s.wire, s.progress.(total := s.next), m);
  }

  /** The loop's variables when it starts. */
  function LoopAfter(w: Wire, p: Progress, m: u32): Loop {
    Loop(w, p.(current := Min(Missing(p), m)), Missing(p), None)
  }

  /** What follows the first chunk: the loop, then one packet with everything collected. */
  function FinishMessage(r: ChunkResult, w: Wire, p: Progress, m: u32): (Outcome, Wire) {
    if r.Failed? then (Refused(r.error), w) else
    var end := Join(LoopAfter(w, p, m), m);
    (if end.Abandoned? then Stalled
     else Delivered(end.loop.error, r.size, WithData(r.packet, end.loop.progress.data)),
     end.loop.wire)
  }

  /** `receiveDynamicPacketWithDynamicHeader`. */
  function ReceiveMessage(w: Wire, m: u32): (Outcome, Wire) {
    var (r, w1, p) := ReceiveChunk(w, Progress([], 0, 0), m);
    FinishMessage(r, w1, p, m)
  }

  /** A call never returns exactly when its first chunk arrives and the guard of the loop then holds after any number
      of passes. */
  lemma StalledExactlyWhenLoopNeverEnds(w: Wire, m: u32)
    ensures var (r, w1, p) := ReceiveChunk(w, Progress([], 0, 0), m);
            ReceiveMessage(w, m).0.Stalled?
            <==> !r.Failed? && forall k: nat :: Iterate(LoopAfter(w1, p, m), m, k).progress.current > 0
  {
    hide ReceiveChunk, Join, Iterate;
    var (r, w1, p) := ReceiveChunk(w, Progress([], 0, 0), m);
    JoinIsTheLoop(LoopAfter(w1, p, m), m);
  }

  /** Of a message without a body, the types that are delivered: audio, video and AMF0 data. */
  lemma DeliveredTypes(w: Wire, t: byte, m: u32)
    requires w.open && At(w.input, w.cursor, [4, 0, 0, 0, 0, 0, 0, t, 0, 0, 0, 0])
    ensures ReceiveMessage(w, m).0.Delivered? <==> t == 0x08 || t == 0x09 || t == 0x12
    ensures !ReceiveMessage(w, m).0.Delivered? ==> ReceiveMessage(w, m).0 == Refused(InvalidArgument)
  {
    hide ReceiveHeader, StageInv, ReadHeader;
    var s: seq<byte> := [4, 0, 0, 0, 0, 0, 0, t, 0, 0, 0, 0];
    EmptyHeaderDecodes(t);
    HeaderInStreamIsRead(w, s);
  }

  lemma EmptyHeaderDecodes(t: byte)
    ensures var s: seq<byte> := [4, 0, 0, 0, 0, 0, 0, t, 0, 0, 0, 0];
            StageInv(COMPLETE, s) && ReadHeader(FRESH, s) == Some(FRESH.(msgType := t))
  {
    hide HasExtendedTimestamp;
    var s: seq<byte> := [4, 0, 0, 0, 0, 0, 0, t, 0, 0, 0, 0];
    SentinelIsAllOnes(0);
    assert s[1..4] == [0, 0, 0] && s[4..7] == [0, 0, 0] && s[8..12] == [0, 0, 0, 0];
  }

  function WithData(p: Packet, data: seq<byte>): Packet {
    if p.Media? then Media(p.head, p.body + data) else p
  }

  // ----- the methods

  class RtmpChunk {
    var data: seq<byte>
    var totalSize: u32
    var currentSize: u32

    function View(): Progress
      reads this
    {
      Progress(data, totalSize, currentSize)
    }

    constructor ()
      ensures View() == Progress([], 0, 0)
    {
      data, totalSize, currentSize := [], 0, 0;
    }
  }

  class RtmpSocket {
    const input: seq<byte>
    var cursor: nat
    var isOpen: bool

    function View(): Wire
      reads this
    {
      Wire(input, cursor, isOpen)
    }

    constructor (input: seq<byte>)
      ensures View() == Wire(input, 0, true)
    {
      this.input := input;
      cursor, isOpen := 0, true;
    }

    method ReceiveData(size: nat) returns (data: Option<seq<byte>>)
      modifies this
      ensures (data, View()) == ReadExactly(old(View()), size)
    {
      if isOpen && cursor + size <= |input| {
        data := Some(input[cursor..cursor + size]);
        cursor := cursor + size;
      } else {
        data := None;
        cursor, isOpen := |input|, false;
      }
    }

    method ReceiveMore(header: Option<seq<byte>>, size: nat) returns (r: Option<seq<byte>>)
      modifies this
      ensures (r, View()) == More((header, old(View())), size)
    {
      if header.None? {
        return None;
      }
      var data := ReceiveData(size);
      r := if data.None? then None else Some(header.value + data.value);
    }

    method ReceiveStreamID(header: seq<byte>) returns (r: Option<seq<byte>>)
      modifies this
      ensures (r, View()) == ReceiveFrom(STREAM_ID, (Some(header), old(View())))
    {
      r := ReceiveMore(Some(header), 4);
    }

    method ReceiveExtendedTimestamp(header: seq<byte>) returns (r: Option<seq<byte>>)
      modifies this
      ensures (r, View()) == ReceiveFrom(EXTENDED, (Some(header), old(View())))
    {
      r := ReceiveMore(Some(header), 4);
      if r.Some? && r.value[0] / 64 == 0 {
        r := ReceiveStreamID(r.value);
      }
    }

    method ReceiveMessageType(header: seq<byte>) returns (r: Option<seq<byte>>)
      modifies this
      ensures (r, View()) == ReceiveFrom(TYPE, (Some(header), old(View())))
    {
      hide HasExtendedTimestamp;
      r := ReceiveMore(Some(header), 1);
      if r.Some? {
        if AnnouncesExtension(r.value) {
          r := ReceiveExtendedTimestamp(r.value);
        } else if r.value[0] / 64 == 0 {
          r := ReceiveStreamID(r.value);
        }
      }
    }

    method ReceiveBodySize(header: seq<byte>) returns (r: Option<seq<byte>>)
      modifies this
      ensures (r, View()) == ReceiveFrom(BODY_SIZE, (Some(header), old(View())))
    {
      r := ReceiveMore(Some(header), 3);
      if r.Some? {
        r := ReceiveMessageType(r.value);
      }
    }

    method ReceiveTimestamp(header: seq<byte>) returns (r: Option<seq<byte>>)
      modifies this
      ensures (r, View()) == ReceiveFrom(TIMESTAMP, (Some(header), old(View())))
    {
      r := ReceiveMore(Some(header), 3);
      if r.Some? && r.value[0] / 64 != 2 {
        r := ReceiveBodySize(r.value);
      }
    }

    method ReceiveHeaderBytes() returns (r: Option<seq<byte>>)
      modifies this
      ensures (r, View()) == ReceiveHeader(old(View()))
    {
      r := ReceiveMore(Some([]), 1);
      if r.Some? && r.value[0] / 64 != 3 {
        r := ReceiveTimestamp(r.value);
      }
    }

    method ReceiveOneChunk(chunks: RtmpChunk, maxSize: u32) returns (r: ChunkResult)
      modifies this, chunks
      ensures (r, View(), chunks.View()) == ReceiveChunk(old(View()), old(chunks.View()), maxSize)
    {
      hide ReadHeader, ReceiveHeader, ReadExactly;
      ghost var w0 := View();
      var header := ReceiveHeaderBytes();
      if header.None? {
        return Failed(TransportError);
      }
      HeaderIsComplete(w0);
      if header.value[0] / 64 <= 1 {
        var mediaPacket := new RtmpMediaMessage();
        mediaPacket.Deserialize(header.value);
        chunks.totalSize := mediaPacket.payloadSize;
        chunks.currentSize := if chunks.totalSize > maxSize then maxSize else chunks.totalSize;
        if !KnownType(mediaPacket.msgType) {
          return Failed(InvalidArgument);
        }
        var data := ReceiveData(chunks.currentSize);
        if data.None? {
          return Failed(TransportError);
        }
        mediaPacket.SetPayload(data.value);
        mediaPacket.DeserializeBody();
        r := Chunk(Media(mediaPacket.Head(), mediaPacket.tagPayload), chunks.currentSize);
      } else {
        var data := ReceiveData(chunks.currentSize);
        if data.None? {
          return Failed(TransportError);
        }
        chunks.currentSize := |data.value|;
        chunks.data := chunks.data + data.value;
        r := Chunk(Blank, |data.value|);
      }
    }

    /** One pass of the loop that collects the continuation chunks. */
    method ContinueLoop(chunks: RtmpChunk, next: u32, error: Option<Error>, maxSize: u32)
      returns (nextChunkSize: u32, error1: Option<Error>)
      modifies this, chunks
      ensures Loop(View(), chunks.View(), nextChunkSize, error1)
              == LoopStep(Loop(old(View()), old(chunks.View()), next, error), maxSize)
    {
      error1 := error;
      chunks.totalSize := next;
      var r := ReceiveOneChunk(chunks, maxSize);
      if r.Failed? {
        chunks.currentSize := 0;
        error1 := Some(r.error);
      }
      nextChunkSize := Subtract32(chunks.totalSize, chunks.currentSize);
      chunks.currentSize := if nextChunkSize > maxSize then maxSize else nextChunkSize;
    }

    /** The loop itself; it is left early only where the source would loop for ever. */
    method CollectContinuations(chunks: RtmpChunk, next: u32, maxSize: u32)
      returns (stalled: bool, error: Option<Error>)
      modifies this, chunks
      ensures var end := Join(Loop(old(View()), old(chunks.View()), next, None), maxSize);
              && stalled == end.Abandoned?
              && (View(), chunks.View(), error) == (end.loop.wire, end.loop.progress, end.loop.error)
    {
      error := None;
      var nextChunkSize := next;
      ghost var s := Loop(View(), chunks.View(), next, None);
      ghost var goal := Join(s, maxSize);
      while chunks.currentSize > 0
        invariant (View(), chunks.View(), nextChunkSize, error) == (s.wire, s.progress, s.next, s.error)
        invariant Join(s, maxSize) == goal
        decreases |s.wire.input| - s.wire.cursor
      {
        ChunkAdvances(s.wire, s.progress.(total := s.next), maxSize);
        nextChunkSize, error := ContinueLoop(chunks, nextChunkSize, error, maxSize);
        s := LoopStep(s, maxSize);
        if !isOpen {
          return true, error;
        }
      }
      stalled := false;
    }

    method CollectMessage(r: ChunkResult, chunks: RtmpChunk, maxSize: u32) returns (outcome: Outcome)
      modifies this, chunks
      ensures (outcome, View()) == FinishMessage(r, old(View()), old(chunks.View()), maxSize)
    {
      if r.Failed? {
        return Refused(r.error);
      }
      ghost var p := chunks.View();
      var nextChunkSize: u32 := Subtract32(chunks.totalSize, chunks.currentSize);
      chunks.currentSize := if nextChunkSize > maxSize then maxSize else nextChunkSize;
      assert chunks.View() == p.(current := Min(Missing(p), maxSize)) && nextChunkSize == Missing(p);
      ghost var end := Join(Loop(View(), chunks.View(), nextChunkSize, None), maxSize);
      assert end == Join(Loop(old(View()), p.(current := Min(Missing(p), maxSize)), Missing(p), None), maxSize);
      var stalled, error := CollectContinuations(chunks, nextChunkSize, maxSize);
      assert View() == end.loop.wire && chunks.View() == end.loop.progress;
      outcome := if stalled then Stalled else Delivered(error, r.size, WithData(r.packet, chunks.data));
    }

    method ReceiveDynamicPacketWithDynamicHeader(maxSize: u32) returns (outcome: Outcome)
      modifies this
      ensures (outcome, View()) == ReceiveMessage(old(View()), maxSize)
    {
      var chunks := new RtmpChunk();
      var r := ReceiveOneChunk(chunks, maxSize);
      outcome := CollectMessage(r, chunks, maxSize);
    }
  }
}
