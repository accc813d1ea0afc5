/** Receiving undoes sending: the receiver of ChunkReceiver on the bytes that MediaMessage writes. */
module ChunkRoundTrip {
  import opened Bytes
  import opened BitCount
  import opened MediaMessage
  import opened ChunkReceiver

  // ----- continuation chunks

  lemma BasicByteOfContinuation(csid: byte)
    ensures BasicByte(3, csid) / 64 == 3
  {
  }

  /** The bytes of the continuation chunks that carry `body`. */
  function Tail(csid: byte, body: seq<byte>, m: u32): seq<byte>
    requires m > 0
    decreases |body|
  {
    if body == [] then [] else
    var k := Min(|body|, m);
    ([BasicByte(3, csid)] + body[..k]) + Tail(csid, body[k..], m)
  }

  /** They are what the sender writes, chunk by chunk. */
  lemma {:induction false} TailIsContinuations(csid: byte, body: seq<byte>, m: u32)
    requires m > 0
    ensures Concat(Continuations(csid, Pieces(body, m))) == Tail(csid, body, m)
    decreases |body|
  {
    if body != [] {
      var k := Min(|body|, m);
      var rest := Pieces(body[k..], m);
      TailIsContinuations(csid, body[k..], m);
      assert body[..|body|] == body;
      assert Pieces(body, m) == [body[..k]] + rest;
      assert Continuations(csid, [body[..k]] + rest)
          == [Continuation(csid, body[..k])] + Continuations(csid, rest);
      assert Continuations(csid, [body[..k]] + rest)[1..] == Continuations(csid, rest);
    }
  }

  lemma EmptyTail(csid: byte, m: u32)
    requires m > 0
    ensures Tail(csid, [], m) == []
  {
  }

  lemma TailSplits(input: seq<byte>, pos: nat, csid: byte, body: seq<byte>, m: u32)
    requires m > 0 && body != []
    requires At(input, pos, Tail(csid, body, m))
    ensures var k := Min(|body|, m);
            && At(input, pos, [BasicByte(3, csid)] + body[..k])
            && At(input, pos + 1 + k, Tail(csid, body[k..], m))
            && |Tail(csid, body, m)| == 1 + k + |Tail(csid, body[k..], m)|
  {
    var k := Min(|body|, m);
    AtSplit(input, pos, [BasicByte(3, csid)] + body[..k], Tail(csid, body[k..], m));
  }

  lemma ChunkOfPiece(w: Wire, p: Progress, m: u32, csid: byte, piece: seq<byte>)
    requires w.open && p.current <= |piece|
    requires At(w.input, w.cursor, [BasicByte(3, csid)] + piece)
    ensures ReceiveChunk(w, p, m) == (Chunk(Blank, p.current), w.(cursor := w.cursor + 1 + p.current),
                                      p.(data := p.data + piece[..p.current]))
  {
    hide ReceiveHeader, ReadExactly, At;
    AtSplit(w.input, w.cursor, [BasicByte(3, csid)], piece);
    AtByte(w.input, w.cursor, BasicByte(3, csid));
    BasicByteOfContinuation(csid);
    HeaderInStreamIsRead(w, [BasicByte(3, csid)]);
    ReadsPrefix(w.(cursor := w.cursor + 1), piece, p.current);
  }

  /** One pass of the loop over a continuation chunk that holds at least what the pass asks for. */
  lemma StepReadsPiece(s: Loop, m: u32, csid: byte, piece: seq<byte>)
    requires s.wire.open && s.error.None?
    requires s.progress.current == Min(s.next, m) <= |piece|
    requires At(s.wire.input, s.wire.cursor, [BasicByte(3, csid)] + piece)
    ensures LoopStep(s, m) == AfterPiece(s, m, piece)
  {
    hide ReceiveChunk, At;
    ChunkOfPiece(s.wire, s.progress.(total := s.next), m, csid, piece);
  }

  function AfterPiece(s: Loop, m: u32, piece: seq<byte>): Loop
    requires s.progress.current <= |piece| && s.progress.current <= s.next
  {
    var k := s.progress.current;
    Loop(s.wire.(cursor := s.wire.cursor + 1 + k),
         Progress(s.progress.data + piece[..k], s.next, Min(s.next - k, m)), s.next - k, None)
  }

  lemma JoinReadsPiece(s: Loop, m: u32, csid: byte, piece: seq<byte>)
    requires s.wire.open && s.error.None?
    requires 0 < s.progress.current == Min(s.next, m) <= |piece|
    requires At(s.wire.input, s.wire.cursor, [BasicByte(3, csid)] + piece)
    ensures Join(s, m) == Join(AfterPiece(s, m, piece), m)
  {
    StepReadsPiece(s, m, csid, piece);
  }

  lemma NothingMissing(s: Loop, m: u32)
    requires s.progress.current == 0
    ensures Join(s, m) == Finished(s)
  {
  }

  /** The loop collects exactly the bytes it misses from the continuation chunks. */
  lemma {:induction false} JoinCollects(s: Loop, m: u32, csid: byte, body: seq<byte>) returns (last: Loop)
    requires m > 0
    requires s.wire.open && s.error.None?
    requires s.progress.current == Min(s.next, m) && s.next <= |body|
    requires At(s.wire.input, s.wire.cursor, Tail(csid, body, m))
    ensures Join(s, m) == Finished(last) && last.error.None?
    ensures last.progress.data == s.progress.data + body[..s.next]
    ensures s.next == |body| ==> last.wire == s.wire.(cursor := s.wire.cursor + |Tail(csid, body, m)|)
    decreases |body|
  {
    hide Join, LoopStep, Tail, At;
    if s.next == 0 {
      NothingMissing(s, m);
      last := s;
      EmptyTail(csid, m);
      assert s.progress.data + body[..0] == s.progress.data;
      return;
    }
    var k := Min(|body|, m);
    var piece := body[..k];
    TailSplits(s.wire.input, s.wire.cursor, csid, body, m);
    JoinReadsPiece(s, m, csid, piece);
    var s1 := AfterPiece(s, m, piece);
    if s.progress.current == k {
      last := JoinCollects(s1, m, csid, body[k..]);
      CollectedSoFar(s.progress.data, body, k, s.next);
    } else {
      NothingMissing(s1, m);
      last := s1;
      assert piece[..s.next] == body[..s.next];
    }
  }

  /** The passes it takes to read `n` bytes in chunks of `m`: `n / m`, rounded up. */
  function Passes(n: nat, m: u32): (k: nat)
    requires m > 0
    ensures n > 0 ==> k > 0 && (k - 1) * m < n <= k * m
    ensures n == 0 ==> k == 0
  {
    if n <= m then (if n == 0 then 0 else 1) else
    assert forall k: int :: (k + 1) * m == k * m + m;
    1 + Passes(n - m, m)
  }

  /** After `j` passes over the continuation chunks of a body: what is collected is a prefix of the body, what
      is missing is the rest of it, and the loop goes on exactly while there is a rest. */
  lemma {:induction false} AfterPasses(s: Loop, m: u32, csid: byte, body: seq<byte>, j: nat)
    requires m > 0 && s.wire.open && s.error.None?
    requires LoopInv(s, m) && s.next == |body|
    requires At(s.wire.input, s.wire.cursor, Tail(csid, body, m))
    requires j <= Passes(|body|, m)
    ensures var t := Iterate(s, m, j);
            && t.next <= |body| && LoopInv(t, m) && t.error.None?
            && t.progress.data == s.progress.data + body[..|body| - t.next]
            && Passes(t.next, m) == Passes(|body|, m) - j
            && (t.progress.current > 0 <==> j < Passes(|body|, m))
    decreases j
  {
    hide LoopStep, Tail, At, Passes;
    if j == 0 {
      assert body[..0] == [] && s.progress.data + [] == s.progress.data;
    } else {
      var k := Min(|body|, m);
      TailSplits(s.wire.input, s.wire.cursor, csid, body, m);
      StepReadsPiece(s, m, csid, body[..k]);
      OneMorePass(|body|, m);
      var s1 := AfterPiece(s, m, body[..k]);
      AfterPasses(s1, m, csid, body[k..], j - 1);
      var n := Iterate(s1, m, j - 1).next;
      CollectedSoFar(s.progress.data, body, k, |body| - n);
    }
  }

  lemma OneMorePass(n: nat, m: u32)
    requires m > 0 && n > 0
    ensures Passes(n, m) == 1 + Passes(n - Min(n, m), m)
  {
  }

  lemma CollectedSoFar(data: seq<byte>, body: seq<byte>, k: nat, n: nat)
    requires k <= n <= |body|
    ensures data + body[..k][..k] + body[k..][..n - k] == data + body[..n]
  {
  }

  /** If the stream ends with the continuation chunks and they hold too little, the loop never ends. */
  lemma {:induction false} JoinStalls(s: Loop, m: u32, csid: byte, body: seq<byte>)
    requires m > 0
    requires s.wire.open && s.error.None?
    requires s.progress.current == Min(s.next, m) && s.next > |body|
    requires At(s.wire.input, s.wire.cursor, Tail(csid, body, m))
    requires |s.wire.input| == s.wire.cursor + |Tail(csid, body, m)|
    ensures Join(s, m).Abandoned?
    decreases |body|
  {
    hide Join, LoopStep, Tail, At;
    if body == [] {
      EmptyTail(csid, m);
      EndOfStream(s, m);
    } else {
      var k := Min(|body|, m);
      TailSplits(s.wire.input, s.wire.cursor, csid, body, m);
      if k == m {
        JoinReadsPiece(s, m, csid, body[..k]);
        JoinStalls(AfterPiece(s, m, body[..k]), m, csid, body[k..]);
      } else {
        assert body[..k] == body && body[k..] == [];
        EmptyTail(csid, m);
        ShortPieceFails(s, m, csid, body);
      }
    }
  }

  /** So its guard holds after any number of passes. */
  lemma ShortStreamNeverEnds(s: Loop, m: u32, csid: byte, body: seq<byte>, k: nat)
    requires m > 0
    requires s.wire.open && s.error.None?
    requires LoopInv(s, m) && s.next > |body|
    requires At(s.wire.input, s.wire.cursor, Tail(csid, body, m))
    requires |s.wire.input| == s.wire.cursor + |Tail(csid, body, m)|
    ensures Iterate(s, m, k).progress.current > 0
  {
    hide Join, Iterate, Tail, At;
    JoinStalls(s, m, csid, body);
    AbandonedNeverEnds(s, m, k);
  }

  lemma EndOfStream(s: Loop, m: u32)
    requires s.progress.current > 0 && |s.wire.input| == s.wire.cursor
    ensures Join(s, m).Abandoned?
  {
    assert More((Some([]), s.wire), 1).0.None?;
  }

  lemma ShortPieceFails(s: Loop, m: u32, csid: byte, piece: seq<byte>)
    requires s.wire.open && s.progress.current == Min(s.next, m) > |piece|
    requires At(s.wire.input, s.wire.cursor, [BasicByte(3, csid)] + piece)
    requires |s.wire.input| == s.wire.cursor + 1 + |piece|
    ensures Join(s, m).Abandoned?
  {
    var w := s.wire;
    AtSplit(w.input, w.cursor, [BasicByte(3, csid)], piece);
    AtByte(w.input, w.cursor, BasicByte(3, csid));
    BasicByteOfContinuation(csid);
    HeaderInStreamIsRead(w, [BasicByte(3, csid)]);
  }

  // ----- too few bytes, whatever follows

  /** The cursor `w` is past `end`, or the connection is lost. */
  predicate Past(w: Wire, end: nat) {
    w.open ==> w.cursor > end
  }

  /** The loop never moves the cursor back, and never opens the connection. */
  lemma {:induction false} JoinGoesForward(s: Loop, m: u32, end: nat)
    requires Past(s.wire, end)
    ensures Past(Join(s, m).loop.wire, end)
    decreases |s.wire.input| - s.wire.cursor
  {
    hide LoopStep;
    if s.progress.current > 0 {
      StepGoesForward(s, m, end);
      ChunkStepAdvances(s, m);
      if LoopStep(s, m).wire.open {
        JoinGoesForward(LoopStep(s, m), m, end);
      }
    }
  }

  lemma StepGoesForward(s: Loop, m: u32, end: nat)
    requires Past(s.wire, end)
    ensures Past(LoopStep(s, m).wire, end)
  {
    hide ReceiveChunk;
    ChunkAdvances(s.wire, s.progress.(total := s.next), m);
  }

  /** A pass that asks for more than the chunk holds reads past it. */
  lemma StepReadsPast(s: Loop, m: u32, csid: byte, piece: seq<byte>)
    requires s.wire.open && s.progress.current == Min(s.next, m) > |piece|
    requires At(s.wire.input, s.wire.cursor, [BasicByte(3, csid)] + piece)
    ensures Past(LoopStep(s, m).wire, s.wire.cursor + 1 + |piece|)
  {
    hide At, ReceiveHeader;
    var w := s.wire;
    AtSplit(w.input, w.cursor, [BasicByte(3, csid)], piece);
    AtByte(w.input, w.cursor, BasicByte(3, csid));
    BasicByteOfContinuation(csid);
    HeaderInStreamIsRead(w, [BasicByte(3, csid)]);
  }

  /** If the continuation chunks hold too little, the loop reads past them. */
  lemma {:induction false} JoinReadsPast(s: Loop, m: u32, csid: byte, body: seq<byte>)
    requires m > 0
    requires s.wire.open && s.error.None?
    requires s.progress.current == Min(s.next, m) && s.next > |body|
    requires At(s.wire.input, s.wire.cursor, Tail(csid, body, m))
    ensures Past(Join(s, m).loop.wire, s.wire.cursor + |Tail(csid, body, m)|)
    decreases |body|
  {
    hide Join, LoopStep, Tail, At;
    var end := s.wire.cursor + |Tail(csid, body, m)|;
    if body == [] {
      EmptyTail(csid, m);
      ChunkStepAdvances(s, m);
      JoinAfterStep(s, m, end);
    } else {
      var k := Min(|body|, m);
      TailSplits(s.wire.input, s.wire.cursor, csid, body, m);
      if k == m {
        JoinReadsPiece(s, m, csid, body[..k]);
        JoinReadsPast(AfterPiece(s, m, body[..k]), m, csid, body[k..]);
      } else {
        assert body[..k] == body && body[k..] == [];
        EmptyTail(csid, m);
        StepReadsPast(s, m, csid, body);
        JoinAfterStep(s, m, end);
      }
    }
  }

  lemma JoinAfterStep(s: Loop, m: u32, end: nat)
    requires s.progress.current > 0 && Past(LoopStep(s, m).wire, end)
    ensures Past(Join(s, m).loop.wire, end)
  {
    hide LoopStep;
    JoinGoesForward(LoopStep(s, m), m, end);
  }

  // ----- one message

  const START := Progress([], 0, 0)

  /** `s` is a complete header with its own stream id that decodes to `h`. */
  predicate HeadedBy(s: seq<byte>, h: Header) {
    && StageInv(COMPLETE, s) && s[0] / 64 == 0
    && ReadHeader(FRESH, s) == Some(h)
    && KnownType(h.msgType) && h.size <= MAX24
  }

  lemma ChunkAfterHeader(w: Wire, s: seq<byte>, h: Header, m: u32)
    requires w.open && At(w.input, w.cursor, s) && HeadedBy(s, h)
    ensures ReceiveChunk(w, START, m) == ReceivePayload(s, w.(cursor := w.cursor + |s|), START, m)
  {
    HeaderInStreamIsRead(w, s);
  }

  lemma FirstPayload(w: Wire, s: seq<byte>, h: Header, m: u32, data: seq<byte>)
    requires w.open && HeadedBy(s, h) && |data| == Min(h.size, m) && At(w.input, w.cursor, data)
    ensures ReceivePayload(s, w, START, m)
            == (Chunk(Media(h, data), |data|), w.(cursor := w.cursor + |data|), Progress([], h.size, |data|))
  {
  }

  lemma ReadableHeaderNotEmpty(s: seq<byte>, h: Header)
    requires HeadedBy(s, h)
    ensures |s| > 0 && s[0] / 64 == 0 && ReadHeader(FRESH, s).Some?
  {
  }

  /** The first chunk: the header and as much of the body as one chunk holds. */
  lemma FirstChunk(w: Wire, s: seq<byte>, h: Header, m: u32, data: seq<byte>)
    requires w.open && At(w.input, w.cursor, s + data)
    requires HeadedBy(s, h) && |data| == Min(h.size, m)
    ensures ReceiveChunk(w, START, m)
            == (Chunk(Media(h, data), |data|), w.(cursor := w.cursor + |s + data|), Progress([], h.size, |data|))
  {
    hide ReceiveChunk, ReceivePayload, HeadedBy;
    ReadableHeaderNotEmpty(s, h);
    AtSplit(w.input, w.cursor, s, data);
    ChunkAfterHeader(w, s, h, m);
    FirstPayload(w.(cursor := w.cursor + |s|), s, h, m, data);
  }

  /** The loop's variables when it starts after a first chunk of `c` bytes. */
  function LoopStart(w: Wire, size: u32, c: u32, m: u32): Loop
    requires c <= size
  {
    Loop(w, Progress([], size, Min(size - c, m)), size - c, None)
  }

  /** The continuation loop over the chunks of a message of `size` bytes, without errors: in every pass the first
      chunk, what is accumulated and what is missing add up to the size; it takes exactly one pass less than there
      are chunks; and then everything is there. */
  lemma ContinuationLoopConserves(w: Wire, size: u32, csid: byte, rest: seq<byte>, m: u32)
    requires m > 0 && size > 0 && w.open && |rest| == size - Min(size, m)
    requires At(w.input, w.cursor, Tail(csid, rest, m))
    ensures var s, c, passes := LoopStart(w, size, Min(size, m), m), Min(size, m), Passes(size, m) - 1;
            && (forall j: nat :: j <= passes ==>
                  && c + |Iterate(s, m, j).progress.data| + Iterate(s, m, j).next == size
                  && Iterate(s, m, j).progress.current == Min(Iterate(s, m, j).next, m)
                  && (Iterate(s, m, j).progress.current > 0 <==> j < passes))
            && Iterate(s, m, passes).progress.data == rest
  {
    hide Tail, At, Iterate, Passes;
    var s, c := LoopStart(w, size, Min(size, m), m), Min(size, m);
    OneMorePass(size, m);
    var passes: nat := Passes(size, m) - 1;
    forall j: nat | j <= passes
      ensures c + |Iterate(s, m, j).progress.data| + Iterate(s, m, j).next == size
      ensures Iterate(s, m, j).progress.current == Min(Iterate(s, m, j).next, m)
      ensures Iterate(s, m, j).progress.current > 0 <==> j < passes
    {
      AfterPasses(s, m, csid, rest, j);
    }
    AfterPasses(s, m, csid, rest, passes);
    assert [] + rest[..|rest|] == rest;
  }

  lemma LoopStartsHere(w: Wire, size: u32, c: u32, m: u32)
    requires c <= size
    ensures var p := Progress([], size, c);
            Loop(w, p.(current := Min(Missing(p), m)), Missing(p), None) == LoopStart(w, size, c, m)
  {
  }

  lemma MessageEnds(w: Wire, m: u32, w1: Wire, h: Header, data: seq<byte>, last: Loop)
    requires |data| <= h.size
    requires ReceiveChunk(w, START, m) == (Chunk(Media(h, data), |data|), w1, Progress([], h.size, |data|))
    requires Join(LoopStart(w1, h.size, |data|, m), m) == Finished(last)
    ensures ReceiveMessage(w, m)
            == (Delivered(last.error, |data|, Media(h, data + last.progress.data)), last.wire)
  {
    LoopStartsHere(w1, h.size, |data|, m);
  }

  lemma MessageStalls(w: Wire, m: u32, w1: Wire, h: Header, data: seq<byte>)
    requires |data| <= h.size
    requires ReceiveChunk(w, START, m) == (Chunk(Media(h, data), |data|), w1, Progress([], h.size, |data|))
    requires Join(LoopStart(w1, h.size, |data|, m), m).Abandoned?
    ensures ReceiveMessage(w, m).0.Stalled?
  {
    LoopStartsHere(w1, h.size, |data|, m);
  }

  /** The header, and what follows it up to the announced size, lie in the first chunk. */
  lemma ArrivesInOneChunk(w: Wire, s: seq<byte>, h: Header, m: u32, data: seq<byte>)
    requires w.open && At(w.input, w.cursor, s + data)
    requires HeadedBy(s, h) && |data| == Min(h.size, m) && (h.size <= m || m == 0)
    ensures ReceiveMessage(w, m) == (Delivered(None, |data|, Media(h, data)), w.(cursor := w.cursor + |s + data|))
  {
    FirstChunk(w, s, h, m, data);
    var w1 := w.(cursor := w.cursor + |s + data|);
    NothingMissing(LoopStart(w1, h.size, |data|, m), m);
    MessageEnds(w, m, w1, h, data, LoopStart(w1, h.size, |data|, m));
    assert data + [] == data;
  }

  /** The first chunk is full and the rest of the announced size comes in continuation chunks. */
  lemma ArrivesInManyChunks(w: Wire, s: seq<byte>, h: Header, csid: byte, m: u32, data: seq<byte>, rest: seq<byte>)
    returns (end: Wire)
    requires m > 0 && w.open && At(w.input, w.cursor, (s + data) + Tail(csid, rest, m))
    requires HeadedBy(s, h) && m == |data| < h.size <= |data| + |rest|
    ensures ReceiveMessage(w, m) == (Delivered(None, m, Media(h, data + rest[..h.size - m])), end)
    ensures h.size == |data| + |rest| ==> end == w.(cursor := w.cursor + |(s + data) + Tail(csid, rest, m)|)
  {
    hide LoopStep, ReceiveChunk;
    AtSplit(w.input, w.cursor, s + data, Tail(csid, rest, m));
    FirstChunk(w, s, h, m, data);
    var w1 := w.(cursor := w.cursor + |s + data|);
    var last := JoinCollects(LoopStart(w1, h.size, m, m), m, csid, rest);
    MessageEnds(w, m, w1, h, data, last);
    assert [] + rest[..h.size - m] == rest[..h.size - m];
    end := last.wire;
  }

  lemma StallsInManyChunks(w: Wire, s: seq<byte>, h: Header, csid: byte, m: u32, data: seq<byte>, rest: seq<byte>)
    requires m > 0 && w.open && At(w.input, w.cursor, (s + data) + Tail(csid, rest, m))
    requires |w.input| == w.cursor + |(s + data) + Tail(csid, rest, m)|
    requires HeadedBy(s, h) && m == |data| && |data| + |rest| < h.size
    ensures ReceiveMessage(w, m).0.Stalled?
  {
    hide LoopStep, ReceiveChunk;
    AtSplit(w.input, w.cursor, s + data, Tail(csid, rest, m));
    FirstChunk(w, s, h, m, data);
    var w1 := w.(cursor := w.cursor + |s + data|);
    JoinStalls(LoopStart(w1, h.size, m, m), m, csid, rest);
    MessageStalls(w, m, w1, h, data);
  }

  lemma FirstChunkFails(w: Wire, s: seq<byte>, h: Header, m: u32, data: seq<byte>)
    requires w.open && At(w.input, w.cursor, s + data) && |w.input| == w.cursor + |s + data|
    requires HeadedBy(s, h) && |data| < Min(h.size, m)
    ensures ReceiveMessage(w, m).0.Refused?
  {
    AtSplit(w.input, w.cursor, s, data);
    ChunkAfterHeader(w, s, h, m);
    assert ReadExactly(w.(cursor := w.cursor + |s|), Min(h.size, m)).0.None?;
  }

  // ----- whatever the header announces

  /** A header, the part of a body that stays with it, and the continuation chunks with the rest. */
  function Layout(s: seq<byte>, csid: byte, body: seq<byte>, m: u32): seq<byte> {
    (s + Retained(body, m)) + if |body| <= m || CopySize(m) <= 0 then [] else Tail(csid, body[m..], m)
  }

  lemma LayoutPrefix(input: seq<byte>, pos: nat, s: seq<byte>, csid: byte, body: seq<byte>, m: u32, n: nat)
    requires At(input, pos, Layout(s, csid, body, m)) && n <= |Retained(body, m)|
    ensures At(input, pos, s + body[..n])
  {
    hide Tail;
    var all, k := Layout(s, csid, body, m), |s| + n;
    assert all[..k] == s + body[..n];
    AtPrefix(input, pos, all, k);
  }

  lemma AtPrefix(input: seq<byte>, pos: nat, all: seq<byte>, k: nat)
    requires At(input, pos, all) && k <= |all|
    ensures At(input, pos, all[..k])
  {
    assert input[pos..pos + |all|][..k] == input[pos..pos + k];
  }

  lemma PrefixesJoin(body: seq<byte>, k: nat, n: nat)
    requires k <= n <= |body|
    ensures body[..k] + body[k..][..n - k] == body[..n]
  {
  }

  /** Enough body bytes follow the header: the announced number of them is delivered. */
  lemma EnoughArrives(w: Wire, s: seq<byte>, h: Header, csid: byte, body: seq<byte>, m: u32) returns (end: Wire)
    requires w.open && At(w.input, w.cursor, Layout(s, csid, body, m))
    requires HeadedBy(s, h) && m > 0 && h.size <= |body|
    ensures ReceiveMessage(w, m) == (Delivered(None, Min(h.size, m), Media(h, body[..h.size])), end)
    ensures h.size == |body| ==> end == w.(cursor := w.cursor + |Layout(s, csid, body, m)|)
  {
    hide ReceiveMessage, HeadedBy, Tail;
    SizeIs24Bits(s, h);
    if h.size <= m {
      LayoutPrefix(w.input, w.cursor, s, csid, body, m, h.size);
      ArrivesInOneChunk(w, s, h, m, body[..h.size]);
      end := w.(cursor := w.cursor + |s + body[..h.size]|);
    } else {
      assert Layout(s, csid, body, m) == s + body[..m] + Tail(csid, body[m..], m);
      end := ArrivesInManyChunks(w, s, h, csid, m, body[..m], body[m..]);
      PrefixesJoin(body, m, h.size);
    }
  }

  /** With a zero chunk size no body byte is ever read. */
  lemma NothingArrives(w: Wire, s: seq<byte>, h: Header, csid: byte, body: seq<byte>)
    requires w.open && At(w.input, w.cursor, Layout(s, csid, body, 0)) && HeadedBy(s, h)
    ensures ReceiveMessage(w, 0) == (Delivered(None, 0, Media(h, [])), w.(cursor := w.cursor + |s|))
  {
    hide ReceiveMessage, HeadedBy, Layout;
    LayoutPrefix(w.input, w.cursor, s, csid, body, 0, 0);
    ArrivesInOneChunk(w, s, h, 0, []);
  }

  /** Too few body bytes before the end of the stream: nothing is delivered. */
  lemma TooLittleIsNotDelivered(w: Wire, s: seq<byte>, h: Header, csid: byte, body: seq<byte>, m: u32)
    requires w.open && At(w.input, w.cursor, Layout(s, csid, body, m))
    requires |w.input| == w.cursor + |Layout(s, csid, body, m)|
    requires HeadedBy(s, h) && m > 0 && h.size > |body|
    ensures !ReceiveMessage(w, m).0.Delivered?
  {
    hide ReceiveMessage, HeadedBy;
    SizeIs24Bits(s, h);
    if m <= |body| {
      assert |body| == m ==> Layout(s, csid, body, m) == s + body[..m] + Tail(csid, body[m..], m);
      StallsInManyChunks(w, s, h, csid, m, body[..m], body[m..]);
    } else {
      assert Layout(s, csid, body, m) == s + body;
      FirstChunkFails(w, s, h, m, body);
    }
  }

  lemma FirstChunkReadsPast(w: Wire, s: seq<byte>, h: Header, m: u32, data: seq<byte>)
    requires w.open && At(w.input, w.cursor, s + data)
    requires HeadedBy(s, h) && |data| < Min(h.size, m)
    ensures Past(ReceiveChunk(w, START, m).1, w.cursor + |s + data|)
  {
    hide ReceiveChunk, HeadedBy, ReadHeader, At;
    AtSplit(w.input, w.cursor, s, data);
    ChunkAfterHeader(w, s, h, m);
    PayloadReadsPast(w.(cursor := w.cursor + |s|), s, h, m, |data|);
  }

  lemma PayloadReadsPast(w: Wire, s: seq<byte>, h: Header, m: u32, n: nat)
    requires HeadedBy(s, h) && n < Min(h.size, m)
    ensures |s| > 0 && s[0] / 64 == 0 && ReadHeader(FRESH, s).Some?
    ensures Past(ReceivePayload(s, w, START, m).1, w.cursor + n)
  {
  }

  lemma FinishGoesForward(r: ChunkResult, w: Wire, p: Progress, m: u32, end: nat)
    requires Past(w, end)
    ensures Past(FinishMessage(r, w, p, m).1, end)
  {
    hide Join;
    JoinGoesForward(LoopAfter(w, p, m), m, end);
  }

  /** Too few body bytes, whatever follows them: the call reads past them or loses the connection. */
  lemma TooLittleReadsPast(w: Wire, s: seq<byte>, h: Header, csid: byte, body: seq<byte>, m: u32)
    requires w.open && At(w.input, w.cursor, Layout(s, csid, body, m))
    requires HeadedBy(s, h) && m > 0 && h.size > |body|
    ensures Past(ReceiveMessage(w, m).1, w.cursor + |Layout(s, csid, body, m)|)
  {
    hide HeadedBy, ReceiveChunk, FinishMessage, At, Tail;
    SizeIs24Bits(s, h);
    var (r, w1, p) := ReceiveChunk(w, START, m);
    if m <= |body| {
      assert |body| == m ==> Tail(csid, body[m..], m) == [] by {
        EmptyTail(csid, m);
      }
      var data := body[..m];
      assert Layout(s, csid, body, m) == (s + data) + Tail(csid, body[m..], m);
      AtSplit(w.input, w.cursor, s + data, Tail(csid, body[m..], m));
      FirstChunk(w, s, h, m, data);
      JoinReadsPast(LoopStart(w1, h.size, m, m), m, csid, body[m..]);
      FinishIsJoin(r, w1, h.size, m, m);
    } else {
      assert Layout(s, csid, body, m) == s + body;
      FirstChunkReadsPast(w, s, h, m, body);
      FinishGoesForward(r, w1, p, m, w.cursor + |s + body|);
    }
  }

  lemma FinishIsJoin(r: ChunkResult, w: Wire, size: u32, c: u32, m: u32)
    requires c <= size && r.Chunk?
    ensures FinishMessage(r, w, Progress([], size, c), m).1 == Join(LoopStart(w, size, c, m), m).loop.wire
  {
    hide Join;
    LoopStartsHere(w, size, c, m);
  }

  lemma SizeIs24Bits(s: seq<byte>, h: Header)
    requires HeadedBy(s, h)
    ensures h.size <= MAX24
  {
  }

  // ----- messages

  /** An audio or video message to send. */
  datatype Message = Message(msgType: byte, timestamp: u32, body: seq<byte>)

  predicate Sendable(msg: Message) {
    && (msg.msgType == AUDIO || msg.msgType == VIDEO)
    && |msg.body| < 0x1_0000_0000
    && HSize(HeaderOf(msg)) <= 12 + |msg.body|
  }

  function HeaderOf(msg: Message): Header {
    FRESH.(csid := if msg.msgType == AUDIO then CSID_AUDIO else CSID_VIDEO,
           timestamp := msg.timestamp, size := |msg.body| % 0x1_0000_0000, msgType := msg.msgType)
  }

  function MessageBytes(msg: Message, m: u32): seq<byte>
    requires Sendable(msg)
  {
    Concat(ChunkBytes(HeaderOf(msg), msg.body, m))
  }

  /** The bytes `hSize` counts as the header: one that announces an extension swallows four body bytes. */
  function CountedHeader(msg: Message): seq<byte>
    requires Sendable(msg)
  {
    (HeaderBytes(HeaderOf(msg)) + msg.body)[..HSize(HeaderOf(msg))]
  }

  function CountedBody(msg: Message): seq<byte>
    requires Sendable(msg)
  {
    (HeaderBytes(HeaderOf(msg)) + msg.body)[HSize(HeaderOf(msg))..]
  }

  lemma MessageLayout(msg: Message, m: u32)
    requires Sendable(msg)
    ensures MessageBytes(msg, m) == Layout(CountedHeader(msg), HeaderOf(msg).csid, CountedBody(msg), m)
  {
    var csid, s, body := HeaderOf(msg).csid, CountedHeader(msg), CountedBody(msg);
    var kept := s + Retained(body, m);
    var conts := Continuations(csid, Pieces(Excess(body, m), CopySize(m)));
    assert ([kept] + conts)[1..] == conts;
    assert MessageBytes(msg, m) == kept + Concat(conts);
    if |body| <= m || CopySize(m) <= 0 {
      assert conts == [];
    } else {
      TailIsContinuations(csid, body[m..], m);
    }
  }

  /** Any 12 bytes with these fields, or 16 when they announce an extension, are a header of this kind. */
  lemma LongHeaderDecodes(s: seq<byte>, t: u24, size: u32, msgType: byte) returns (h: Header)
    requires |s| == (if t == MAX24 then 16 else 12) && s[0] / 64 == 0
    requires s[1..4] == ToBigEndian24(t) && s[4..7] == ToBigEndian24(size) && s[7] == msgType
    requires KnownType(msgType)
    ensures HeadedBy(s, h) && h.timestamp == t && h.msgType == msgType && h.size == size % 0x100_0000
  {
    hide HasExtendedTimestamp;
    SentinelIsAllOnes(t);
    EndianRoundTrips(t);
    EndianRoundTrips(size);
    h := ReadHeader(FRESH, s).value;
  }

  /** What the receiver makes of the counted header. */
  lemma CountedHeaderDecodes(msg: Message) returns (h: Header)
    requires Sendable(msg) && msg.timestamp <= MAX24
    ensures HeadedBy(CountedHeader(msg), h)
    ensures h.timestamp == msg.timestamp && h.msgType == msg.msgType && h.size == |msg.body| % 0x100_0000
    ensures msg.timestamp < MAX24 ==> CountedBody(msg) == msg.body
    ensures msg.timestamp == MAX24 ==> |CountedBody(msg)| == |msg.body| - 4
  {
    hide HeadedBy, ToBigEndian24, ToLittleEndian32, HasExtendedTimestamp;
    var s, b := CountedHeader(msg), HeaderBytes(HeaderOf(msg));
    SentinelIsAllOnes(msg.timestamp);
    assert |b| == 12;
    assert s[..12] == b;
    assert s[0] == b[0] && s[1..4] == b[1..4] && s[4..7] == b[4..7] && s[7] == b[7];
    h := LongHeaderDecodes(s, msg.timestamp, |msg.body|, msg.msgType);
  }

  predicate Matches(o: Outcome, msg: Message) {
    && o.Delivered? && o.saved.None? && o.packet.Media?
    && o.packet.head.msgType == msg.msgType
    && o.packet.head.timestamp == msg.timestamp
    && o.packet.head.size == |msg.body|
    && o.packet.body == msg.body
  }

  /** The size and timestamp fit their 24-bit fields, and the chunk size is not zero unless nothing is to be cut. */
  predicate Carriable(msg: Message, m: u32) {
    msg.timestamp < MAX24 && |msg.body| <= MAX24 && (m > 0 || msg.body == [])
  }

  /** A carriable message arrives whole and exactly its own bytes are consumed, whatever follows. */
  lemma MessageArrives(w: Wire, msg: Message, m: u32)
    requires Sendable(msg) && Carriable(msg, m)
    requires w.open && At(w.input, w.cursor, MessageBytes(msg, m))
    ensures Matches(ReceiveMessage(w, m).0, msg)
    ensures ReceiveMessage(w, m).0.size == Min(|msg.body|, m)
    ensures ReceiveMessage(w, m).1 == w.(cursor := w.cursor + |MessageBytes(msg, m)|)
  {
    hide ReceiveMessage, HeadedBy, Layout, MessageBytes, HeaderOf, Matches, CountedBody, CountedHeader;
    MessageLayout(msg, m);
    var h := CountedHeaderDecodes(msg);
    LaidOutMessageArrives(w, CountedHeader(msg), h, HeaderOf(msg).csid, msg, m);
  }

  lemma LaidOutMessageArrives(w: Wire, s: seq<byte>, h: Header, csid: byte, msg: Message, m: u32)
    requires w.open && At(w.input, w.cursor, Layout(s, csid, msg.body, m))
    requires HeadedBy(s, h) && (m > 0 || msg.body == [])
    requires h.timestamp == msg.timestamp && h.msgType == msg.msgType && h.size == |msg.body|
    ensures Matches(ReceiveMessage(w, m).0, msg)
    ensures ReceiveMessage(w, m).0.size == Min(|msg.body|, m)
    ensures ReceiveMessage(w, m).1 == w.(cursor := w.cursor + |Layout(s, csid, msg.body, m)|)
  {
    hide ReceiveMessage, HeadedBy, Layout;
    if m > 0 {
      var end := EnoughArrives(w, s, h, csid, msg.body, m);
    } else {
      NothingArrives(w, s, h, csid, msg.body);
      EmptyLayout(s, csid, m);
    }
  }

  lemma EmptyLayout(s: seq<byte>, csid: byte, m: u32)
    ensures Layout(s, csid, [], m) == s
  {
  }

  lemma DeliveredTimestampFits(w: Wire, m: u32)
    ensures var o := ReceiveMessage(w, m).0;
            o.Delivered? && o.packet.Media? ==> o.packet.head.timestamp <= MAX24
  {
    hide Join, ReceiveHeader, HasExtendedTimestamp;
    var (r, w1, p) := ReceiveChunk(w, START, m);
    var (header, w2) := ReceiveHeader(w);
    if header.Some? {
      HeaderIsComplete(w);
    }
  }

  /** Sent alone, a message arrives unchanged exactly when it is carriable. */
  lemma MessageRoundTrip(input: seq<byte>, msg: Message, m: u32)
    requires Sendable(msg) && input == MessageBytes(msg, m)
    ensures Matches(ReceiveMessage(Wire(input, 0, true), m).0, msg) <==> Carriable(msg, m)
  {
    hide ReceiveMessage, HeadedBy, Layout, MessageBytes, HeaderOf;
    var w := Wire(input, 0, true);
    assert At(input, 0, MessageBytes(msg, m)) by {
      assert input[0..|input|] == input;
    }
    if Carriable(msg, m) {
      MessageArrives(w, msg, m);
    } else if msg.timestamp > MAX24 {
      DeliveredTimestampFits(w, m);
    } else {
      MessageLayout(msg, m);
      var h := CountedHeaderDecodes(msg);
      var s, csid, body := CountedHeader(msg), HeaderOf(msg).csid, CountedBody(msg);
      if m > 0 && h.size > |body| {
        TooLittleIsNotDelivered(w, s, h, csid, body, m);
      } else {
        EnoughIsNotThis(w, s, h, csid, body, msg, m);
      }
    }
  }

  /** What arrives of a message that is not carriable, when its stream holds what its header announces. */
  lemma EnoughIsNotThis(w: Wire, s: seq<byte>, h: Header, csid: byte, body: seq<byte>, msg: Message, m: u32)
    requires w.open && At(w.input, w.cursor, Layout(s, csid, body, m)) && HeadedBy(s, h)
    requires m == 0 || h.size <= |body|
    requires Sendable(msg) && !Carriable(msg, m) && msg.timestamp <= MAX24
    requires h.size == |msg.body| % 0x100_0000 && (msg.timestamp == MAX24 ==> |body| == |msg.body| - 4)
    requires msg.timestamp < MAX24 ==> body == msg.body
    ensures !Matches(ReceiveMessage(w, m).0, msg)
  {
    hide ReceiveMessage, HeadedBy, Layout, HeaderOf;
    if m == 0 {
      NothingArrives(w, s, h, csid, body);
    } else {
      var end := EnoughArrives(w, s, h, csid, body, m);
    }
  }

  /** Anywhere in a stream, a message arrives unchanged with exactly its own bytes consumed, exactly when it is
      carriable. */
  lemma MessageArrivesExactlyWhen(w: Wire, msg: Message, m: u32)
    requires Sendable(msg) && w.open && At(w.input, w.cursor, MessageBytes(msg, m))
    ensures var (o, w1) := ReceiveMessage(w, m);
            Matches(o, msg) && w1 == w.(cursor := w.cursor + |MessageBytes(msg, m)|) <==> Carriable(msg, m)
  {
    hide ReceiveMessage, HeadedBy, Layout, MessageBytes, HeaderOf, Matches, CountedHeader, CountedBody;
    if Carriable(msg, m) {
      MessageArrives(w, msg, m);
    } else if msg.timestamp > MAX24 {
      DeliveredTimestampFits(w, m);
      TimestampDiffers(ReceiveMessage(w, m).0, msg);
    } else {
      MessageLayout(msg, m);
      var h := CountedHeaderDecodes(msg);
      var s, csid, body := CountedHeader(msg), HeaderOf(msg).csid, CountedBody(msg);
      if m > 0 && h.size > |body| {
        TooLittleReadsPast(w, s, h, csid, body, m);
      } else {
        EnoughIsNotThis(w, s, h, csid, body, msg, m);
      }
    }
  }

  lemma TimestampDiffers(o: Outcome, msg: Message)
    requires msg.timestamp > MAX24
    requires o.Delivered? && o.packet.Media? ==> o.packet.head.timestamp <= MAX24
    ensures !Matches(o, msg)
  {
  }

  /** What a message that fits in one chunk looks like, byte for byte, and how a continuation starts. */
  lemma MessageOnTheWire(msg: Message, m: u32, data: seq<byte>)
    requires Sendable(msg) && |msg.body| <= m
    ensures msg.msgType == 0x08 || msg.msgType == 0x09
    ensures var s := MessageBytes(msg, m);
            && |s| == 12 + |msg.body| && s[0] == (if msg.msgType == 0x08 then 0x04 else 0x05)
            && Spelled(s[1..4]) == msg.timestamp % 0x100_0000 && Spelled(s[4..7]) == |msg.body| % 0x100_0000
            && s[7] == msg.msgType && s[8..12] == [0, 0, 0, 0] && s[12..] == msg.body
    ensures Continuation(HeaderOf(msg).csid, data) == [if msg.msgType == 0x08 then 0xC4 else 0xC5] + data
  {
    hide HeaderBytes, Spelled, ToBigEndian24, Layout, HasExtendedTimestamp;
    var b := HeaderBytes(HeaderOf(msg));
    HeaderOnTheWire(HeaderOf(msg));
    HeaderFields(HeaderOf(msg));
    MessageLayout(msg, m);
    OneChunkLayout(CountedHeader(msg), HeaderOf(msg).csid, CountedBody(msg), m);
    assert MessageBytes(msg, m) == b + msg.body;
    var s := b + msg.body;
    assert s[1..4] == b[1..4] && s[4..7] == b[4..7] && s[8..12] == b[8..12] && s[12..] == msg.body;
    assert ToLittleEndian32(0) == [0, 0, 0, 0];
  }

  lemma OneChunkLayout(s: seq<byte>, csid: byte, body: seq<byte>, m: u32)
    requires |body| <= m
    ensures Layout(s, csid, body, m) == s + body
  {
  }

  // ----- streams of messages

  function StreamBytes(msgs: seq<Message>, m: u32): seq<byte>
    requires forall i :: 0 <= i < |msgs| ==> Sendable(msgs[i])
  {
    if msgs == [] then [] else MessageBytes(msgs[0], m) + StreamBytes(msgs[1..], m)
  }

  /** `count` receive calls, one after the other. */
  function ReceiveMany(w: Wire, m: u32, count: nat): (seq<Outcome>, Wire)
    decreases count
  {
    if count == 0 then ([], w) else
    var (o, w1) := ReceiveMessage(w, m);
    var (os, w2) := ReceiveMany(w1, m, count - 1);
    ([o] + os, w2)
  }

  /** Call after call returns the next message and consumes exactly its bytes. */
  predicate ReceivedExactly(w: Wire, msgs: seq<Message>, m: u32)
    requires forall i :: 0 <= i < |msgs| ==> Sendable(msgs[i])
    decreases |msgs|
  {
    msgs == [] ||
    var (o, w1) := ReceiveMessage(w, m);
    && Matches(o, msgs[0]) && w1 == w.(cursor := w.cursor + |MessageBytes(msgs[0], m)|)
    && ReceivedExactly(w1, msgs[1..], m)
  }

  /** Every list of messages is received as sent, each call consuming its own message's bytes, exactly when all of
      them are carriable. */
  lemma {:induction false} StreamRoundTrip(w: Wire, msgs: seq<Message>, m: u32)
    requires forall i :: 0 <= i < |msgs| ==> Sendable(msgs[i])
    requires w.open && At(w.input, w.cursor, StreamBytes(msgs, m))
    ensures ReceivedExactly(w, msgs, m) <==> forall i :: 0 <= i < |msgs| ==> Carriable(msgs[i], m)
    decreases |msgs|
  {
    hide ReceiveMessage, MessageBytes, Matches, Sendable, Carriable;
    if msgs != [] {
      AtSplit(w.input, w.cursor, MessageBytes(msgs[0], m), StreamBytes(msgs[1..], m));
      MessageArrivesExactlyWhen(w, msgs[0], m);
      if Carriable(msgs[0], m) {
        StreamRoundTrip(ReceiveMessage(w, m).1, msgs[1..], m);
        assert forall i :: 0 < i < |msgs| ==> msgs[i] == msgs[1..][i - 1];
      }
    }
  }

  /** What that means for a list of carriable messages: the outcomes in order, and the end of the stream. */
  lemma {:induction false} StreamIsReceived(w: Wire, msgs: seq<Message>, m: u32)
    requires forall i :: 0 <= i < |msgs| ==> Sendable(msgs[i]) && Carriable(msgs[i], m)
    requires w.open && At(w.input, w.cursor, StreamBytes(msgs, m))
    ensures var (os, w1) := ReceiveMany(w, m, |msgs|);
            && |os| == |msgs|
            && (forall i :: 0 <= i < |msgs| ==> Matches(os[i], msgs[i]) && os[i].size == Min(|msgs[i].body|, m))
            && w1 == w.(cursor := w.cursor + |StreamBytes(msgs, m)|)
    decreases |msgs|
  {
    hide ReceiveMessage, MessageBytes, Matches, Sendable, Carriable;
    if msgs != [] {
      AtSplit(w.input, w.cursor, MessageBytes(msgs[0], m), StreamBytes(msgs[1..], m));
      MessageArrives(w, msgs[0], m);
      StreamIsReceived(ReceiveMessage(w, m).1, msgs[1..], m);
    }
  }
}
