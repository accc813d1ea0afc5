/** Sending: `newChunkedPacket` of private/rtmp/rtmp_packet_generator.h and the broadcaster's send loops. */
module ChunkSender {
  import opened Bytes
  import opened MediaMessage
  import opened ChunkRoundTrip

  /** The serialized forms of a list of messages. */
  function Serialized(chunks: seq<RtmpMediaMessage>): (ss: seq<seq<byte>>)
    reads chunks
    ensures |ss| == |chunks|
  {
    seq(|chunks|, i requires 0 <= i < |chunks| reads chunks => chunks[i].Serialized())
  }

  lemma SerializedCons(head: RtmpMediaMessage, rest: seq<RtmpMediaMessage>)
    ensures Serialized([head] + rest) == [head.Serialized()] + Serialized(rest)
  {
    hide HeaderBytes;
  }

  /** The message itself, cut to `maxSize` body bytes, and what was cut off. */
  method NewHead(maxSize: u32, msg: Message) returns (head: RtmpMediaMessage, remainingData: seq<seq<byte>>)
    requires Sendable(msg)
    ensures fresh(head)
    ensures [head.Serialized()] + Continuations(HeaderOf(msg).csid, remainingData)
            == ChunkBytes(HeaderOf(msg), msg.body, maxSize)
  {
    hide HeaderBytes, Pieces, Continuations;
    var csid := if msg.msgType == AUDIO then CSID_AUDIO else CSID_VIDEO;
    head := new RtmpMediaMessage.FromTag(csid, msg.msgType, msg.timestamp, |msg.body| % 0x1_0000_0000, msg.body);
    assert head.Head() == HeaderOf(msg);
    WrittenHeaderNotEmpty(HeaderOf(msg));
    remainingData := head.TrunkToSize(maxSize);
    assert head.payload != [];
  }

  lemma WrittenHeaderNotEmpty(h: Header)
    ensures |HeaderBytes(h)| == [12, 8, 4, 1][h.chunkType] && HSize(h) > 0
  {
  }

  lemma SerializedContinuations(chunks: seq<RtmpMediaMessage>, csid: byte, ps: seq<seq<byte>>)
    requires |chunks| == |ps|
    requires forall j :: 0 <= j < |ps| ==> chunks[j].Serialized() == Continuation(csid, ps[j])
    ensures Serialized(chunks) == Continuations(csid, ps)
  {
    hide HeaderBytes, Continuation;
  }

  method NewContinuations(csid: byte, msgType: byte, remainingData: seq<seq<byte>>)
    returns (chunks: seq<RtmpMediaMessage>)
    ensures fresh(chunks)
    ensures Serialized(chunks) == Continuations(csid, remainingData)
  {
    chunks := [];
    for i := 0 to |remainingData|
      invariant |chunks| == i && fresh(chunks)
      invariant forall j :: 0 <= j < i ==> chunks[j].Serialized() == Continuation(csid, remainingData[j])
    {
      hide HeaderBytes, Continuation;
      var continuation := new RtmpMediaMessage.Continue(csid, msgType, remainingData[i]);
      ContinuationIsHeaderAndData(continuation.Head(), remainingData[i]);
      chunks := chunks + [continuation];
    }
    hide HeaderBytes, Continuation, Continuations, Serialized;
    SerializedContinuations(chunks, csid, remainingData);
  }

  lemma ContinuationIsHeaderAndData(h: Header, data: seq<byte>)
    requires h.chunkType == 3
    ensures HeaderBytes(h) + data == Continuation(h.csid, data)
  {
  }

  /** The head message, cut to `maxSize` body bytes, followed by one continuation message per piece. */
  method NewChunkedPacket(maxSize: u32, msg: Message) returns (chunks: seq<RtmpMediaMessage>)
    requires Sendable(msg)
    ensures fresh(chunks)
    ensures Serialized(chunks) == ChunkBytes(HeaderOf(msg), msg.body, maxSize)
  {
    hide ChunkBytes, Continuations, Sendable, HeaderBytes, HeaderOf;
    var head, remainingData := NewHead(maxSize, msg);
    var rest := NewContinuations(HeaderOf(msg).csid, msg.msgType, remainingData);
    chunks := [head] + rest;
    SerializedCons(head, rest);
  }

  // ----- writing

  /** `t` is `s` followed by a prefix of `all`, the whole of it when `complete`. */
  ghost predicate ExtendsBy(s: seq<byte>, t: seq<byte>, all: seq<byte>, complete: bool) {
    s <= t <= s + all && (complete ==> t == s + all)
  }

  lemma ConcatThree(a: seq<seq<byte>>, x: seq<byte>, c: seq<seq<byte>>)
    ensures Concat(a + [x]) == Concat(a) + x
    ensures Concat(a + [x] + c) == Concat(a) + x + Concat(c)
  {
    ConcatOne(x);
    hide Concat;
    ConcatAppend(a, [x]);
    ConcatAppend(a + [x], c);
  }

  lemma SplitAround(ss: seq<seq<byte>>, i: nat)
    requires i < |ss|
    ensures ss[..i + 1] == ss[..i] + [ss[i]]
    ensures ss == ss[..i] + [ss[i]] + ss[i + 1..]
  {
  }

  lemma ConcatAround(ss: seq<seq<byte>>, i: nat)
    requires i < |ss|
    ensures Concat(ss[..i + 1]) == Concat(ss[..i]) + ss[i]
    ensures Concat(ss) == Concat(ss[..i]) + ss[i] + Concat(ss[i + 1..])
  {
    hide Concat;
    SplitAround(ss, i);
    ConcatThree(ss[..i], ss[i], ss[i + 1..]);
  }

  lemma PartOfConcat(start: seq<byte>, t: seq<byte>, ss: seq<seq<byte>>, i: nat, complete: bool)
    requires i < |ss| && ExtendsBy(start + Concat(ss[..i]), t, ss[i], complete)
    ensures ExtendsBy(start, t, Concat(ss), false)
    ensures complete ==> t == start + Concat(ss[..i + 1])
  {
    hide Concat;
    ConcatAround(ss, i);
    var a, b, c := Concat(ss[..i]), ss[i], Concat(ss[i + 1..]);
    assert start + a + b == start + (a + b);
    assert start + a + b <= start + (a + b + c);
  }

  /** The sending side of a socket; `accepts(i)` is how many bytes of its i-th write the transport takes. */
  class Outbox {
    const accepts: nat -> nat
    var writes: nat
    var written: seq<byte>
    var isOpen: bool

    constructor (accepts: nat -> nat)
      ensures this.accepts == accepts && writes == 0 && written == [] && isOpen
    {
      this.accepts := accepts;
      writes, written, isOpen := 0, [], true;
    }

    /** A write that is not taken whole fails, and the caller closes the socket. */
    method SendPacket(packet: RtmpMediaMessage)
      modifies this, packet`payload
      ensures var data := old(packet.Serialized());
              && packet.Serialized() == data
              && writes == old(writes) + 1
              && (isOpen <==> old(isOpen) && accepts(old(writes)) >= |data|)
              && ExtendsBy(old(written), written, data, isOpen)
    {
      var data := packet.Serialize();
      var taken := accepts(writes);
      writes := writes + 1;
      if taken >= |data| {
        written := written + data;
      } else {
        written := written + data[..taken];
        isOpen := false;
      }
    }
  }

  /** The loop over the packets of one message; it stops at the first failed write. */
  method SendPackets(outbox: Outbox, packets: seq<RtmpMediaMessage>)
    requires outbox.isOpen
    modifies outbox, packets
    ensures ExtendsBy(old(outbox.written), outbox.written, Concat(old(Serialized(packets))), outbox.isOpen)
  {
    ghost var ss := Serialized(packets);
    ghost var start := outbox.written;
    var i := 0;
    while i < |packets|
      invariant 0 <= i <= |packets|
      invariant Serialized(packets) == ss
      invariant outbox.isOpen
      invariant outbox.written == start + Concat(ss[..i])
    {
      SendAt(outbox, packets, i);
      PartOfConcat(start, outbox.written, ss, i, outbox.isOpen);
      if !outbox.isOpen {
        return;
      }
      i := i + 1;
    }
    assert ss[..i] == ss;
  }

  method SendAt(outbox: Outbox, packets: seq<RtmpMediaMessage>, i: nat)
    requires i < |packets| && outbox.isOpen
    modifies outbox, packets
    ensures Serialized(packets) == old(Serialized(packets))
    ensures ExtendsBy(old(outbox.written), outbox.written, old(Serialized(packets))[i], outbox.isOpen)
  {
    hide HeaderBytes, ExtendsBy;
    outbox.SendPacket(packets[i]);
    assert forall j :: 0 <= j < |packets| ==> packets[j].Serialized() == old(packets[j].Serialized());
  }

  /** `sendAudioMessage` and `sendVideoMessage`: the peer gets a prefix of the message's bytes,
      and all of them unless the connection is lost. */
  method SendMessage(outbox: Outbox, chunkSize: u32, msg: Message)
    requires Sendable(msg)
    modifies outbox
    ensures !old(outbox.isOpen) ==> outbox.written == old(outbox.written) && !outbox.isOpen
    ensures old(outbox.isOpen) ==>
              ExtendsBy(old(outbox.written), outbox.written, MessageBytes(msg, chunkSize), outbox.isOpen)
  {
    if !outbox.isOpen {
      return;
    }
    hide ChunkBytes, ExtendsBy;
    var packets := NewChunkedPacket(chunkSize, msg);
    SendPackets(outbox, packets);
  }
}
