/** The media loop of src/rtmp/session/rtmp_watcher_session.cc. */
module WatcherMedia {
  import opened Bytes
  import opened MediaMessage
  import opened ChunkReceiver
  import opened ChunkRoundTrip
  import Session
  import SessionSafety

  /** What one call hands to the delegate: nothing after an error or when the first chunk was empty. */
  function Dispatched(o: Outcome): seq<Packet> {
    if o.Delivered? && o.saved.None? && o.size > 0 && o.packet.Media? then [o.packet] else []
  }

  /** The packets of `rounds` passes, unless a call never returns. */
  function MediaFrom(w: Wire, m: u32, rounds: nat): seq<Packet>
    decreases rounds
  {
    if rounds == 0 then [] else
    var (o, w1) := ReceiveMessage(w, m);
    if o.Stalled? then [] else Dispatched(o) + MediaFrom(w1, m, rounds - 1)
  }

  /** The worker; `rounds` is the number of passes before `stopped_` is set. */
  method RetrieveMedia(socket: RtmpSocket, maxChunkSize: u32, rounds: nat) returns (delivered: seq<Packet>)
    modifies socket
    ensures delivered == MediaFrom(old(socket.View()), maxChunkSize, rounds)
  {
    hide ReceiveMessage;
    delivered := [];
    ghost var all := MediaFrom(socket.View(), maxChunkSize, rounds);
    var passes := 0;
    while passes < rounds
      invariant passes <= rounds
      invariant all == delivered + MediaFrom(socket.View(), maxChunkSize, rounds - passes)
    {
      var outcome := socket.ReceiveDynamicPacketWithDynamicHeader(maxChunkSize);
      if outcome.Stalled? {
        return;
      }
      passes := passes + 1;
      if outcome.Delivered? {
        if outcome.saved.None? && outcome.size > 0 {
          if outcome.packet.Media? {
            delivered := delivered + [outcome.packet];
          }
        }
      }
    }
  }

  predicate Carries(p: Packet, msg: Message) {
    && p.Media? && p.head.msgType == msg.msgType && p.head.timestamp == msg.timestamp
    && p.head.size == |msg.body| && p.body == msg.body
  }

  predicate CarriesAll(ps: seq<Packet>, msgs: seq<Message>) {
    |ps| == |msgs| && forall i :: 0 <= i < |ps| ==> Carries(ps[i], msgs[i])
  }

  function NonEmpty(msgs: seq<Message>): seq<Message> {
    if msgs == [] then [] else (if msgs[0].body != [] then [msgs[0]] else []) + NonEmpty(msgs[1..])
  }

  /** A refused header that announces an empty message, in the place of a continuation. */
  const REFUSED: seq<byte> := [4, 0, 0, 0, 0, 0, 0, 7, 0, 0, 0, 0]

  lemma RefusedEndsLoop(s: Loop, m: u32)
    requires s.wire.open && s.progress.current > 0 && At(s.wire.input, s.wire.cursor, REFUSED)
    ensures Join(s, m).Finished? && Join(s, m).loop.error == Some(InvalidArgument)
    ensures Join(s, m).loop.progress.data == s.progress.data
  {
    hide ReceiveHeader, At, StageInv, ReadHeader;
    EmptyHeaderDecodes(7);
    HeaderInStreamIsRead(s.wire, REFUSED);
    NothingMissing(LoopStep(s, m), m);
  }

  /** A message whose loop saw an error is not handed over, though its first chunk arrived. */
  lemma ErroneousMessageIsDropped(w: Wire, s: seq<byte>, h: Header, m: u32, data: seq<byte>)
    requires w.open && HeadedBy(s, h) && 0 < m == |data| < h.size
    requires At(w.input, w.cursor, (s + data) + REFUSED)
    ensures ReceiveMessage(w, m).0 == Delivered(Some(InvalidArgument), m, Media(h, data))
    ensures MediaFrom(w, m, 1) == []
  {
    hide ReceiveChunk, HeadedBy, Join, At;
    AtSplit(w.input, w.cursor, s + data, REFUSED);
    FirstChunk(w, s, h, m, data);
    var w1 := w.(cursor := w.cursor + |s + data|);
    RefusedEndsLoop(LoopStart(w1, h.size, m, m), m);
    MessageEnds(w, m, w1, h, data, Join(LoopStart(w1, h.size, m, m), m).loop);
    assert data + [] == data;
  }

  /** The delegate gets exactly the messages that were sent with a body, in the order in which they were sent. */
  lemma {:induction false} WatcherReceivesStream(w: Wire, msgs: seq<Message>, m: u32)
    requires forall i :: 0 <= i < |msgs| ==> Sendable(msgs[i]) && Carriable(msgs[i], m)
    requires w.open && At(w.input, w.cursor, StreamBytes(msgs, m))
    ensures CarriesAll(MediaFrom(w, m, |msgs|), NonEmpty(msgs))
    decreases |msgs|
  {
    hide ReceiveMessage, MessageBytes, Sendable;
    if msgs != [] {
      AtSplit(w.input, w.cursor, MessageBytes(msgs[0], m), StreamBytes(msgs[1..], m));
      MessageArrives(w, msgs[0], m);
      WatcherReceivesStream(ReceiveMessage(w, m).1, msgs[1..], m);
    }
  }

  /** From the ladder to the delegate: a server that cuts its messages at the size it announced is understood,
      whatever size the session itself had sent. */
  lemma AnnouncedSizeIsUnderstood(s0: Session.State, net: Session.Network, w: Wire, msgs: seq<Message>)
    requires SessionSafety.Fresh(s0)
    requires var m := SessionSafety.ReplyTo(Session.Watcher, SessionSafety.CHUNK_SIZE_STEP, net).number;
             && (forall i :: 0 <= i < |msgs| ==> Sendable(msgs[i]) && Carriable(msgs[i], m))
             && w.open && At(w.input, w.cursor, StreamBytes(msgs, m))
    ensures var sizes := Session.RunFrom(Session.Watcher, 0, s0, net).mediaChunkSize;
            sizes == [] || CarriesAll(MediaFrom(w, sizes[0], |msgs|), NonEmpty(msgs))
  {
    hide Sendable, Carriable, MediaFrom, CarriesAll, Session.RunFrom, SessionSafety.ReplyTo;
    var m := SessionSafety.ReplyTo(Session.Watcher, SessionSafety.CHUNK_SIZE_STEP, net).number;
    SessionSafety.MediaLoopUsesAnnouncedSize(Session.Watcher, s0, net);
    WatcherReceivesStream(w, msgs, m);
  }
}
