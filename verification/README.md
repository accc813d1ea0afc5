# RtmpKit: a verified model

RtmpKit is an RTMP client: it publishes to and plays from a media server over TCP. This project models the parts of it
that carry the protocol and proves what they promise:

* **Chunking** (sections 5.3.1 and 5.4.1 of Adobe's RTMP Specification 1.0). A message is cut into a headed chunk and
  Type 3 continuations; the receiver is a chain of partial reads inside a continuation loop. `MediaMessage.dfy`,
  `ChunkSender.dfy`, `ChunkReceiver.dfy` and `ChunkRoundTrip.dfy`, over `Bytes.dfy` and `BitCount.dfy`.
* **AMF0** (sections 2.2 to 2.11 of Adobe's AMF 0 specification): printer, parser, and the connect and createStream
  commands built with them. `Amf0.dfy`, `Amf0Codec.dfy`, `Commands.dfy`.
* **Sessions**: the handshake and the command ladder of a broadcaster and of a watcher, and the watcher's media loop.
  `Replies.dfy`, `Session.dfy`, `SessionSafety.dfy`, `SessionRuns.dfy`, `WatcherMedia.dfy`.
* **The worker queue**, as interleaved critical sections. `WorkerQueue.dfy`.
* **The network quality controller**, over whole runs. `NetworkMetrics.dfy`.
* **The duration-tracking buffer** with its shrinking. `BufferQueue.dfy`.
* **FLV files** (Annex E of the Adobe Flash Video File Format Specification 10.1). `Flv.dfy`.
* **The AVC configuration record** (section 5.2.4.1 of ISO/IEC 14496-15:2004). `AvcConfig.dfy`.

Code that changes state is a class or a method, proved equal to a function of the old state; the lemmas are about
those functions. What the bytes are, and what the gates, thresholds and counters come to, is stated apart from these
functions as well, by numbers and byte by byte. The transport is all bytes the peer ever sends with a cursor and an
open flag (`ChunkReceiver.Wire`), or, for sessions, one outcome per socket operation (`Session.Network`), chosen
freely. A double is its eight bytes. Reads and writes past the end of a buffer, which the source does not guard, are
preconditions of the methods; the functions that specify them say `Overrun`. `dafny verify dfyconfig.toml` checks
everything.

## What the proofs say about the code

Where a promise of the code fails, the proofs say exactly when:

* A message arrives whole exactly when its timestamp is below 0xFFFFFF, its body is shorter than 2^24 bytes and the
  chunk size is positive or the body empty (`MessageRoundTrip`). A stream of messages is received with every call
  consuming its own message exactly when all of them are such messages (`StreamRoundTrip`), and a
  watcher that uses the announced chunk size hands over exactly those with a body (`AnnouncedSizeIsUnderstood`).
* Without errors, in every pass of the continuation loop the first chunk, the accumulated and the missing bytes add up to
  the announced size, and the loop ends after exactly one pass less than there are chunks (`ContinuationLoopConserves`).
* The comment at src/rtmp/rtmp_socket.cc:30 says that an error ends the continuation loop. The size zeroed there is
  recomputed nine lines further down, so it does exactly when the error is a header refused for its type that announces
  an empty message (`ErrorEndsLoopExactlyWhen`); after a lost connection the loop guard holds for ever
  (`StallNeverEnds`). A call is said to stall exactly when the guard holds after any number of passes
  (`StalledExactlyWhenLoopNeverEnds`).
* `hSize` counts four bytes for an extended timestamp that `serialize` never writes (`HSizeIsHeaderLength`).
* `trunkToSize` loses the excess exactly when the chunk size is zero or does not fit in a signed 32-bit integer
  (`CutConserves`).
* An AMF0 object is rebuilt exactly when its keys are not empty, keys and strings are shorter than 65536 bytes and no key
  length has the high byte 9, which the parser takes for the end marker (`ObjectRoundTrip`); this holds for every
  enumeration order of the dictionary. A list of values, and the body of a command, is read back exactly when every value
  in it fits (`ListRoundTrip`, `ConnectBodyDecodes`, `CreateStreamBodyDecodes`).
* The default items that the worker of the queue takes are exactly as many as the removals that empty the queue between
  its check and its pop with no push in between (`DefaultsAreUnfilledGaps`).
* A shrink that erases takes every item, and leaves the tracked total at the target, exactly when the target is not above
  the remainder of the average (`ShrinkEmptiesExactlyWhen`): one shrink of an exactly tracked buffer can leave nothing to
  play in a buffer that counts as ready (`OneShrinkEmptiesReadyBuffer`).
* `isSuccessfull` of RtmpSampleAccess refuses a stream with audio alone, since the second flag overwrites the first
  (`AudioAloneIsRefused`).
* An error of the socket that asks for a reconnection reaches a delegate twice, from the socket and through the session.
  The calls of a run are exact with these included (`CallsAreExact`), and a reconnection is asked for exactly after a
  rejected status or such an error (`ReconnectionExactlyWhen`).
* The end of the handshake is announced after the start of the session (`CallsAreExact`), and the media loop is started
  even when the socket was closed during the last step (`MediaLoopUsesAnnouncedSize`).
* The AAC packet type is read from the flag byte and never is the one that was written (`PacketTypeIsLost`), and an FLV
  timestamp survives exactly when it fits in 24 bits (`TimestampsSurvive`).

## Model

The main results come first, then the operations and the lemmas they rest on, file by file.

| member | source | states |
|---|---|---|
| ChunkRoundTrip.MessageRoundTrip | private/rtmp/rtmp_packet_generator.h:38-54 | receiving undoes sending exactly when the timestamp is below 0xFFFFFF, the body is shorter than 2^24 bytes and the chunk size is positive or the body empty |
| ChunkRoundTrip.StreamRoundTrip | src/rtmp/session/rtmp_watcher_session.cc:362-402 | repeated receiving returns a list of messages in order, each call consuming exactly its own message, exactly when every message is carriable |
| ChunkRoundTrip.ContinuationLoopConserves | src/rtmp/rtmp_socket.cc:17-40 | in every pass first chunk, accumulated and missing bytes add up to the announced size; the loop takes exactly ceil(n/m) - 1 passes and has then collected the rest of the body |
| ChunkReceiver.StalledExactlyWhenLoopNeverEnds | src/rtmp/rtmp_socket.cc:6-68 | a call is said to stall exactly when its loop never ends |
| ChunkReceiver.ErrorEndsLoopExactlyWhen | src/rtmp/rtmp_socket.cc:26-39 | an error in the loop ends it exactly when a header is refused for its type and announces an empty message |
| MediaMessage.HeaderRoundTrip | src/rtmp/message/rtmp_media_message.cc:6-111 | for all four chunk types, reading a written header restores every field that type carries and leaves the others alone, exactly when the chunk stream id leaves the type bits alone, the fields fit and no extension is announced |
| MediaMessage.CutConserves | src/rtmp/message/rtmp_media_message.cc:113-154 | kept body and pieces join to the body exactly when nothing is to be cut or the chunk size is between 1 and 2^31 - 1 |
| MediaMessage.CutCount | src/rtmp/message/rtmp_media_message.cc:113-154 | the number of chunks is the body size divided by the chunk size, rounded up, and all but the last are full |
| Amf0.ObjectRoundTrip | src/amf/0/amf0_serializer.cc:139-158 | for every order of its keys an object is rebuilt exactly when keys and strings fit, and then the cursor is just past the end marker |
| Amf0.ValueRoundTrip | src/amf/0/amf0_serializer.cc:31-78 | a single printed value is read back exactly when it fits |
| Amf0.ListRoundTrip | src/amf/0/amf0_deserializer.cc:10-77 | a concatenation of printed values is read back as exactly that list exactly when all of them fit |
| Amf0.EcmaArrayParses | src/amf/0/amf0_deserializer.cc:110-138 | an ECMA array with short enough keys and values is read back for every order of its keys: with the number of its entries whatever follows, and at the end of the data also with a larger one |
| Commands.RtmpCommandMessage.SerializeConnect | src/rtmp/message/command/rtmp_connect_command_message.cc:34-78 | a complete 12-byte header and the body; the length inserted at offset 4 is the number of bytes behind the header exactly when that is below 2^24 |
| Commands.RtmpCommandMessage.SerializeCreateStream | src/rtmp/message/command/rtmp_create_stream_command_message.cc:15-55 | the same with an 8-byte header |
| Commands.ConnectBodyDecodes | src/rtmp/message/command/rtmp_connect_command_message.cc:34-78 | the body decodes to name, transaction, properties and arguments exactly when name, keys and strings are short enough |
| Commands.CreateStreamBodyDecodes | src/rtmp/message/command/rtmp_create_stream_command_message.cc:15-55 | the body decodes to name, transaction and the properties, or null when there are none, exactly when name, keys and strings are short enough |
| SessionSafety.LadderIsFollowed | src/rtmp/session/rtmp_broadcaster_session.cc:34-308 | for every behaviour of server and network the attempted steps are a start of the fixed ladder with the right numbers, each is attempted exactly when all before it succeeded and its check passes, and the socket operations are exactly theirs |
| SessionSafety.CallsAreExact | src/rtmp/session/rtmp_watcher_session.cc:40-438 | all calls a delegate gets from a run, in order: those of socket errors, then at most one start of the session, exactly after the whole ladder over an open socket, or the end after a rejected status, and the end of the handshake last |
| SessionSafety.ReconnectionExactlyWhen | src/rtmp/session/rtmp_session.cc:165-169 | a delegate is asked to reconnect exactly after a rejected status or one of the five errors in an operation of the run |
| SessionSafety.MediaLoopUsesAnnouncedSize | src/rtmp/session/rtmp_watcher_session.cc:159-177 | the media loop is started exactly by a watcher whose ladder succeeded, with the chunk size the server announced |
| SessionSafety.StartedSessionPassedGates | src/rtmp/session/rtmp_broadcaster_session.cc:127-308 | a started session has seen version 3, a non-zero window, accepted connect and status replies and, for a watcher, granted access, on a socket that never closed |
| SessionRuns.BroadcastRuns | src/rtmp/session/rtmp_broadcaster_session.cc:34-308 | where the server agrees and nothing goes wrong, every step of a broadcaster in order with its number, the chunk size it ends with, and that the session starts |
| SessionRuns.WatchRuns | src/rtmp/session/rtmp_watcher_session.cc:40-438 | the same for a watcher that is granted video, with the chunk size its media loop gets |
| SessionRuns.ErrorStatusEndsSession | src/rtmp/session/rtmp_broadcaster_session.cc:268-296 | an onStatus object with the level "error" never lets a session start, and once it is read a reconnection is asked for |
| SessionRuns.AttemptedStepsWereAllowed | src/rtmp/session/rtmp_broadcaster_session.cc:41-298 | a session gets behind the version only with version 3 and behind the window only with one, and attempts no command over a socket that was closed |
| Replies.StatusDecided | src/rtmp/message/command/rtmp_onstatus_command_response_message.cc:27-77 | a printed status is accepted exactly when its "level" is a string other than "error" |
| Replies.ConnectDecided | src/rtmp/message/command/rtmp_connect_command_response_message.cc:28-93 | a printed connect response is accepted exactly when its properties are not empty and the "code" behind them is a string other than "error" |
| WatcherMedia.AnnouncedSizeIsUnderstood | src/rtmp/session/rtmp_watcher_session.cc:159-177 | a server that cuts at the size it announced is understood, end to end |
| WatcherMedia.WatcherReceivesStream | src/rtmp/session/rtmp_watcher_session.cc:362-402 | of every stream of carriable messages the delegate gets exactly those with a body, in order |
| WorkerQueue.QueueDeliversInOrder | private/queue.h:150-174 | in every interleaving without removals the handled items, the one in hand and the queued ones are the accepted pushes in order, and no default item is handled |
| WorkerQueue.QueueIsSafe | private/queue.h:83-220 | in every interleaving the real handled items are a subsequence of the pushes, and there are at most as many default items as removals |
| WorkerQueue.DefaultsAreUnfilledGaps | private/queue.h:83-220 | in every interleaving the default items taken are exactly as many as the removals that empty the queue between check and pop with no push in between |
| NetworkMetrics.UpgradesAndStallsArePaidFor | src/network_performance_metrics.cc:117-152 | the bound for every run from construction, with at most 31 stable seconds and 5 errors |
| NetworkMetrics.LadderIsAnnounced | src/network_performance_metrics.cc:154-176 | with a listener, level = 5 + upgrades - downgrades, and replaying the notices one by one gives every level change |
| NetworkMetrics.LevelMovesExactlyWhen | src/network_performance_metrics.cc:117-152 | by the numbers: exactly when one reading lowers, raises or keeps the level, and what becomes of the counters |
| NetworkMetrics.HealthyReadingsRaise | src/network_performance_metrics.cc:117-152 | from zero stable seconds 31 readings of at least a third of the rate, each unlike the one before, keep the level and the 32nd raises it |
| NetworkMetrics.SixRepetitionsLower | src/network_performance_metrics.cc:122-134 | from zero errors five repetitions of a reading keep the level and the sixth lowers it |
| NetworkMetrics.AnnouncedRates | src/network_performance_metrics.cc:154-181 | a step down is announced with nine tenths of the byte rate, a step up with eleven tenths |
| BufferQueue.ShrinkStaysInside | private/buffer_queue.h:203-219 | the erased range is inside the list exactly when the rounding loss is below new size plus average |
| BufferQueue.ShrinkHitsTarget | private/buffer_queue.h:186-221 | with equal durations the tracked total becomes the target and the real one stays less than one item above it |
| BufferQueue.ShrinkEmptiesExactlyWhen | private/buffer_queue.h:186-221 | an erasing shrink takes every item exactly when the target is not above the remainder of the average; the tracked total is then at a positive target |
| BufferQueue.SyncEmptiesReadyExactlyWhen | private/buffer_queue.h:66-72 | the exact condition under which syncing leaves a ready buffer ready and empty |
| BufferQueue.TotalIsExact | private/buffer_queue.h:79-184 | in every run without shrinking the total is the sum of the queued durations, and the buffer is ready exactly when that reaches the minimum |
| BufferQueue.SyncKeepsReady | private/buffer_queue.h:66-72 | in every reachable state shrinking keeps a ready buffer ready |
| BufferQueue.BufferDeliversInOrder | private/buffer_queue.h:163-184 | with pushes and pops the items handed out and then the queued ones are the pushed items in order |
| BufferQueue.BufferKeepsOrder | private/buffer_queue.h:66-221 | in every run, clears and shrinks included, the items handed out and then the queued ones are a subsequence of the pushed ones |
| Flv.FileIsLoaded | src/flv/flv_mediaitem.cc:10-134 | from a whole file, header and optional tail included, to the three lists and the callbacks in file order |
| AvcConfig.PacketRoundTrip | src/mediautils.cc:9-134 | a built packet yields both parameter sets, the same timestamp and a cursor at its end, exactly when the NAL length size is a multiple of 4 and both lengths fit |
| BitCount.FastCountIsPlainCount | private/utils.h:172-177 | the multiply-and-shift count equals the number of set bits for every 32-bit word |
| BitCount.SentinelIsAllOnes | private/typed_tag.h:72-75 | the test of message headers, which is the fast count of the machine word, announces an extension on a 24-bit timestamp exactly when all its bits are set |
| Bytes.EndianRoundTrips | private/utils.h:48-158 | decoding undoes encoding up to truncation to the width of the field, for 16, 24 and 32 bits in both byte orders |
| Bytes.BigEndianSpells | private/utils.h:116-158 | the big-endian encodings spell the number in base 256, cut to 16, 24 or 32 bits |
| Bytes.BigEndianReads | private/utils.h:48-81 | the big-endian decodings give the number that is spelled |
| Bytes.LittleEndianIsBackwards | private/utils.h:55-149 | the little-endian encodings and decodings are the big-endian ones backwards |
| BitCount.FastTestFindsSentinel | private/typed_tag.h:72-75 | on a 24-bit field "at least 24 set bits" holds for 0xFFFFFF only |
| MediaMessage.HSizeIsHeaderLength | src/rtmp/message/rtmp_message.cc:77-96 | `hSize` is the length of the header that is written exactly when no extended timestamp is announced |
| MediaMessage.HeaderOnTheWire | src/rtmp/message/rtmp_media_message.cc:6-54 | what a written header of each type says, byte for byte |
| MediaMessage.ExtendedHeaderMeans | src/rtmp/message/rtmp_media_message.cc:74-98 | what a Type 0 header with an extended timestamp is read as |
| MediaMessage.PiecesConserve | src/rtmp/message/rtmp_media_message.cc:129-150 | the pieces join to the input, all but the last are full, the last is not empty |
| MediaMessage.CutFrom | src/rtmp/message/rtmp_media_message.cc:127-150 | the cutting loop yields `Pieces` of everything from its start on, and ends |
| MediaMessage.SplitAfter | src/rtmp/message/rtmp_media_message.cc:113-154 | header and first part stay in the payload, the excess is cut into pieces |
| MediaMessage.RtmpMediaMessage.FromTag | src/rtmp/message/rtmp_audio_message.cc:15-22 | a Type 0 message with the tag's timestamp and size and an unwritten payload |
| MediaMessage.RtmpMediaMessage.Continue | src/rtmp/message/rtmp_audio_message.cc:4-13 | a Type 3 message with its data as body |
| MediaMessage.RtmpMediaMessage.Serialize | src/rtmp/message/rtmp_audio_message.cc:24-34 | writes header and body once and returns the same bytes on every later call |
| MediaMessage.RtmpMediaMessage.Deserialize | src/rtmp/message/rtmp_media_message.cc:56-111 | reads the header into the fields unless a payload is already there |
| MediaMessage.RtmpMediaMessage.AppendPayload | src/rtmp/message/rtmp_audio_message.cc:52-55 | continuation data goes behind the body |
| MediaMessage.RtmpMediaMessage.DeserializeBody | src/rtmp/message/rtmp_video_message.cc:36-50 | the raw bytes become the body only if there is none yet, and are cleared |
| MediaMessage.RtmpMediaMessage.TrunkToSize | src/rtmp/message/rtmp_media_message.cc:113-154 | the payload keeps `hSize` bytes and the first part, the result is the rest in pieces |
| ChunkSender.NewHead | private/rtmp/rtmp_packet_generator.h:43-46 | the head and its remaining data are the chunks of the message |
| ChunkSender.NewContinuations | private/rtmp/rtmp_packet_generator.h:48-51 | one Type 3 packet per piece, in order, on the head's chunk stream |
| ChunkSender.NewChunkedPacket | private/rtmp/rtmp_packet_generator.h:38-54 | the packets serialize to exactly the chunks of the message |
| ChunkSender.Outbox.SendPacket | src/rtmp/session/rtmp_broadcaster_session.cc:387-399 | writes the packet, or a part of it and the socket is closed |
| ChunkSender.SendPackets | src/rtmp/session/rtmp_broadcaster_session.cc:383-400 | with any write failing, what was written is a prefix of all packets, and all of it if the socket is open at the end |
| ChunkSender.SendMessage | src/rtmp/session/rtmp_broadcaster_session.cc:403-427 | nothing on a closed socket; otherwise the message's bytes, or a prefix of them and a closed socket |
| ChunkReceiver.HeaderIsOneRead | src/rtmp/rtmp_socket.cc:70-275 | the chain of partial header reads behaves as one read of the length the bytes themselves determine |
| ChunkReceiver.HeaderIsComplete | src/rtmp/rtmp_socket.cc:70-275 | a header that was read is complete, so decoding it never runs past its end |
| ChunkReceiver.HeaderInStreamIsRead | src/rtmp/rtmp_socket.cc:70-275 | a complete header in the stream is read whole and the cursor ends just behind it |
| ChunkReceiver.WrittenHeaderIsRead | src/rtmp/rtmp_socket.cc:70-275 | for all four formats a written header without an extension is read whole, and nothing behind it |
| ChunkReceiver.ExtendedHeaderIsRead | src/rtmp/rtmp_socket.cc:219-256 | a header with an extension is read with its four bytes more |
| ChunkReceiver.DeliveredTypes | src/rtmp/rtmp_socket.cc:295-336 | a message is delivered exactly when its type is 0x08, 0x09 or 0x12, and refused as an invalid argument otherwise |
| ChunkReceiver.SubtractionIsExact | src/rtmp/rtmp_socket.cc:19-39 | the unsigned subtraction of the loop never wraps around |
| ChunkReceiver.ChunkAdvances | src/rtmp/rtmp_socket.cc:70-379 | every chunk received moves the cursor forward; the connection is lost exactly with a transport error |
| ChunkReceiver.ContinuationConserves | src/rtmp/rtmp_socket.cc:22-40 | one pass over any continuation header: reads min(missing, maximum) bytes, appends them, and accumulated plus missing stays the same |
| ChunkReceiver.RefusedHeaderGoesOn | src/rtmp/rtmp_socket.cc:26-39 | a refused header of twelve given bytes saves its error and the loop goes on |
| ChunkReceiver.AbandonedNeverEnds | src/rtmp/rtmp_socket.cc:22-40 | where the specification abandons the loop its guard holds after any number of passes |
| ChunkReceiver.FinishedIsReached | src/rtmp/rtmp_socket.cc:22-40 | where the specification finishes the loop it is the state after some number of passes, and no fewer |
| ChunkReceiver.JoinIsTheLoop | src/rtmp/rtmp_socket.cc:22-40 | the specification finishes exactly when some number of passes makes the guard false |
| ChunkReceiver.StallNeverEnds | src/rtmp/rtmp_socket.cc:22-40 | once the connection is lost inside the loop, its guard holds after any number of passes |
| ChunkReceiver.RtmpSocket.ReceiveData | src/socket/base_socket.cc:323-336 | reads exactly the size asked for, or fails and closes |
| ChunkReceiver.RtmpSocket.ReceiveTimestamp | src/rtmp/rtmp_socket.cc:116-151 | reads three bytes and goes on to the stage that follows them |
| ChunkReceiver.RtmpSocket.ReceiveBodySize | src/rtmp/rtmp_socket.cc:153-171 | reads three bytes and goes on to the type |
| ChunkReceiver.RtmpSocket.ReceiveMessageType | src/rtmp/rtmp_socket.cc:173-217 | reads the type and goes on to extension, stream id or payload |
| ChunkReceiver.RtmpSocket.ReceiveExtendedTimestamp | src/rtmp/rtmp_socket.cc:219-256 | reads four bytes and goes on to stream id or payload |
| ChunkReceiver.RtmpSocket.ReceiveStreamID | src/rtmp/rtmp_socket.cc:258-275 | reads four bytes and completes the header |
| ChunkReceiver.RtmpSocket.ReceiveHeaderBytes | src/rtmp/rtmp_socket.cc:70-114 | the whole chain equals the staged read |
| ChunkReceiver.RtmpSocket.ReceiveOneChunk | src/rtmp/rtmp_socket.cc:277-379 | one chunk: by type, sets or continues the progress and yields a packet or an error |
| ChunkReceiver.RtmpSocket.ContinueLoop | src/rtmp/rtmp_socket.cc:24-39 | one pass with the saved error and the recomputed sizes, 32-bit subtraction included |
| ChunkReceiver.RtmpSocket.CollectContinuations | src/rtmp/rtmp_socket.cc:22-40 | the loop, with a proof that it ends unless the connection is lost |
| ChunkReceiver.RtmpSocket.CollectMessage | src/rtmp/rtmp_socket.cc:12-67 | everything collected goes behind the first chunk's body, in one callback |
| ChunkReceiver.RtmpSocket.ReceiveDynamicPacketWithDynamicHeader | src/rtmp/rtmp_socket.cc:6-68 | one call equals `ReceiveMessage` |
| ChunkRoundTrip.JoinCollects | src/rtmp/rtmp_socket.cc:17-40 | continuations of a body that follow in the stream are collected whole, and the loop ends just behind them |
| ChunkRoundTrip.JoinStalls | src/rtmp/rtmp_socket.cc:22-40 | when the stream ends before the announced size is reached the specification abandons the loop |
| ChunkRoundTrip.ShortStreamNeverEnds | src/rtmp/rtmp_socket.cc:22-40 | and its guard then holds after any number of passes |
| ChunkRoundTrip.AfterPasses | src/rtmp/rtmp_socket.cc:22-40 | after any number of passes the collected bytes are a prefix of the body and what is missing is the rest |
| ChunkRoundTrip.TooLittleIsNotDelivered | src/rtmp/rtmp_socket.cc:6-68 | a message that announces more than its stream holds is never delivered |
| ChunkRoundTrip.MessageArrives | src/rtmp/rtmp_socket.cc:6-379 | a carriable message anywhere in a stream arrives with type, timestamp and body, consuming exactly its own bytes |
| ChunkRoundTrip.MessageArrivesExactlyWhen | src/rtmp/rtmp_socket.cc:6-379 | anywhere in a stream, whatever follows, a message arrives unchanged with exactly its own bytes consumed exactly when it is carriable |
| ChunkRoundTrip.TooLittleReadsPast | src/rtmp/rtmp_socket.cc:6-68 | a message that announces more than it holds makes the call read past it or lose the connection |
| ChunkRoundTrip.StreamIsReceived | src/rtmp/session/rtmp_watcher_session.cc:362-402 | the outcomes of receiving a list of carriable messages, their sizes and the end of the cursor |
| ChunkRoundTrip.MessageOnTheWire | src/rtmp/message/rtmp_media_message.cc:6-54 | a message in one chunk, byte for byte, and the byte a continuation starts with |
| Amf0.PrimConsumes | src/amf/0/amf0_deserializer.cc:31-77 | every value parsed moves the cursor forward, so the outer loop ends |
| Amf0.StringParses | src/amf/0/amf0_deserializer.cc:140-162 | a printed string of less than 65536 bytes is read back, with the cursor just behind it |
| Amf0.PrimParses | src/amf/0/amf0_deserializer.cc:79-108 | printed booleans, strings, numbers and nulls are read back, with the cursor just behind them |
| Amf0.SimplesOnTheWire | src/amf/0/amf0_serializer.cc:127-163 | booleans and null, byte for byte |
| Amf0.StringOnTheWire | src/amf/0/amf0_serializer.cc:92-111 | a string: marker, length with the high byte first, and bytes |
| Amf0.NumberOnTheWire | src/amf/0/amf0_serializer.cc:113-125 | a number: marker and the most significant byte first |
| Amf0.ObjectOnTheWire | src/amf/0/amf0_serializer.cc:139-158 | an object: marker, entries, empty key and end marker |
| Amf0.BrokenValues | src/amf/0/amf0_deserializer.cc:31-190 | how values are read that are cut off or have no known marker |
| Amf0.EcmaCutOff | src/amf/0/amf0_deserializer.cc:114-128 | an ECMA array that is cut off keeps the entries before the cut |
| Amf0.LaterEntryWins | src/amf/0/amf0_deserializer.cc:192-210 | of two entries with the same key the later one is kept |
| Amf0.EntriesParse | src/amf/0/amf0_deserializer.cc:192-210 | printed entries are inserted one by one, whatever follows them |
| Amf0.LongKeyEndsObject | src/amf/0/amf0_deserializer.cc:192-210 | a key whose length has the high byte 9 ends the object early |
| Amf0.UnfitValueIsNotParsed | src/amf/0/amf0_deserializer.cc:31-77 | a printed value that does not fit is never parsed as itself, whatever follows |
| Amf0.UndefinedIsNotRebuilt | src/amf/0/amf0_serializer.cc:31-84 | a dictionary printed at the end of the data with an undefined value in the last place is not readable, whatever else it holds |
| Amf0Codec.SerializeString | src/amf/0/amf0_serializer.cc:92-111 | marker, 16-bit length and bytes as specified |
| Amf0Codec.SerializeNumber | src/amf/0/amf0_serializer.cc:113-125 | marker and the double's bytes in reverse |
| Amf0Codec.SerializeBoolean | src/amf/0/amf0_serializer.cc:127-137 | marker and 0 or 1 |
| Amf0Codec.SerializeObject | src/amf/0/amf0_serializer.cc:139-158 | the entries in enumeration order between the two markers |
| Amf0Codec.SerializeVariant | src/amf/0/amf0_serializer.cc:31-78 | the printer of every kind of value |
| Amf0Codec.Deserializer.DeserializeString | src/amf/0/amf0_deserializer.cc:140-162 | the string at the cursor |
| Amf0Codec.Deserializer.DeserializeNumber | src/amf/0/amf0_deserializer.cc:164-176 | the number at the cursor, or zero without moving when fewer than eight bytes are left |
| Amf0Codec.Deserializer.DeserializeBoolean | src/amf/0/amf0_deserializer.cc:178-190 | the boolean at the cursor, or false at the end |
| Amf0Codec.Deserializer.DeserializeSubset | src/amf/0/amf0_deserializer.cc:79-108 | the value of a dictionary entry |
| Amf0Codec.Deserializer.DeserializeObject | src/amf/0/amf0_deserializer.cc:192-210 | the entries up to the end marker, later keys replacing earlier ones |
| Amf0Codec.Deserializer.DeserializeEcmaArray | src/amf/0/amf0_deserializer.cc:110-138 | at most the announced number of entries |
| Amf0Codec.Deserializer.DeserializeOne | src/amf/0/amf0_deserializer.cc:31-77 | one value of any kind |
| Amf0Codec.Deserializer.Deserialize | src/amf/0/amf0_deserializer.cc:10-29 | all values up to the end of the data |
| Commands.RtmpCommandMessage.Append | src/rtmp/message/command/rtmp_connect_command_message.cc:50-70 | one more value in the body, with its length added to the running size |
| Commands.RtmpCommandMessage.AppendNameAndTransaction | src/rtmp/message/command/rtmp_connect_command_message.cc:50-57 | the two values every command starts with, and their size |
| Commands.RtmpCommandMessage.AppendDictionary | src/rtmp/message/command/rtmp_connect_command_message.cc:58-71 | a dictionary that is not empty, with its size added |
| Commands.RtmpCommandMessage.InsertSize | src/rtmp/message/command/rtmp_connect_command_message.cc:72-76 | the 24-bit size is inserted at offset 4 |
| Commands.LengthFieldIsBodySize | src/rtmp/message/command/rtmp_connect_command_message.cc:72-76 | for both command headers the 24-bit field at offset 4 decodes to the body size exactly below 2^24 |
| Commands.ConnectHeaderOnTheWire | src/rtmp/message/command/rtmp_connect_command_message.cc:34-49 | the 12-byte header of a connect command, byte for byte |
| Commands.CreateStreamHeaderOnTheWire | src/rtmp/message/command/rtmp_create_stream_command_message.cc:15-30 | the 8-byte header of a createStream command, byte for byte |
| Replies.ConnectIsSuccessful | src/rtmp/message/command/rtmp_connect_command_response_message.cc:28-93 | successful exactly when the second non-empty object has a code other than "error" |
| Replies.StatusIsSuccessful | src/rtmp/message/command/rtmp_onstatus_command_response_message.cc:27-77 | successful exactly when the first non-empty object has a level other than "error" |
| Replies.SampleAccessIsSuccessful | src/rtmp/message/command/rtmp_sample_access_message.cc:27-76 | successful exactly when the last of the first two flags is set |
| Replies.AudioAloneIsRefused | src/rtmp/message/command/rtmp_sample_access_message.cc:26-78 | a printed message with two flags is read as granting access exactly when video is allowed, so unlike "audio or video" exactly for audio alone |
| Replies.FewerFlags | src/rtmp/message/command/rtmp_sample_access_message.cc:26-78 | a single flag decides, and without any access is refused |
| Session.RtmpSession.Close | src/socket/base_socket.cc:145-182 | an open socket is closed and announced before and after, a closed one is left alone |
| Session.RtmpSession.CheckError | src/socket/base_socket.cc:109-138 | five errors ask each delegate to reconnect, twice, and eight close the socket |
| Session.RtmpSession.Exchange | src/socket/base_socket.cc:311-336 | one socket operation with the calls that its error makes |
| Session.RtmpSession.ReceiveDynamicPacket | private/rtmp/rtmp_socket.h:70-95 | two reads of which only the second one's error is passed on |
| Session.RtmpSession.SendC0 | src/rtmp/session/rtmp_client_session.cc:16-32 | the whole run is `RunFrom` the first step |
| Session.RtmpSession.SendC1 | src/rtmp/session/rtmp_client_session.cc:34-51 | the run from C1 on |
| Session.RtmpSession.ReceiveS0 | src/rtmp/session/rtmp_client_session.cc:72-98 | goes on only when the versions agree |
| Session.RtmpSession.ReceiveS1 | src/rtmp/session/rtmp_client_session.cc:100-115 | the run from S1 on |
| Session.RtmpSession.SendC2 | src/rtmp/session/rtmp_client_session.cc:53-70 | the run from C2 on |
| Session.RtmpSession.ReceiveS2 | src/rtmp/session/rtmp_client_session.cc:117-134 | runs the commands first and announces the handshake after them |
| Session.RtmpSession.SendSetChunkSize | src/rtmp/session/rtmp_broadcaster_session.cc:41-62 | sends the chunk size of the settings over an open socket only |
| Session.RtmpSession.SendConnectCommandMessage | src/rtmp/session/rtmp_broadcaster_session.cc:64-83 | the run from connect on |
| Session.RtmpSession.ReceiveWindowAcknowledgeSize | src/rtmp/session/rtmp_broadcaster_session.cc:85-105 | stores the window that was received |
| Session.RtmpSession.ReceiveSetPeerBandwidth | src/rtmp/session/rtmp_broadcaster_session.cc:107-125 | the run from the peer bandwidth on |
| Session.RtmpSession.SendWindowAcknowledgeSize | src/rtmp/session/rtmp_broadcaster_session.cc:127-153 | stops at a zero window, else sends the window that was received |
| Session.RtmpSession.ReceiveSetChunkSize | src/rtmp/session/rtmp_broadcaster_session.cc:155-173 | adopts the announced chunk size |
| Session.RtmpSession.ReceiveConnectionCommandResponse | src/rtmp/session/rtmp_broadcaster_session.cc:175-198 | goes on only after a successful response |
| Session.RtmpSession.SendCreateStreamCommand | src/rtmp/session/rtmp_broadcaster_session.cc:200-220 | the run from createStream on |
| Session.RtmpSession.ReceiveCreateStreamCommandResponse | src/rtmp/session/rtmp_watcher_session.cc:226-249 | goes on to publish or to play, by role |
| Session.RtmpSession.SendPublishCommand | src/rtmp/session/rtmp_broadcaster_session.cc:247-266 | the run from publish on |
| Session.RtmpSession.SendPlayCommandMessage | src/rtmp/session/rtmp_watcher_session.cc:251-270 | the run from play on |
| Session.RtmpSession.ReceiveStreamBeginMessage | src/rtmp/session/rtmp_watcher_session.cc:272-290 | the run from the stream begin on |
| Session.RtmpSession.ReceiveOnStatusCommandResponse | src/rtmp/session/rtmp_broadcaster_session.cc:268-296 | a rejected status asks for a reconnection and closes the socket |
| Session.RtmpSession.ReceiveRtmpSampleAccessMessage | src/rtmp/session/rtmp_watcher_session.cc:322-348 | granted access makes the session ready and starts the media loop |
| Session.RtmpSession.SessionReady | src/rtmp/session/rtmp_broadcaster_session.cc:298-308 | announces the start over an open socket only |
| Session.RtmpSession.StartMediaPacketRetriever | src/rtmp/session/rtmp_watcher_session.cc:350-362 | starts one loop, with the chunk size of that moment, unless one is running |
| SessionSafety.RunReaches | src/rtmp/session/rtmp_client_session.cc:10-134 | a run gets through every start of the ladder whose steps succeed, in a state that depends on the replies alone |
| SessionSafety.SocketCallsAre | src/socket/base_socket.cc:109-138 | socket errors never announce a start or a handshake, and ask for a reconnection exactly when one of the five errors occurs |
| SessionRuns.FirstErrorIsHeard | src/socket/base_socket.cc:109-138 | error by error, what a delegate hears when the first operation fails |
| SessionRuns.CompleteRun | src/rtmp/session/rtmp_watcher_session.cc:40-438 | a run all of whose steps succeed without errors: calls, numbers and sizes |
| WatcherMedia.RetrieveMedia | src/rtmp/session/rtmp_watcher_session.cc:362-402 | the worker's packets are those of repeated receiving, dropping errors and empty results |
| WatcherMedia.ErroneousMessageIsDropped | src/rtmp/session/rtmp_watcher_session.cc:364-371 | a message whose loop saw an error is not handed over though its first chunk arrived |
| WorkerQueue.DropWhileDropsPrefix | private/queue.h:130-147 | exactly the longest matching prefix is dropped |
| WorkerQueue.Queue.Start | private/queue.h:42-54 | the flag change of the protocol's step, nothing when it is running |
| WorkerQueue.Queue.Stop | private/queue.h:56-60 | the flag change of the protocol's step, nothing when it is stopped |
| WorkerQueue.Queue.PushBackLocked | private/queue.h:165-174 | the item goes to the end, as the protocol's step says |
| WorkerQueue.Queue.MayPush | private/queue.h:176-186 | lets a push go on for an empty queue or a front item that satisfies the test, as the protocol's step says |
| WorkerQueue.Queue.PopFront | private/queue.h:211-220 | the client's and the worker's step: the first item, or a default item from an empty queue |
| WorkerQueue.Queue.RemoveWithPredicate | private/queue.h:130-147 | the loop drops the matching prefix, as the protocol's step says |
| WorkerQueue.Queue.CheckRun | private/queue.h:150-160 | the worker goes on to pop exactly when the protocol's step does: a queue that is not empty and not stopped |
| WorkerQueue.Queue.Clear | private/queue.h:83-89 | nothing is left, as the protocol's step says |
| WorkerQueue.DefaultsCounted | private/queue.h:83-220 | the same count from every state of the protocol |
| WorkerQueue.PushFillsGap | private/queue.h:165-220 | a push that gets in between makes the worker take the new item instead |
| WorkerQueue.WorkerTakesFront | private/queue.h:150-163 | a waiting worker hands over the front item of a running queue |
| WorkerQueue.ConditionalPush | private/queue.h:176-186 | a conditional push adds the item exactly when the queue is empty or its front item passes |
| WorkerQueue.PlainPush | private/queue.h:165-174 | a push adds its item to a running queue and does not begin on a stopped one |
| WorkerQueue.StopEndsService | private/queue.h:56-60 | after a stop the worker takes at most the item it was about to pop, and only pushes past their test are accepted |
| WorkerQueue.ClearCausesPhantom | private/queue.h:83-89 | a run in which one such clear hands over a default item |
| NetworkMetrics.NetworkPerformanceMetrics.Start | src/network_performance_metrics.cc:29-37 | changes the flag and clears the counters only when it was stopped, and throws when the lock is held |
| NetworkMetrics.NetworkPerformanceMetrics.Clear | src/network_performance_metrics.cc:64-75 | resets reading and counters, and neither level nor byte rate, when the lock is free; otherwise changes nothing and throws |
| NetworkMetrics.NetworkPerformanceMetrics.Tick | src/network_performance_metrics.cc:95-115 | handles a reading above zero while it is running |
| NetworkMetrics.NetworkPerformanceMetrics.HandleNetworkProfiler | src/network_performance_metrics.cc:117-152 | one reading: branch, counters, level and notices |
| NetworkMetrics.NetworkPerformanceMetrics.NotifyListenersIfNeeded | src/network_performance_metrics.cc:154-176 | one notice with the direction and one that something changed, or none |
| NetworkMetrics.AmortisedBound | src/network_performance_metrics.cc:117-152 | from any state in range, 32 per upgrade, 6 per downgrade at an unchanged reading, stable seconds and errors are paid for by the samples |
| NetworkMetrics.OneStepIsAnnounced | include/network_types.h:69-88 | one saturating step is announced once, in the right direction, or not at all |
| NetworkMetrics.ClearingStartsAnew | src/network_performance_metrics.cc:64-75 | a cleared controller takes the same 32 readings whatever it had counted |
| NetworkMetrics.NewRateCounts | src/network_performance_metrics.cc:77-80 | readings are judged by the byte rate that was set last |
| BufferQueue.Buffer.SetMinimumBufferSize | private/buffer_queue.h:52-59 | minimum and maximum change together |
| BufferQueue.Buffer.Push | private/buffer_queue.h:163-170 | the item and its duration are added |
| BufferQueue.Buffer.Pop | private/buffer_queue.h:172-184 | the first item, or a default one from an empty buffer, with the total kept above zero |
| BufferQueue.Buffer.IsReady | private/buffer_queue.h:124-130 | ready exactly when the total reaches the minimum |
| BufferQueue.Buffer.SyncBufferSize | private/buffer_queue.h:66-72 | shrinks to the maximum |
| BufferQueue.Buffer.ShrinkToFit | private/buffer_queue.h:186-221 | clears, erases or leaves alone, by average duration |
| BufferQueue.FewItemsStayInside | private/buffer_queue.h:203-219 | so few items never leave the range |
| BufferQueue.ShrinkTakesOldest | private/buffer_queue.h:186-221 | a shrink takes the oldest items: none, all, or as many as fit into the difference at the average duration |
| BufferQueue.MaximumIsFourThirds | private/buffer_queue.h:30-35 | the maximum is four thirds of the minimum, rounded toward zero |
| BufferQueue.OneShrinkEmptiesReadyBuffer | private/buffer_queue.h:186-221 | a run of three pushes and one shrink after which a ready buffer holds nothing |
| Flv.StepAdvances | src/flv/flv_mediaitem.cc:29-51 | every step moves the cursor by at least one byte and not past the end |
| Flv.AddedAllSplitsByKind | src/flv/flv_mediaitem.cc:88-134 | each kind is kept in file order and all tags are announced in file order |
| Flv.FLVMediaItem.Deserialize | src/flv/flv_mediaitem.cc:10-27 | the item holds what the file loads to, and the buffer is emptied |
| Flv.FLVMediaItem.ParseAllTags | src/flv/flv_mediaitem.cc:29-51 | the loop stores and announces the parsed tags one by one, and ends |
| Flv.FLVMediaItem.ParseNextTag | src/flv/flv_mediaitem.cc:53-134 | one step: a known tag, or one byte skipped |
| Flv.FLVMediaItem.ReadTag | src/flv/flv_mediatag.cc:8-28 | the fields of the tag header and its payload |
| Flv.TagParses | src/flv/flv_mediatag.cc:8-28 | a stored tag is found whole, whatever follows |
| Flv.FileParses | src/flv/flv_mediaitem.cc:29-134 | every file of known tags, with or without a final PreviousTagSize, yields exactly its tags in order |
| Flv.ShortTailSkipped | src/flv/flv_mediaitem.cc:29-86 | up to four bytes at the end are skipped |
| Flv.TimestampsSurvive | src/flv/flv_mediatag.cc:17-21 | of a stored tag the parser reports every field, and the timestamp exactly when it fits in 24 bits |
| Flv.TagOnTheWire | src/flv/flv_mediatag.cc:8-28 | a stored tag, byte for byte |
| Flv.KnownKindsAre | src/flv/flv_mediaitem.cc:53-86 | the three kinds that are known, by number |
| Flv.OrderIsKept | src/flv/flv_mediaitem.cc:88-134 | sorting by kind and announcing keep the order of any tags |
| Flv.UnknownByteSkipped | src/flv/flv_mediaitem.cc:53-86 | without a known kind in its place the parser moves on by one byte |
| Flv.VideoFlagsOnTheWire | src/flv/flv_video_mediatag.cc:11-36 | frame type and codec in the flag byte of a video tag |
| Flv.AudioFlagsOnTheWire | src/flv/flv_audio_mediatag.cc:11-41 | format, rate, sample size and channels in the flag byte of an audio tag |
| Flv.FLVMediaAudioTag.UpdateMetadata | src/flv/flv_audio_mediatag.cc:30-41 | two bytes in front, of which the first unpacks to the flags |
| Flv.FLVMediaAudioTag.Deserialize | src/flv/flv_audio_mediatag.cc:11-23 | the flags of the first byte, and the packet type from that same byte |
| Flv.PacketTypeIsLost | src/flv/flv_audio_mediatag.cc:11-41 | the packet type written is never the one read back |
| Flv.FLVMediaVideoTag.UpdateMetadata | src/flv/flv_video_mediatag.cc:25-36 | five bytes in front, of which the first unpacks to the flags |
| Flv.FLVMediaVideoTag.Deserialize | src/flv/flv_video_mediatag.cc:11-18 | codec and frame type of the first byte |
| AvcConfig.BuildParametersVideoPacket | src/apple/bridge_utility.mm:437-495 | the packet, byte for byte |
| AvcConfig.Cursor.UnpackVideoData | src/mediautils.cc:9-134 | descriptor, cursor and timestamp, at every early return |
| AvcConfig.SizedRoundTrip | src/mediautils.cc:88-124 | a parameter set is read back exactly when its length fits in 16 bits |
| AvcConfig.PacketOnTheWire | src/apple/bridge_utility.mm:437-495 | the built packet, byte for byte, profile bytes included |
| AvcConfig.CompositionTimeIsAdded | src/mediautils.cc:42-46 | a packet without a configuration only adds its composition time to the timestamp |
| AvcConfig.RecordIsUnpacked | src/mediautils.cc:44-131 | which bytes of a configuration record are taken |
| AvcConfig.OthersAreNotUnpacked | src/mediautils.cc:21-113 | each failing check leaves the descriptor empty and stops behind the byte it looked at |
| AvcConfig.PrefixIsStartCode | src/mediautils.cc:5-99 | the start code is put in front only when it is asked for |

## Left out

- Sockets, timers, DNS, threads, logging and delegate lists: a byte stream or an outcome per operation stands for them; a session's calls are those to one delegate that was added once, without what connecting or another thread calls.
- Control messages (chunk size, window size, peer bandwidth) and the handshake packets: their byte layouts would add easy members; a session sees the decoded number.
- RtmpMetadataMessage: it is received as a raw body; what it does with it is not modelled.
- Extended timestamps: modelled as the code treats them, and excluded from the round trips by their exact conditions.
- AMF3, and the printing of ECMA arrays, which the code prints as nothing.
- Amf0.ObjectRoundTrip: says nothing, like the list and command results, about dictionaries with undefined values, which are printed as nothing; `UndefinedIsNotRebuilt` covers those that list one last at the end of the data.
- MediaMessage.RtmpMediaMessage.DeserializeBody: models the bytes; the payload size and the flags that it sets in the tag are those of `Flv.FLVMediaAudioTag.Deserialize`.
- ChunkSender.NewChunkedPacket: leaves out a payload shorter than `hSize`, for which the source's unsigned subtraction wraps around and erases outside the buffer.
- ChunkRoundTrip.StreamRoundTrip: chunk streams are not interleaved, as the receiver keeps one state for all of them, and the chunk stream id of a received message is not restored.
- Session.RtmpSession.SendC0: broadcaster and watcher share one class with a role, since their common steps have the same bodies; ending a session and sending metadata are not modelled.
- WorkerQueue.Queue.CheckRun: one worker thread; pushing to the front, popping from the back and the liveness of `stop` are not modelled.
- NetworkMetrics.NetworkPerformanceMetrics.HandleNetworkProfiler: byte rates are exact integers, without the rounding of the source's float.
- BufferQueue.Buffer.SyncBufferSize: requires the erased range to be inside the list, as erasing outside it is undefined; `ShrinkStaysInside` says when that is so.
- Flv.FLVMediaItem.Deserialize: requires tags that end inside the data, as the source reads past it otherwise; the properties inside script tags are not extracted.
- Audio sample rates, capture, rendering, encoders, views, and the Java and Objective-C bindings other than the AVC packet builder.
