/** Whole sessions, from what the server sends to what a delegate hears, without the names of the gates. */
module SessionRuns {
  import opened Bytes
  import opened Amf0
  import opened Replies
  import opened Session
  import opened SessionSafety

  const LEVEL_KEY: Text := [0x6C, 0x65, 0x76, 0x65, 0x6C]
  const CODE_KEY: Text := [0x63, 0x6F, 0x64, 0x65]
  const ERROR_STRING: Text := [0x65, 0x72, 0x72, 0x6F, 0x72]

  /** A status reply: name, transaction, null and an object with information. */
  predicate IsStatus(values: seq<Value>, info: Dict) {
    |values| == 4 && values[0].Simple? && values[0].p.Str? && values[1].Simple? && values[1].p.Num?
    && values[2] == Simple(Null) && values[3] == Object(info)
  }

  /** A connect response: name, transaction, properties that are not empty and an object with information. */
  predicate IsConnectResponse(values: seq<Value>, info: Dict) {
    |values| == 4 && values[0].Simple? && values[0].p.Str? && values[1].Simple? && values[1].p.Num?
    && values[2].Object? && values[2].d != map[] && values[3] == Object(info)
  }

  lemma StatusGate(values: seq<Value>, info: Dict)
    requires IsStatus(values, info)
    ensures StatusAccepted(values)
            <==> LEVEL_KEY in info && info[LEVEL_KEY].Str? && info[LEVEL_KEY].s != ERROR_STRING
  {
    hide NonEmptyObjects;
    ReplyObjects(values[0].p.s, values[1].p.bits, values[2], info);
    assert values == ReplyValues(values[0].p.s, values[1].p.bits, values[2], info);
  }

  lemma ConnectGate(values: seq<Value>, info: Dict)
    requires IsConnectResponse(values, info)
    ensures ConnectAccepted(values)
            <==> CODE_KEY in info && info[CODE_KEY].Str? && info[CODE_KEY].s != ERROR_STRING
  {
    hide NonEmptyObjects;
    ReplyObjects(values[0].p.s, values[1].p.bits, values[2], info);
    assert values == ReplyValues(values[0].p.s, values[1].p.bits, values[2], info);
  }

  /** A status with the level "error" never lets a session start; when it was read without an error, a delegate is
      asked to reconnect. */
  lemma ErrorStatusEndsSession(role: Role, s0: State, net: Network, info: Dict)
    requires Fresh(s0)
    requires var reply := net(if role.Broadcaster? then 19 else 21);
             IsStatus(reply.values, info) && LEVEL_KEY in info && info[LEVEL_KEY] == Str(ERROR_STRING)
    ensures SessionStarted !in RunFrom(role, 0, s0, net).calls
    ensures && |RunFrom(role, 0, s0, net).log| == (if role.Broadcaster? then 17 else 18)
            && net(if role.Broadcaster? then 19 else 21).error.NoError?
            ==> ReconnectionRequired in RunFrom(role, 0, s0, net).calls
  {
    hide RunFrom, StatusAccepted, ConnectAccepted, SampleAccessGranted, OperationsBefore, Operations, MayAttempt,
         SocketCalls, RejectionCalls, OpenBefore, IsStatus;
    var k := OnStatus(role);
    StatusGate(ReplyTo(role, k, net).values, info) by {
      Places(role, k);
    }
    Places(role, k);
    StepsOfInterest(role, k);
    assert !Succeeded(role, k, net);
    CallsAreExact(role, s0, net);
    LadderIsFollowed(role, s0, net);
    SocketCallsAre(net, RunFrom(role, 0, s0, net).operations);
    NoStartAmongRejections(role, net);
    if StatusRejected(role, net) {
      NotStartedAfterRejection(role, net);
    }
  }

  /** The first `n` operations end without an error and nobody closes the socket. */
  predicate Smooth(net: Network, n: nat) {
    forall i :: 0 <= i < n ==> net(i).error.NoError? && !net(i).closed
  }

  /** The server agrees to everything up to the status: version 3, a window, a code and a level other than "error". */
  predicate Agrees(net: Network, status: nat, info: Dict, statusInfo: Dict) {
    && net(2).number == 3 && net(8).number > 0
    && IsConnectResponse(net(13).values, info)
    && CODE_KEY in info && info[CODE_KEY].Str? && info[CODE_KEY].s != ERROR_STRING
    && IsStatus(net(status).values, statusInfo)
    && LEVEL_KEY in statusInfo && statusInfo[LEVEL_KEY].Str? && statusInfo[LEVEL_KEY].s != ERROR_STRING
  }

  lemma {:induction false} SmoothIsSilent(net: Network, n: nat)
    requires Smooth(net, n)
    ensures SocketCalls(net, n) == [] && OpenAfter(net, n)
  {
    if n > 0 {
      SmoothIsSilent(net, n - 1);
    }
  }

  lemma ReplyPlace(role: Role, k: nat, net: Network)
    requires k < Length(role)
    ensures ReplyTo(role, k, net)
            == net(if k < 12 then k else if k <= 13 then k + 1 else if k <= 15 then k + 2 else 2 * k - 13)
  {
    hide OperationsBefore, Operations;
    Places(role, k);
  }

  lemma OnlyGatesRefuse(role: Role, k: nat, r: Reply)
    requires k < Length(role) && k != 2 && k != 12 && k != OnStatus(role) && k != 18
    ensures Accepts(StepAt(role, k), r)
  {
  }

  lemma GatesAre(role: Role, r: Reply)
    ensures Accepts(StepAt(role, 2), r) <==> r.number == 3
    ensures Accepts(StepAt(role, 12), r) <==> ConnectAccepted(r.values)
    ensures Accepts(StepAt(role, OnStatus(role)), r) <==> StatusAccepted(r.values)
    ensures role.Watcher? ==> (Accepts(StepAt(role, 18), r) <==> SampleAccessGranted(r.values))
  {
    hide ConnectAccepted, StatusAccepted, SampleAccessGranted;
  }

  /** Where everything is agreed to and nothing goes wrong, every step succeeds. */
  lemma StepSucceeds(role: Role, net: Network, k: nat, info: Dict, statusInfo: Dict)
    requires k < Length(role) && Smooth(net, if role.Broadcaster? then 20 else 24)
    requires Agrees(net, if role.Broadcaster? then 19 else 21, info, statusInfo)
    requires role.Watcher? ==> SampleAccessGranted(net(23).values)
    ensures MayAttempt(role, k, net) && Succeeded(role, k, net)
  {
    hide OperationsBefore, Operations, StepAt, IsStatus, IsConnectResponse, ConnectAccepted, StatusAccepted,
         SampleAccessGranted, ReplyTo, Accepts;
    ReplyPlace(role, k, net);
    ReplyPlace(role, WINDOW_STEP, net);
    Places(role, k);
    ConnectGate(net(13).values, info);
    StatusGate(net(if role.Broadcaster? then 19 else 21).values, statusInfo);
    GatesAre(role, ReplyTo(role, k, net));
    if k != 2 && k != 12 && k != OnStatus(role) && k != 18 {
      OnlyGatesRefuse(role, k, ReplyTo(role, k, net));
    }
  }

  lemma AllClear(role: Role, net: Network, info: Dict, statusInfo: Dict)
    requires Smooth(net, if role.Broadcaster? then 20 else 24)
    requires Agrees(net, if role.Broadcaster? then 19 else 21, info, statusInfo)
    requires role.Watcher? ==> SampleAccessGranted(net(23).values)
    ensures Clear(role, Length(role), net)
    ensures OperationsBefore(role, Length(role)) == if role.Broadcaster? then 20 else 24
  {
    hide MayAttempt, Succeeded, Agrees, SampleAccessGranted, OperationsBefore, Operations, StepAt;
    forall k | 0 <= k < Length(role) ensures MayAttempt(role, k, net) && Succeeded(role, k, net) {
      StepSucceeds(role, net, k, info, statusInfo);
    }
    OperationsNext(role, Length(role) - 1);
    Places(role, Length(role) - 1);
  }

  /** What a run is, step by step, when all of its steps succeed and nothing goes wrong. */
  lemma CompleteRun(role: Role, s0: State, net: Network)
    requires Fresh(s0) && Clear(role, Length(role), net) && Smooth(net, OperationsBefore(role, Length(role)))
    ensures var s := RunFrom(role, 0, s0, net);
            && s.calls == [SessionStarted, HandshakeDone] && |s.log| == Length(role)
            && s.chunkSize == net(11).number
            && s.mediaChunkSize == (if role.Watcher? && s0.stopped then [net(11).number] else [])
            && forall k :: 0 <= k < Length(role) ==>
                 s.log[k] == Entry(StepAt(role, k),
                                   if k == 6 then s0.chunkSize else if k == 10 then net(8).number else 0)
  {
    hide RunFrom, OperationsBefore, Operations, SocketCalls, StepAt, MayAttempt, Succeeded, ReplyTo;
    var n := Length(role);
    SmoothIsSilent(net, OperationsBefore(role, n));
    LadderIsFollowed(role, s0, net);
    assert MayAttempt(role, n - 1, net);
    CallsAreExact(role, s0, net);
    MediaLoopUsesAnnouncedSize(role, s0, net);
    ReplyPlace(role, CHUNK_SIZE_STEP, net);
    ReplyPlace(role, WINDOW_STEP, net);
    forall k | 0 <= k < n
      ensures SessionSafety.EntryAt(role, k, net, s0.chunkSize)
              == Entry(StepAt(role, k), if k == 6 then s0.chunkSize else if k == 10 then net(8).number else 0)
    {
      StepsOfInterest(role, k);
    }
  }

  /** The whole session of a broadcaster: what it does in order, and that it starts. */
  lemma BroadcastRuns(s0: State, net: Network, info: Dict, statusInfo: Dict)
    requires Fresh(s0) && Smooth(net, 20) && Agrees(net, 19, info, statusInfo)
    ensures var s := RunFrom(Broadcaster, 0, s0, net);
            && s.calls == [SessionStarted, HandshakeDone] && s.chunkSize == net(11).number && s.mediaChunkSize == []
            && s.log == [Entry(SendC0, 0), Entry(SendC1, 0), Entry(ReceiveS0, 0), Entry(ReceiveS1, 0),
                         Entry(SendC2, 0), Entry(ReceiveS2, 0), Entry(SendSetChunkSize, s0.chunkSize),
                         Entry(SendConnect, 0), Entry(ReceiveWindowAck, 0), Entry(ReceivePeerBandwidth, 0),
                         Entry(SendWindowAck, net(8).number), Entry(ReceiveSetChunkSize, 0),
                         Entry(ReceiveConnectResponse, 0), Entry(SendCreateStream, 0),
                         Entry(ReceiveCreateStreamResponse, 0), Entry(SendPublish, 0), Entry(ReceiveOnStatus, 0)]
  {
    hide RunFrom, Agrees, Clear, OperationsBefore;
    AllClear(Broadcaster, net, info, statusInfo);
    CompleteRun(Broadcaster, s0, net);
  }

  /** The whole session of a watcher that is granted video: it plays, and its media loop uses the announced size. */
  lemma WatchRuns(s0: State, net: Network, info: Dict, statusInfo: Dict, name: Text, audio: bool)
    requires Fresh(s0) && Smooth(net, 24) && Agrees(net, 21, info, statusInfo)
    requires net(23).values == [Simple(Str(name)), Simple(Bool(audio)), Simple(Bool(true))]
    ensures var s := RunFrom(Watcher, 0, s0, net);
            && s.calls == [SessionStarted, HandshakeDone] && s.chunkSize == net(11).number
            && (s0.stopped ==> s.mediaChunkSize == [net(11).number])
            && s.log == [Entry(SendC0, 0), Entry(SendC1, 0), Entry(ReceiveS0, 0), Entry(ReceiveS1, 0),
                         Entry(SendC2, 0), Entry(ReceiveS2, 0), Entry(SendSetChunkSize, s0.chunkSize),
                         Entry(SendConnect, 0), Entry(ReceiveWindowAck, 0), Entry(ReceivePeerBandwidth, 0),
                         Entry(SendWindowAck, net(8).number), Entry(ReceiveSetChunkSize, 0),
                         Entry(ReceiveConnectResponse, 0), Entry(SendCreateStream, 0),
                         Entry(ReceiveCreateStreamResponse, 0), Entry(SendPlay, 0), Entry(ReceiveStreamBegin, 0),
                         Entry(ReceiveOnStatus, 0), Entry(ReceiveSampleAccess, 0)]
  {
    hide RunFrom, Agrees, Clear, OperationsBefore;
    assert SampleAccessGranted(net(23).values) by {
      SampleAccessValues(name, audio, true);
    }
    AllClear(Watcher, net, info, statusInfo);
    CompleteRun(Watcher, s0, net);
  }

  /** How far a session gets: behind the version only with version 3, behind the window only with one, and no command
      is attempted over a socket that somebody closed or that had one of the errors that close it. */
  lemma AttemptedStepsWereAllowed(role: Role, s0: State, net: Network, k: nat, i: nat)
    requires Fresh(s0)
    ensures var log := RunFrom(role, 0, s0, net).log;
            && (|log| > 3 ==> net(2).number == 3) && (|log| > 10 ==> net(8).number > 0)
            && (6 <= k < |log| <= Length(role) && i < OperationsBefore(role, k) ==>
                  !net(i).closed && (net(i).error.NoError? || net(i).error.OtherError?))
  {
    hide RunFrom, OperationsBefore, Operations, StepAt, ReplyTo, Accepts;
    LadderIsFollowed(role, s0, net);
    ReplyPlace(role, 2, net);
    ReplyPlace(role, WINDOW_STEP, net);
    GatesAre(role, net(2));
    StepsOfInterest(role, 10);
    var n := |RunFrom(role, 0, s0, net).log|;
    if n > 3 {
      assert Clear(role, 3, net) && Succeeded(role, 2, net);
    }
    if n > 10 {
      assert MayAttempt(role, 10, net);
    }
    if 6 <= k < n {
      assert MayAttempt(role, k, net);
    }
  }

  /** What a delegate hears when the very first operation ends with an error, error by error. */
  lemma FirstErrorIsHeard(role: Role, s0: State, net: Network)
    requires Fresh(s0) && !net(0).error.NoError? && !net(0).closed
    ensures var s := RunFrom(role, 0, s0, net);
            && s.log == [Entry(SendC0, 0)]
            && s.calls == match net(0).error {
                 case ConnectionReset | OperationAborted | TimedOut | Eof | BrokenPipe =>
                   [ReconnectionRequired, ReconnectionRequired, SocketWillClose, SocketDidClose]
                 case ConnectionAborted | ConnectionRefused | OperationNotSupported => [SocketWillClose, SocketDidClose]
                 case _ => []
               }
            && (s.open <==> net(0).error.OtherError?)
  {
    hide RunFrom;
    RunStep(role, 0, s0, net);
  }
}
