/** The session ladder: the handshake of src/rtmp/session/rtmp_client_session.cc and the command exchanges of
    src/rtmp/session/rtmp_broadcaster_session.cc and src/rtmp/session/rtmp_watcher_session.cc. Every socket operation
    is synchronous and its callback starts the next step. */
module Session {
  import opened Bytes
  import opened Replies
  import Amf0

  const PROTOCOL_VERSION := 3

  datatype Role = Broadcaster | Watcher

  datatype Step =
    | SendC0 | SendC1 | ReceiveS0 | ReceiveS1 | SendC2 | ReceiveS2
    | SendSetChunkSize | SendConnect | ReceiveWindowAck | ReceivePeerBandwidth | SendWindowAck | ReceiveSetChunkSize
    | ReceiveConnectResponse | SendCreateStream | ReceiveCreateStreamResponse
    | SendPublish | SendPlay | ReceiveStreamBegin | ReceiveOnStatus | ReceiveSampleAccess

  const COMMON: seq<Step> :=
    [SendC0, SendC1, ReceiveS0, ReceiveS1, SendC2, ReceiveS2,
     SendSetChunkSize, SendConnect, ReceiveWindowAck, ReceivePeerBandwidth, SendWindowAck, ReceiveSetChunkSize,
     ReceiveConnectResponse, SendCreateStream, ReceiveCreateStreamResponse]

  const PUBLISH: seq<Step> := [SendPublish, ReceiveOnStatus]

  const PLAY: seq<Step> := [SendPlay, ReceiveStreamBegin, ReceiveOnStatus, ReceiveSampleAccess]

  const HANDSHAKE := 6  // the number of handshake steps

  function Length(role: Role): nat {
    if role.Broadcaster? then 17 else 19
  }

  function StepAt(role: Role, k: nat): Step
    requires k < Length(role)
  {
    if k < 15 then COMMON[k] else if role.Broadcaster? then PUBLISH[k - 15] else PLAY[k - 15]
  }

  // ----- the environment

  /** The errors of a socket operation that are told apart. */
  datatype SocketError =
    | NoError | ConnectionAborted | ConnectionReset | ConnectionRefused | OperationAborted | OperationNotSupported
    | TimedOut | Eof | BrokenPipe | OtherError

  predicate AsksToReconnect(e: SocketError) {
    e.ConnectionReset? || e.OperationAborted? || e.TimedOut? || e.Eof? || e.BrokenPipe?
  }

  predicate Closes(e: SocketError) {
    !e.NoError? && !e.OtherError?
  }

  /** How one socket operation ends: its error, whether another thread closed the socket meanwhile (it never reopens),
      and what was decoded: a version, window or chunk size, or the values of a command. */
  datatype Reply = Reply(error: SocketError, closed: bool, number: u32, values: seq<Amf0.Value>)

  type Network = nat -> Reply

  /** A packet with a dynamic size takes two reads: its header, then its body. */
  function Operations(step: Step): nat {
    match step
    case ReceiveConnectResponse | ReceiveCreateStreamResponse | ReceiveStreamBegin | ReceiveOnStatus
       | ReceiveSampleAccess => 2
    case _ => 1
  }

  // ----- the run

  /** The calls that a delegate of the session gets from the run. It is a delegate of the socket, too, so it hears of
      an error of the socket twice: from the socket, and from the session, which the socket tells as well. */
  datatype Call = HandshakeDone | SessionStarted | ReconnectionRequired | SocketWillClose | SocketDidClose

  /** A step that was attempted, with the number in the packet if it sends one. */
  datatype Entry = Entry(step: Step, number: u32)

  datatype State = State(open: bool, operations: nat, log: seq<Entry>, calls: seq<Call>, window: u32, chunkSize: u32,
                         stopped: bool, mediaChunkSize: seq<u32>)

  function Number(step: Step, s: State): u32 {
    if step == SendSetChunkSize then s.chunkSize else if step == SendWindowAck then s.window else 0
  }

  /** `close` */
  function Closed(s: State): State {
    if s.open then s.(open := false, calls := s.calls + [SocketWillClose, SocketDidClose]) else s
  }

  /** `checkError` */
  function Checked(s: State, e: SocketError): State {
    var s1 := if AsksToReconnect(e) then s.(calls := s.calls + [ReconnectionRequired, ReconnectionRequired]) else s;
    if Closes(e) then Closed(s1) else s1
  }

  /** One socket operation. */
  function Exchanged(s: State, r: Reply): (t: State)
    ensures t.operations == s.operations + 1
    ensures t.open <==> s.open && !r.closed && !Closes(r.error)
  {
    Checked(s.(open := s.open && !r.closed, operations := s.operations + 1), r.error)
  }

  /** Of the two reads of a dynamic packet only the second one's error is passed on. */
  function Perform(s: State, step: Step, net: Network): (Reply, State) {
    var s1 := s.(log := s.log + [Entry(step, Number(step, s))]);
    var s2 := Exchanged(s1, net(s.operations));
    if Operations(step) == 1 then (net(s.operations), s2) else
    (net(s.operations + 1), Exchanged(s2, net(s.operations + 1)))
  }

  function Store(s: State, step: Step, r: Reply): State {
    if step == ReceiveWindowAck then s.(window := r.number)
    else if step == ReceiveSetChunkSize then s.(chunkSize := r.number)
    else s
  }

  predicate Accepts(step: Step, r: Reply) {
    match step
    case ReceiveS0 => r.number == PROTOCOL_VERSION
    case ReceiveConnectResponse => ConnectAccepted(r.values)
    case ReceiveOnStatus => StatusAccepted(r.values)
    case ReceiveSampleAccess => SampleAccessGranted(r.values)
    case _ => true
  }

  function Rejected(s: State): State {
    Closed(s.(calls := s.calls + [ReconnectionRequired]))
  }

  /** The end of the ladder; a watcher starts its media loop, which keeps the chunk size it starts with. */
  function Ready(role: Role, s: State): State {
    var s1 := if s.open then s.(calls := s.calls + [SessionStarted]) else s;
    if role.Watcher? && s1.stopped then
      s1.(stopped := false, mediaChunkSize := s1.mediaChunkSize + [s1.chunkSize])
    else s1
  }

  function Announced(k: nat, s: State): State {
    if k == HANDSHAKE - 1 then s.(calls := s.calls + [HandshakeDone]) else s
  }

  /** One step: the state after it, and whether its callback goes on to the next one. */
  function Try(role: Role, k: nat, s: State, net: Network): (State, bool)
    requires k < Length(role)
  {
    var step := StepAt(role, k);
    if k >= HANDSHAKE && !s.open then (s, false) else
    if step == SendWindowAck && s.window == 0 then (s, false) else
    var (r, s1) := Perform(s, step, net);
    if !r.error.NoError? then (s1, false) else
    if Accepts(step, r) then (Store(s1, step, r), true) else
    (if step == ReceiveOnStatus then Rejected(s1) else s1, false)
  }

  /** The run from step `k` on. */
  function RunFrom(role: Role, k: nat, s: State, net: Network): State
    requires k <= Length(role)
    decreases Length(role) - k
  {
    if k == Length(role) then Ready(role, s) else
    var (s1, goesOn) := Try(role, k, s, net);
    if goesOn then Announced(k, RunFrom(role, k + 1, s1, net)) else s1
  }

  lemma RunStep(role: Role, k: nat, s: State, net: Network)
    requires k < Length(role)
    ensures var (s1, goesOn) := Try(role, k, s, net);
            RunFrom(role, k, s, net) == if goesOn then Announced(k, RunFrom(role, k + 1, s1, net)) else s1
  {
  }

  lemma RunEnds(role: Role, s: State, net: Network)
    ensures RunFrom(role, Length(role), s, net) == Ready(role, s)
  {
  }

  lemma LastStepOfWatcher(s: State, net: Network)
    ensures var (r, s1) := Perform(s, ReceiveSampleAccess, net);
            RunFrom(Watcher, 18, s, net)
            == if !s.open then s
               else if r.error.NoError? && SampleAccessGranted(r.values) then Ready(Watcher, s1) else s1
  {
    hide RunFrom, Ready, Perform, SampleAccessGranted;
    RunStep(Watcher, 18, s, net);
    RunEnds(Watcher, Perform(s, ReceiveSampleAccess, net).1, net);
  }

  class RtmpSession {
    const role: Role
    const network: Network
    var open: bool
    var operations: nat
    var log: seq<Entry>
    var calls: seq<Call>         // the calls made to the delegates
    var window: u32
    var chunkSize: u32
    var stopped: bool
    var mediaChunkSize: seq<u32> // the sizes that media loops were started with

    constructor (role: Role, network: Network, chunkSize: u32)
      ensures this.role == role && this.network == network
      ensures View() == State(true, 0, [], [], 0, chunkSize, true, [])
    {
      this.role, this.network, this.chunkSize := role, network, chunkSize;
      open, operations, log, calls, window, stopped, mediaChunkSize := true, 0, [], [], 0, true, [];
    }

    function View(): State
      reads this
    {
      State(open, operations, log, calls, window, chunkSize, stopped, mediaChunkSize)
    }

    // ----- the socket

    method Close()
      modifies this`open, this`calls
      ensures View() == Closed(old(View()))
    {
      if open {
        calls := calls + [SocketWillClose];
        open := false;
        calls := calls + [SocketDidClose];
      }
    }

    method CheckError(e: SocketError)
      modifies this`open, this`calls
      ensures View() == Checked(old(View()), e)
    {
      if AsksToReconnect(e) {
        calls := calls + [ReconnectionRequired];
        calls := calls + [ReconnectionRequired];
      }
      if Closes(e) {
        Close();
      }
    }

    method Exchange() returns (r: Reply)
      modifies this`open, this`operations, this`calls
      ensures r == network(old(operations)) && View() == Exchanged(old(View()), r)
    {
      hide Checked;
      r := network(operations);
      operations := operations + 1;
      if r.closed {
        open := false;
      }
      CheckError(r.error);
    }

    method SendPacket(step: Step, number: u32) returns (r: Reply)
      requires Operations(step) == 1 && number == Number(step, View())
      modifies this`open, this`operations, this`log, this`calls
      ensures (r, View()) == Perform(old(View()), step, network)
    {
      hide Exchanged;
      log := log + [Entry(step, number)];
      r := Exchange();
    }

    method ReceivePacket(step: Step) returns (r: Reply)
      requires Operations(step) == 1 && Number(step, View()) == 0
      modifies this`open, this`operations, this`log, this`calls
      ensures (r, View()) == Perform(old(View()), step, network)
    {
      hide Exchanged;
      log := log + [Entry(step, 0)];
      r := Exchange();
    }

    method ReceiveDynamicPacket(step: Step) returns (r: Reply)
      requires Operations(step) == 2 && Number(step, View()) == 0
      modifies this`open, this`operations, this`log, this`calls
      ensures (r, View()) == Perform(old(View()), step, network)
    {
      hide Exchanged;
      log := log + [Entry(step, 0)];
      r := Exchange();
      r := Exchange();
    }

    // ----- the handshake

    method SendC0()
      modifies this
      ensures View() == RunFrom(role, 0, old(View()), network)
    {
      hide RunFrom, Ready, Perform, ConnectAccepted, StatusAccepted, SampleAccessGranted;
      RunStep(role, 0, View(), network);
      var r := SendPacket(Step.SendC0, 0);
      if r.error.NoError? {
        SendC1();
      }
    }

    method SendC1()
      modifies this
      ensures View() == RunFrom(role, 1, old(View()), network)
    {
      hide RunFrom, Ready, Perform, ConnectAccepted, StatusAccepted, SampleAccessGranted;
      RunStep(role, 1, View(), network);
      var r := SendPacket(Step.SendC1, 0);
      if r.error.NoError? {
        ReceiveS0();
      }
    }

    method ReceiveS0()
      modifies this
      ensures View() == RunFrom(role, 2, old(View()), network)
    {
      hide RunFrom, Ready, Perform, ConnectAccepted, StatusAccepted, SampleAccessGranted;
      RunStep(role, 2, View(), network);
      var r := ReceivePacket(Step.ReceiveS0);
      if r.error.NoError? {
        if r.number == PROTOCOL_VERSION {
          ReceiveS1();
        }
      }
    }

    method ReceiveS1()
      modifies this
      ensures View() == RunFrom(role, 3, old(View()), network)
    {
      hide RunFrom, Ready, Perform, ConnectAccepted, StatusAccepted, SampleAccessGranted;
      RunStep(role, 3, View(), network);
      var r := ReceivePacket(Step.ReceiveS1);
      if r.error.NoError? {
        SendC2();
      }
    }

    method SendC2()
      modifies this
      ensures View() == RunFrom(role, 4, old(View()), network)
    {
      hide RunFrom, Ready, Perform, ConnectAccepted, StatusAccepted, SampleAccessGranted;
      RunStep(role, 4, View(), network);
      var r := SendPacket(Step.SendC2, 0);
      if r.error.NoError? {
        ReceiveS2();
      }
    }

    method ReceiveS2()
      modifies this
      ensures View() == RunFrom(role, 5, old(View()), network)
    {
      hide RunFrom, Ready, Perform, ConnectAccepted, StatusAccepted, SampleAccessGranted;
      RunStep(role, 5, View(), network);
      var r := ReceivePacket(Step.ReceiveS2);
      if r.error.NoError? {
        SendSetChunkSize();
        calls := calls + [HandshakeDone];
      }
    }

    // ----- the commands

    method SendSetChunkSize()
      modifies this
      ensures View() == RunFrom(role, 6, old(View()), network)
    {
      hide RunFrom, Ready, Perform, ConnectAccepted, StatusAccepted, SampleAccessGranted;
      RunStep(role, 6, View(), network);
      if !open {
        return;
      }
      var r := SendPacket(Step.SendSetChunkSize, chunkSize);
      if r.error.NoError? {
        SendConnectCommandMessage();
      }
    }

    method SendConnectCommandMessage()
      modifies this
      ensures View() == RunFrom(role, 7, old(View()), network)
    {
      hide RunFrom, Ready, Perform, ConnectAccepted, StatusAccepted, SampleAccessGranted;
      RunStep(role, 7, View(), network);
      if !open {
        return;
      }
      var r := SendPacket(SendConnect, 0);
      if r.error.NoError? {
        ReceiveWindowAcknowledgeSize();
      }
    }

    method ReceiveWindowAcknowledgeSize()
      modifies this
      ensures View() == RunFrom(role, 8, old(View()), network)
    {
      hide RunFrom, Ready, Perform, ConnectAccepted, StatusAccepted, SampleAccessGranted;
      RunStep(role, 8, View(), network);
      if !open {
        return;
      }
      var r := ReceivePacket(ReceiveWindowAck);
      if r.error.NoError? {
        window := r.number;
        ReceiveSetPeerBandwidth();
      }
    }

    method ReceiveSetPeerBandwidth()
      modifies this
      ensures View() == RunFrom(role, 9, old(View()), network)
    {
      hide RunFrom, Ready, Perform, ConnectAccepted, StatusAccepted, SampleAccessGranted;
      RunStep(role, 9, View(), network);
      if !open {
        return;
      }
      var r := ReceivePacket(ReceivePeerBandwidth);
      if r.error.NoError? {
        SendWindowAcknowledgeSize();
      }
    }

    method SendWindowAcknowledgeSize()
      modifies this
      ensures View() == RunFrom(role, 10, old(View()), network)
    {
      hide RunFrom, Ready, Perform, ConnectAccepted, StatusAccepted, SampleAccessGranted;
      RunStep(role, 10, View(), network);
      if !open {
        return;
      }
      if window <= 0 {
        return;
      }
      var r := SendPacket(SendWindowAck, window);
      if r.error.NoError? {
        ReceiveSetChunkSize();
      }
    }

    method ReceiveSetChunkSize()
      modifies this
      ensures View() == RunFrom(role, 11, old(View()), network)
    {
      hide RunFrom, Ready, Perform, ConnectAccepted, StatusAccepted, SampleAccessGranted;
      RunStep(role, 11, View(), network);
      if !open {
        return;
      }
      var r := ReceivePacket(Step.ReceiveSetChunkSize);
      if r.error.NoError? {
        chunkSize := r.number;
        ReceiveConnectionCommandResponse();
      }
    }

    method ReceiveConnectionCommandResponse()
      modifies this
      ensures View() == RunFrom(role, 12, old(View()), network)
    {
      hide RunFrom, Ready, Perform, ConnectAccepted, StatusAccepted, SampleAccessGranted;
      RunStep(role, 12, View(), network);
      if !open {
        return;
      }
      var r := ReceiveDynamicPacket(ReceiveConnectResponse);
      if r.error.NoError? {
        var successful := ConnectIsSuccessful(r.values);
        if successful {
          SendCreateStreamCommand();
        }
      }
    }

    method SendCreateStreamCommand()
      modifies this
      ensures View() == RunFrom(role, 13, old(View()), network)
    {
      hide RunFrom, Ready, Perform, ConnectAccepted, StatusAccepted, SampleAccessGranted;
      RunStep(role, 13, View(), network);
      if !open {
        return;
      }
      var r := SendPacket(SendCreateStream, 0);
      if r.error.NoError? {
        ReceiveCreateStreamCommandResponse();
      }
    }

    /** `isSuccessfull` is always true of this response. */
    method ReceiveCreateStreamCommandResponse()
      modifies this
      ensures View() == RunFrom(role, 14, old(View()), network)
    {
      hide RunFrom, Ready, Perform, ConnectAccepted, StatusAccepted, SampleAccessGranted;
      RunStep(role, 14, View(), network);
      if !open {
        return;
      }
      var r := ReceiveDynamicPacket(ReceiveCreateStreamResponse);
      if r.error.NoError? {
        if role.Broadcaster? {
          SendPublishCommand();
        } else {
          SendPlayCommandMessage();
        }
      }
    }

    method SendPublishCommand()
      requires role.Broadcaster?
      modifies this
      ensures View() == RunFrom(role, 15, old(View()), network)
    {
      hide RunFrom, Ready, Perform, ConnectAccepted, StatusAccepted, SampleAccessGranted;
      RunStep(role, 15, View(), network);
      if !open {
        return;
      }
      var r := SendPacket(SendPublish, 0);
      if r.error.NoError? {
        ReceiveOnStatusCommandResponse();
      }
    }

    method SendPlayCommandMessage()
      requires role.Watcher?
      modifies this
      ensures View() == RunFrom(role, 15, old(View()), network)
    {
      hide RunFrom, Ready, Perform, ConnectAccepted, StatusAccepted, SampleAccessGranted;
      RunStep(role, 15, View(), network);
      if !open {
        return;
      }
      var r := SendPacket(SendPlay, 0);
      if r.error.NoError? {
        ReceiveStreamBeginMessage();
      }
    }

    method ReceiveStreamBeginMessage()
      requires role.Watcher?
      modifies this
      ensures View() == RunFrom(role, 16, old(View()), network)
    {
      hide RunFrom, Ready, Perform, ConnectAccepted, StatusAccepted, SampleAccessGranted;
      RunStep(role, 16, View(), network);
      if !open {
        return;
      }
      var r := ReceiveDynamicPacket(ReceiveStreamBegin);
      if r.error.NoError? {
        ReceiveOnStatusCommandResponse();
      }
    }

    method ReceiveOnStatusCommandResponse()
      modifies this
      ensures View() == RunFrom(role, OnStatus(role), old(View()), network)
    {
      hide RunFrom, Ready, Perform, ConnectAccepted, StatusAccepted, SampleAccessGranted;
      RunStep(role, OnStatus(role), View(), network);
      if !open {
        return;
      }
      var r := ReceiveDynamicPacket(ReceiveOnStatus);
      if r.error.NoError? {
        var successful := StatusIsSuccessful(r.values);
        RunEnds(Broadcaster, View(), network);
        if !successful {
          calls := calls + [ReconnectionRequired];
          Close();
        } else if role.Broadcaster? {
          SessionReady();
        } else {
          ReceiveRtmpSampleAccessMessage();
        }
      }
    }

    method ReceiveRtmpSampleAccessMessage()
      requires role.Watcher?
      modifies this
      ensures View() == RunFrom(role, 18, old(View()), network)
    {
      hide RunFrom, Ready, Perform, ConnectAccepted, StatusAccepted, SampleAccessGranted;
      LastStepOfWatcher(View(), network);
      if !open {
        return;
      }
      var r := ReceiveDynamicPacket(ReceiveSampleAccess);
      if r.error.NoError? {
        var successful := SampleAccessIsSuccessful(r.values);
        if successful {
          PlayReady();
        }
      }
    }

    method SessionReady()
      modifies this`calls
      ensures View() == Ready(Broadcaster, old(View()))
    {
      if !open {
        return;
      }
      calls := calls + [SessionStarted];
    }

    /** What an accepted RtmpSampleAccess leads to; the media loop is started whether or not the socket is open. */
    method PlayReady()
      modifies this`calls, this`stopped, this`mediaChunkSize
      ensures View() == Ready(Watcher, old(View()))
    {
      SessionReady();
      StartMediaPacketRetriever();
    }

    method StartMediaPacketRetriever()
      modifies this`stopped, this`mediaChunkSize
      ensures View() == if old(stopped)
                        then old(View()).(stopped := false, mediaChunkSize := old(mediaChunkSize) + [chunkSize])
                        else old(View())
    {
      if !stopped {
        return;
      }
      stopped := false;
      mediaChunkSize := mediaChunkSize + [chunkSize];
    }
  }

  function OnStatus(role: Role): nat {
    if role.Broadcaster? then 16 else 17
  }
}
