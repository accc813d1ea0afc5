/** What holds of every run of a session, whatever the server and the network do. */
module SessionSafety {
  import opened Bytes
  import opened Replies
  import opened Session

  /** The number of socket operations before step `k`. */
  function OperationsBefore(role: Role, k: nat): nat
    requires k <= Length(role)
  {
    if k == 0 then 0 else OperationsBefore(role, k - 1) + Operations(StepAt(role, k - 1))
  }

  function ReplyTo(role: Role, k: nat, net: Network): Reply
    requires k < Length(role)
  {
    net(OperationsBefore(role, k) + Operations(StepAt(role, k)) - 1)
  }

  predicate StaysOpen(r: Reply) {
    !r.closed && !Closes(r.error)
  }

  /** The socket is open after the first `n` operations. */
  predicate OpenAfter(net: Network, n: nat) {
    forall i :: 0 <= i < n ==> StaysOpen(net(i))
  }

  /** The calls that `checkError` makes in one operation of a socket that is open before it or is not. */
  function ErrorCalls(open: bool, r: Reply): seq<Call> {
    (if AsksToReconnect(r.error) then [ReconnectionRequired, ReconnectionRequired] else [])
    + (if Closes(r.error) && open && !r.closed then [SocketWillClose, SocketDidClose] else [])
  }

  /** The calls that the socket makes in its first `n` operations. */
  function SocketCalls(net: Network, n: nat): seq<Call> {
    if n == 0 then [] else SocketCalls(net, n - 1) + ErrorCalls(OpenAfter(net, n - 1), net(n - 1))
  }

  predicate OpenBefore(role: Role, k: nat, net: Network)
    requires k <= Length(role)
  {
    OpenAfter(net, OperationsBefore(role, k))
  }

  const WINDOW_STEP := 8       // ReceiveWindowAck
  const CHUNK_SIZE_STEP := 11  // ReceiveSetChunkSize

  /** What is checked before step `k` is attempted. */
  predicate MayAttempt(role: Role, k: nat, net: Network)
    requires k < Length(role)
  {
    && (k >= HANDSHAKE ==> OpenBefore(role, k, net))
    && (StepAt(role, k) == SendWindowAck ==> ReplyTo(role, WINDOW_STEP, net).number > 0)
  }

  predicate Succeeded(role: Role, k: nat, net: Network)
    requires k < Length(role)
  {
    ReplyTo(role, k, net).error.NoError? && Accepts(StepAt(role, k), ReplyTo(role, k, net))
  }

  /** The first `k` steps are attempted and succeed. */
  predicate Clear(role: Role, k: nat, net: Network)
    requires k <= Length(role)
  {
    forall j :: 0 <= j < k ==> MayAttempt(role, j, net) && Succeeded(role, j, net)
  }

  /** A session before it is connected; an object used before keeps its window, chunk size and loop flag. */
  predicate Fresh(s: State) {
    s.open && s.operations == 0 && s.log == [] && s.calls == [] && s.mediaChunkSize == []
  }

  /** The entry of step `k`: the chunk size sent is the session's own, the window sent is the one received. */
  function EntryAt(role: Role, k: nat, net: Network, chunkSize: u32): Entry
    requires k < Length(role)
  {
    var step := StepAt(role, k);
    Entry(step, if step == SendSetChunkSize then chunkSize
                else if step == SendWindowAck then ReplyTo(role, WINDOW_STEP, net).number else 0)
  }

  function LogAt(role: Role, k: nat, net: Network, chunkSize: u32): seq<Entry>
    requires k <= Length(role)
  {
    seq(k, i requires 0 <= i < k => EntryAt(role, i, net, chunkSize))
  }

  function StateAt(role: Role, k: nat, net: Network, s0: State): State
    requires k <= Length(role)
  {
    State(OpenBefore(role, k, net), OperationsBefore(role, k), LogAt(role, k, net, s0.chunkSize),
          SocketCalls(net, OperationsBefore(role, k)),
          if k > WINDOW_STEP then ReplyTo(role, WINDOW_STEP, net).number else s0.window,
          if k > CHUNK_SIZE_STEP then ReplyTo(role, CHUNK_SIZE_STEP, net).number else s0.chunkSize,
          s0.stopped, [])
  }

  // ----- one step

  lemma StepsOfInterest(role: Role, k: nat)
    requires k < Length(role)
    ensures StepAt(role, k) == SendSetChunkSize <==> k == 6
    ensures StepAt(role, k) == ReceiveWindowAck <==> k == WINDOW_STEP
    ensures StepAt(role, k) == SendWindowAck <==> k == 10
    ensures StepAt(role, k) == ReceiveSetChunkSize <==> k == CHUNK_SIZE_STEP
    ensures StepAt(role, k) == ReceiveOnStatus <==> k == OnStatus(role)
  {
  }

  lemma ExchangeNext(s: State, net: Network)
    requires s.open == OpenAfter(net, s.operations) && s.calls == SocketCalls(net, s.operations)
    ensures Exchanged(s, net(s.operations)) == s.(open := OpenAfter(net, s.operations + 1),
                                                  operations := s.operations + 1,
                                                  calls := SocketCalls(net, s.operations + 1))
  {
    var n := s.operations;
    assert OpenAfter(net, n + 1) <==> OpenAfter(net, n) && StaysOpen(net(n));
    assert s.calls + [] == s.calls;
  }

  lemma OperationsNext(role: Role, k: nat)
    requires k < Length(role)
    ensures OperationsBefore(role, k + 1) == OperationsBefore(role, k) + Operations(StepAt(role, k))
  {
  }

  lemma LogGrows(role: Role, k: nat, net: Network, chunkSize: u32)
    requires k < Length(role)
    ensures LogAt(role, k + 1, net, chunkSize) == LogAt(role, k, net, chunkSize) + [EntryAt(role, k, net, chunkSize)]
  {
    hide EntryAt;
  }

  /** The entry made is the one of the log. */
  lemma Enters(role: Role, k: nat, net: Network, s0: State)
    requires k < Length(role)
    ensures var step := StepAt(role, k);
            Entry(step, Number(step, StateAt(role, k, net, s0))) == EntryAt(role, k, net, s0.chunkSize)
  {
    hide StepAt, OpenBefore, LogAt, ReplyTo, OperationsBefore;
    StepsOfInterest(role, k);
  }

  lemma PerformsAt(s: State, step: Step, net: Network)
    requires s.open == OpenAfter(net, s.operations) && s.calls == SocketCalls(net, s.operations)
    ensures var n := s.operations + Operations(step);
            Perform(s, step, net)
            == (net(n - 1), s.(open := OpenAfter(net, n), operations := n, calls := SocketCalls(net, n),
                               log := s.log + [Entry(step, Number(step, s))]))
  {
    hide OpenAfter, SocketCalls, Exchanged, Number;
    var s1 := s.(log := s.log + [Entry(step, Number(step, s))]);
    ExchangeNext(s1, net);
    ExchangeNext(Exchanged(s1, net(s1.operations)), net);
  }

  lemma Performs(role: Role, k: nat, net: Network, s0: State)
    requires k < Length(role)
    ensures var (r, s1) := Perform(StateAt(role, k, net, s0), StepAt(role, k), net);
            && r == ReplyTo(role, k, net)
            && s1 == StateAt(role, k, net, s0).(open := OpenBefore(role, k + 1, net),
                                                operations := OperationsBefore(role, k + 1),
                                                log := LogAt(role, k + 1, net, s0.chunkSize),
                                                calls := SocketCalls(net, OperationsBefore(role, k + 1)))
  {
    hide StepAt, Operations, OperationsBefore, LogAt, EntryAt, Number, OpenAfter, SocketCalls, Perform;
    OperationsNext(role, k);
    LogGrows(role, k, net, s0.chunkSize);
    Enters(role, k, net, s0);
    PerformsAt(StateAt(role, k, net, s0), StepAt(role, k), net);
  }

  /** The calls made beside those of the socket when step `k` does not succeed. */
  function RejectionCalls(role: Role, k: nat, net: Network): seq<Call>
    requires k < Length(role)
  {
    if k != OnStatus(role) || !ReplyTo(role, k, net).error.NoError? then [] else
    [ReconnectionRequired] + if OpenBefore(role, k + 1, net) then [SocketWillClose, SocketDidClose] else []
  }

  lemma Tries(role: Role, k: nat, net: Network, s0: State)
    requires k < Length(role)
    ensures var s, (s1, goesOn) := StateAt(role, k, net, s0), Try(role, k, StateAt(role, k, net, s0), net);
            && (goesOn <==> MayAttempt(role, k, net) && Succeeded(role, k, net))
            && (goesOn ==> s1 == StateAt(role, k + 1, net, s0))
            && (!MayAttempt(role, k, net) ==> s1 == s)
            && (MayAttempt(role, k, net) && !Succeeded(role, k, net) ==>
                && s1.log == LogAt(role, k + 1, net, s0.chunkSize) && s1.mediaChunkSize == []
                && s1.operations == OperationsBefore(role, k + 1)
                && s1.calls == SocketCalls(net, OperationsBefore(role, k + 1)) + RejectionCalls(role, k, net))
  {
    hide StepAt, OpenAfter, Perform, LogAt, ReplyTo, OperationsBefore, SocketCalls;
    StepsOfInterest(role, k);
    if MayAttempt(role, k, net) {
      Performs(role, k, net, s0);
    }
    var calls := SocketCalls(net, OperationsBefore(role, k + 1));
    assert calls + [] == calls;
    assert calls + ([ReconnectionRequired] + []) == calls + [ReconnectionRequired];
    assert calls + [ReconnectionRequired] + [SocketWillClose, SocketDidClose]
           == calls + ([ReconnectionRequired] + [SocketWillClose, SocketDidClose]);
  }

  // ----- the whole run

  /** A clear start of the ladder is run through. */
  lemma {:induction false} RunReaches(role: Role, k: nat, net: Network, s0: State)
    requires k <= Length(role) && Clear(role, k, net)
    ensures var s := RunFrom(role, k, StateAt(role, k, net, s0), net);
            RunFrom(role, 0, StateAt(role, 0, net, s0), net)
            == if k >= HANDSHAKE then s.(calls := s.calls + [HandshakeDone]) else s
  {
    hide RunFrom, Try, StateAt, MayAttempt, Succeeded;
    if k > 0 {
      RunReaches(role, k - 1, net, s0);
      Tries(role, k - 1, net, s0);
      RunStep(role, k - 1, StateAt(role, k - 1, net, s0), net);
    }
  }

  /** Every run gets to some step and no further. */
  lemma RunStops(role: Role, net: Network) returns (k: nat)
    ensures k <= Length(role) && Clear(role, k, net)
    ensures k < Length(role) ==> !(MayAttempt(role, k, net) && Succeeded(role, k, net))
  {
    hide MayAttempt, Succeeded;
    k := 0;
    while k < Length(role) && MayAttempt(role, k, net) && Succeeded(role, k, net)
      invariant k <= Length(role) && Clear(role, k, net)
    {
      k := k + 1;
    }
  }

  lemma FreshIsStart(role: Role, net: Network, s0: State)
    requires Fresh(s0)
    ensures StateAt(role, 0, net, s0) == s0
  {
  }

  lemma LogIsLadder(role: Role, s0: State, net: Network) returns (k: nat)
    requires Fresh(s0)
    ensures k <= Length(role) && Clear(role, k, net)
    ensures k < Length(role) ==> !(MayAttempt(role, k, net) && Succeeded(role, k, net))
    ensures var n := if k < Length(role) && MayAttempt(role, k, net) then k + 1 else k;
            && RunFrom(role, 0, s0, net).log == LogAt(role, n, net, s0.chunkSize)
            && RunFrom(role, 0, s0, net).operations == OperationsBefore(role, n)
  {
    hide RunFrom, Try, MayAttempt, Succeeded, StepAt, LogAt, OperationsBefore;
    k := RunStops(role, net);
    FreshIsStart(role, net, s0);
    RunReaches(role, k, net, s0);
    if k < Length(role) {
      Tries(role, k, net, s0);
      RunStep(role, k, StateAt(role, k, net, s0), net);
    } else {
      RunEnds(role, StateAt(role, k, net, s0), net);
    }
  }

  /** The steps attempted are always a start of the fixed ladder, each with the number it has to carry, and a step is
      attempted exactly when all before it succeeded and its own check passes. */
  lemma LadderIsFollowed(role: Role, s0: State, net: Network)
    requires Fresh(s0)
    ensures var log := RunFrom(role, 0, s0, net).log;
            && |log| <= Length(role)
            && RunFrom(role, 0, s0, net).operations == OperationsBefore(role, |log|)
            && (forall k :: 0 <= k < |log| ==> log[k] == EntryAt(role, k, net, s0.chunkSize))
            && (forall k :: 0 <= k < Length(role) ==>
                  (k < |log| <==> Clear(role, k, net) && MayAttempt(role, k, net)))
  {
    hide RunFrom, MayAttempt, Succeeded, EntryAt, Length;
    var k := LogIsLadder(role, s0, net);
  }

  predicate StatusRejected(role: Role, net: Network) {
    var k := OnStatus(role);
    Clear(role, k, net) && MayAttempt(role, k, net) && ReplyTo(role, k, net).error.NoError?
    && !StatusAccepted(ReplyTo(role, k, net).values)
  }

  /** Every call that a delegate gets from a run, in order: first those that the socket makes on its own errors, then
      the start of the session or the end after a rejected status, and last the end of the handshake, whose callback
      runs the rest of the ladder first. The session is started at most once, and exactly when the whole ladder
      succeeded over an open socket. */
  lemma CallsAreExact(role: Role, s0: State, net: Network)
    requires Fresh(s0)
    ensures var s := RunFrom(role, 0, s0, net);
            s.calls
            == SocketCalls(net, s.operations)
               + (if Clear(role, Length(role), net) && OpenBefore(role, Length(role), net) then [SessionStarted]
                  else if StatusRejected(role, net) then RejectionCalls(role, OnStatus(role), net) else [])
               + (if Clear(role, HANDSHAKE, net) then [HandshakeDone] else [])
  {
    hide RunFrom, Try, MayAttempt, StepAt, LogAt, OpenBefore, ReplyTo, StatusAccepted, OperationsBefore, SocketCalls,
         RejectionCalls, Succeeded;
    var k := RunStops(role, net);
    FreshIsStart(role, net, s0);
    RunReaches(role, k, net, s0);
    StatusDecides(role, k, net);
    if k < Length(role) {
      Tries(role, k, net, s0);
      RunStep(role, k, StateAt(role, k, net, s0), net);
    } else {
      RunEnds(role, StateAt(role, k, net, s0), net);
    }
    var calls := SocketCalls(net, RunFrom(role, 0, s0, net).operations);
    assert calls + [] == calls;
  }

  /** Where a run stops decides whether its status was rejected. */
  lemma StatusDecides(role: Role, k: nat, net: Network)
    requires k <= Length(role) && Clear(role, k, net)
    requires k < Length(role) ==> !(MayAttempt(role, k, net) && Succeeded(role, k, net))
    ensures StatusRejected(role, net) ==> k == OnStatus(role)
    ensures k < Length(role) && MayAttempt(role, k, net) && !StatusRejected(role, net) ==>
              RejectionCalls(role, k, net) == []
    ensures k < Length(role) && !MayAttempt(role, k, net) ==> !StatusRejected(role, net)
  {
    hide MayAttempt, ReplyTo, StepAt, OpenBefore, StatusAccepted;
    StepsOfInterest(role, OnStatus(role));
  }

  lemma {:induction false} SocketCallsAre(net: Network, n: nat)
    ensures SessionStarted !in SocketCalls(net, n) && HandshakeDone !in SocketCalls(net, n)
    ensures ReconnectionRequired in SocketCalls(net, n)
            <==> exists i :: 0 <= i < n && AsksToReconnect(net(i).error)
  {
    hide OpenAfter;
    if n != 0 {
      SocketCallsAre(net, n - 1);
    }
  }

  /** A delegate is asked to reconnect exactly when the status was rejected or an operation of the run ended with
      one of the five errors that ask for it. */
  lemma ReconnectionExactlyWhen(role: Role, s0: State, net: Network)
    requires Fresh(s0)
    ensures var s := RunFrom(role, 0, s0, net);
            ReconnectionRequired in s.calls
            <==> StatusRejected(role, net) || exists i :: 0 <= i < s.operations && AsksToReconnect(net(i).error)
  {
    hide RunFrom, SocketCalls, Clear, OpenBefore, StatusRejected;
    CallsAreExact(role, s0, net);
    SocketCallsAre(net, RunFrom(role, 0, s0, net).operations);
    if StatusRejected(role, net) {
      NotStartedAfterRejection(role, net);
    }
  }

  lemma NotStartedAfterRejection(role: Role, net: Network)
    requires StatusRejected(role, net)
    ensures !Clear(role, Length(role), net)
    ensures ReconnectionRequired in RejectionCalls(role, OnStatus(role), net)
  {
    hide MayAttempt, ReplyTo, StepAt, OpenBefore, StatusAccepted;
    StepsOfInterest(role, OnStatus(role));
    assert !Succeeded(role, OnStatus(role), net);
  }

  /** The media loop is started by a watcher only, at most once, and with the chunk size that the server announced;
      that it is started does not depend on the socket being open still. */
  lemma MediaLoopUsesAnnouncedSize(role: Role, s0: State, net: Network)
    requires Fresh(s0)
    ensures RunFrom(role, 0, s0, net).mediaChunkSize
            == if role.Watcher? && s0.stopped && Clear(role, Length(role), net)
               then [ReplyTo(role, CHUNK_SIZE_STEP, net).number] else []
    ensures Clear(role, Length(role), net) ==>
              RunFrom(role, 0, s0, net).chunkSize == ReplyTo(role, CHUNK_SIZE_STEP, net).number
  {
    hide RunFrom, Try, MayAttempt, StepAt, LogAt, OpenBefore, ReplyTo;
    var k := RunStops(role, net);
    FreshIsStart(role, net, s0);
    RunReaches(role, k, net, s0);
    if k < Length(role) {
      Tries(role, k, net, s0);
      RunStep(role, k, StateAt(role, k, net, s0), net);
    } else {
      RunEnds(role, StateAt(role, k, net, s0), net);
    }
  }

  /** The gates of a started session, by the place of the socket operation that has to satisfy each. */
  lemma StartedSessionPassedGates(role: Role, s0: State, net: Network)
    requires Fresh(s0) && SessionStarted in RunFrom(role, 0, s0, net).calls
    ensures net(2).number == PROTOCOL_VERSION && net(8).number > 0
    ensures ConnectAccepted(net(13).values)
    ensures role.Broadcaster? ==> StatusAccepted(net(19).values)
    ensures role.Watcher? ==> StatusAccepted(net(21).values) && SampleAccessGranted(net(23).values)
    ensures OpenAfter(net, if role.Broadcaster? then 20 else 24)
  {
    hide *;
    CallsAreExact(role, s0, net);
    SocketCallsAre(net, RunFrom(role, 0, s0, net).operations);
    NoStartAmongRejections(role, net);
    ClearLadderPassesGates(role, net);
  }

  lemma NoStartAmongRejections(role: Role, net: Network)
    ensures SessionStarted !in RejectionCalls(role, OnStatus(role), net)
  {
  }

  lemma ClearLadderPassesGates(role: Role, net: Network)
    requires Clear(role, Length(role), net) && OpenBefore(role, Length(role), net)
    ensures net(2).number == PROTOCOL_VERSION && net(8).number > 0
    ensures ConnectAccepted(net(13).values)
    ensures role.Broadcaster? ==> StatusAccepted(net(19).values)
    ensures role.Watcher? ==> StatusAccepted(net(21).values) && SampleAccessGranted(net(23).values)
    ensures OpenAfter(net, if role.Broadcaster? then 20 else 24)
  {
    hide ConnectAccepted, StatusAccepted, SampleAccessGranted, OperationsBefore, Operations, MayAttempt;
    var last := Length(role) - 1;
    Places(role, 2);
    Places(role, 12);
    Places(role, OnStatus(role));
    Places(role, last);
    assert Succeeded(role, 2, net) && Succeeded(role, 12, net);
    assert Succeeded(role, OnStatus(role), net) && Succeeded(role, last, net);
    OperationsNext(role, last);
    WindowIsPositive(role, net);
  }

  lemma WindowIsPositive(role: Role, net: Network)
    requires Clear(role, Length(role), net)
    ensures net(8).number > 0
  {
    hide OperationsBefore, Operations, Accepts;
    Places(role, WINDOW_STEP);
    assert MayAttempt(role, 10, net);
  }

  lemma OperationsAt(role: Role, k: nat)
    requires k < Length(role)
    ensures Operations(StepAt(role, k)) == if k == 12 || k == 14 || k >= 16 then 2 else 1
  {
  }

  lemma {:induction false} Places(role: Role, k: nat)
    requires k < Length(role)
    ensures Operations(StepAt(role, k)) == if k == 12 || k == 14 || k >= 16 then 2 else 1
    ensures OperationsBefore(role, k)
            == if k <= 12 then k else if k <= 14 then k + 1 else if k <= 16 then k + 2 else 2 * k - 14
  {
    hide Operations, StepAt;
    OperationsAt(role, k);
    if k > 0 {
      Places(role, k - 1);
    }
  }
}
