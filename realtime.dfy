/**
 * The `/ws/voice` handler as it runs: nested receive loops over one socket,
 * with the connection registry it reports disconnects to. Every frame the
 * handler receives is taken from `events` in order, and what it sends is
 * recorded on the socket; the handler is proved to send exactly what
 * `RealtimeSpec.Run` says and to stop where `Run` stops.
 */
module Realtime {
  import opened Wrappers
  import opened RealtimeSpec

  /** An accepted WebSocket: the JSON messages sent on it so far, oldest first. */
  class VoiceSocket {
    var sent: seq<Outbound>

    constructor ()
      ensures sent == []
    {
      sent := [];
    }

    /** `send_json(message)`. */
    method SendJson(message: Outbound)
      modifies this
      ensures sent == old(sent) + [message]
    {
      sent := sent + [message];
    }
  }

  /** `list.remove(x)` on a list that holds `x`: the first occurrence goes, the rest keep their order. */
  function RemoveFirst(s: seq<VoiceSocket>, x: VoiceSocket): (r: seq<VoiceSocket>)
    ensures x in s ==> |r| == |s| - 1
    ensures x !in s ==> r == s
  {
    if s == [] then []
    else if s[0] == x then s[1..]
    else [s[0]] + RemoveFirst(s[1..], x)
  }

  /** Exactly one occurrence of a registered socket is removed, and nothing else. */
  lemma {:induction false} RemoveFirstCounts(s: seq<VoiceSocket>, x: VoiceSocket)
    requires x in s
    ensures multiset(RemoveFirst(s, x)) == multiset(s) - multiset{x}
  {
    assert s == [s[0]] + s[1..];
    if s[0] != x {
      RemoveFirstCounts(s[1..], x);
    }
  }

  /** Removing `x` undoes appending it, whatever is already registered before and after. */
  lemma {:induction false} RemoveFirstUndoesInsert(p: seq<VoiceSocket>, x: VoiceSocket, q: seq<VoiceSocket>)
    requires x !in p
    ensures RemoveFirst(p + [x] + q, x) == p + q
  {
    if p != [] {
      assert (p + [x] + q)[1..] == p[1..] + [x] + q;
      RemoveFirstUndoesInsert(p[1..], x, q);
      assert p + q == [p[0]] + (p[1..] + q);
    }
  }

  /** `ConnectionManager`: the sockets registered as active, in registration order. */
  class ConnectionManager {
    var activeConnections: seq<VoiceSocket>

    constructor ()
      ensures activeConnections == []
    {
      activeConnections := [];
    }

    /** `connect(websocket)`. */
    method Connect(ws: VoiceSocket)
      modifies this
      ensures activeConnections == old(activeConnections) + [ws]
    {
      activeConnections := activeConnections + [ws];
    }

    /**
     * `disconnect(websocket)`: `raised` stands for the `ValueError` of
     * `list.remove` on a socket that was never registered, which leaves the
     * list as it was.
     */
    method Disconnect(ws: VoiceSocket) returns (raised: bool)
      modifies this
      ensures raised <==> ws !in old(activeConnections)
      ensures activeConnections == RemoveFirst(old(activeConnections), ws)
    {
      if ws in activeConnections {
        activeConnections := RemoveFirst(activeConnections, ws);
        raised := false;
      } else {
        raised := true;
      }
    }
  }

  /**
   * Where the handler stopped (still receiving when the frames ran out, or
   * left), and whether the registry's `disconnect` raised on the way out.
   */
  datatype Exit = Exit(phase: Phase, disconnectRaised: bool)

  predicate LeftThroughHandler(p: Phase) {
    p == Ended(ClientDisconnected) || p == Ended(ReceiveError)
  }

  /** Why the query capture stopped receiving. */
  datatype CaptureEnd = ProcessRequested | CaptureFailed | FramesRanOut

  /**
   * The inner loop that follows a wake word: binary frames go into the query
   * buffer, a `process_query` action stops the capture, and a parse or receive
   * failure sends one error and gives up the capture. It starts at frame
   * `start`, receives up to frame `i`, and sends what `Run` sends from a fresh
   * capture over those frames.
   */
  method CaptureQuery(ws: VoiceSocket, c: Collaborators, events: seq<Inbound>, start: nat)
    returns (i: nat, queryAudio: seq<byte>, queryAccumulated: bool, end: CaptureEnd)
    requires start <= |events|
    modifies ws
    ensures start <= i <= |events|
    ensures !end.ProcessRequested? ==> ws.sent == old(ws.sent) + Run(c, Capture([], false), events[start..i]).sent
    ensures end.ProcessRequested? ==> ws.sent == old(ws.sent)
    ensures end.FramesRanOut? ==>
      i == |events| && Run(c, Capture([], false), events[start..i]).next == Capture(queryAudio, queryAccumulated)
    ensures end.CaptureFailed? ==> Run(c, Capture([], false), events[start..i]).next == Idle([])
    ensures end.ProcessRequested? ==>
      Run(c, Capture([], false), events[start..i]) ==
        Step(c, Capture(queryAudio, queryAccumulated), Text(Action(ProcessQueryAction)))
  {
    queryAudio, queryAccumulated := [], false;
    i := start;
    assert events[start..i] == [];
    while i < |events|
      invariant start <= i <= |events|
      invariant ws.sent == old(ws.sent)
      invariant Run(c, Capture([], false), events[start..i]) == Transition(Capture(queryAudio, queryAccumulated), [])
    {
      var queryData := events[i];
      ghost var step := Step(c, Capture(queryAudio, queryAccumulated), queryData);
      CaptureAdvance(c, events, start, i, Capture(queryAudio, queryAccumulated));
      i := i + 1;
      match queryData {
        case Binary(bytes) =>
          queryAudio := queryAudio + bytes;
          queryAccumulated := true;
        case Text(Action(name)) =>
          if name == ProcessQueryAction {
            return i, queryAudio, queryAccumulated, ProcessRequested;
          }
          assert step == Transition(Capture(queryAudio, queryAccumulated), []);
        case Text(NoAction) =>
        case Text(Malformed(e)) =>
          assert step == Transition(Idle([]), [TranscribeError(e)]);
          ws.SendJson(TranscribeError(e));
          return i, queryAudio, queryAccumulated, CaptureFailed;
        case NoPayload =>
        case Disconnected(e) =>
          assert step == Transition(Idle([]), [TranscribeError(e)]);
          ws.SendJson(TranscribeError(e));
          return i, queryAudio, queryAccumulated, CaptureFailed;
        case ReceiveFailed(e) =>
          assert step == Transition(Idle([]), [TranscribeError(e)]);
          ws.SendJson(TranscribeError(e));
          return i, queryAudio, queryAccumulated, CaptureFailed;
      }
    }
    end := FramesRanOut;
  }

  /** One more frame of a capture that has sent nothing yet: `Run` is that frame's step. */
  lemma CaptureAdvance(c: Collaborators, events: seq<Inbound>, start: nat, i: nat, p: Phase)
    requires start <= i < |events|
    requires Run(c, Capture([], false), events[start..i]) == Transition(p, [])
    ensures Run(c, Capture([], false), events[start..i + 1]) == Step(c, p, events[i])
  {
    RunSnoc(c, Capture([], false), events[start..i], events[i]);
    assert events[start..i + 1] == events[start..i] + [events[i]];
    assert [] + Step(c, p, events[i]).sent == Step(c, p, events[i]).sent;
  }

  /**
   * Answering a captured query: `processing`, then transcription, response
   * generation and speech synthesis; `answered` says whether all three
   * succeeded, in which case `response` and the listening status were sent.
   */
  method ProcessQuery(ws: VoiceSocket, c: Collaborators, queryAudio: seq<byte>) returns (answered: bool)
    modifies ws
    ensures ws.sent == old(ws.sent) + AnswerQuery(c, queryAudio).sent
    ensures answered <==> AnswerQuery(c, queryAudio).next == Ended(TurnCompleted)
  {
    ws.SendJson(Processing(ProcessingQuery));
    answered := false;
    match c.speechToText(queryAudio) {
      case Failure(e) =>
        ws.SendJson(TranscribeError(e));
      case Success(queryText) =>
        match c.generateResponse(VoiceUserId, queryText) {
          case Failure(e) =>
            ws.SendJson(TranscribeError(e));
          case Success(reply) =>
            match c.textToSpeech(reply, Voice) {
              case Failure(e) =>
                ws.SendJson(TranscribeError(e));
              case Success(responseAudio) =>
                ws.SendJson(Response(reply, c.base64(responseAudio)));
                ws.SendJson(Status(ListeningAgain));
                answered := true;
            }
        }
    }
  }

  /**
   * What follows a wake word: the query capture from frame `start` on, then,
   * if a `process_query` action arrives after some audio, the answer. It
   * sends what `Run` sends from a fresh capture over the frames it receives.
   */
  method AwaitQuery(ws: VoiceSocket, c: Collaborators, events: seq<Inbound>, start: nat)
    returns (i: nat, next: Phase)
    requires start <= |events|
    modifies ws
    ensures start <= i <= |events|
    ensures var rest := Run(c, Capture([], false), events[start..i]);
      ws.sent == old(ws.sent) + rest.sent && next == rest.next
    ensures next == Idle([]) || next == Ended(TurnCompleted) || (next.Capture? && i == |events|)
  {
    var queryAudio, queryAccumulated, end;
    i, queryAudio, queryAccumulated, end := CaptureQuery(ws, c, events, start);
    ghost var rest := Run(c, Capture([], false), events[start..i]);
    match end {
      case FramesRanOut =>
        next := Capture(queryAudio, queryAccumulated);
      case CaptureFailed =>
        next := Idle([]);
      case ProcessRequested =>
        next := Idle([]);
        if queryAccumulated {
          var answered := ProcessQuery(ws, c, queryAudio);
          assert rest == AnswerQuery(c, queryAudio);
          if answered {
            next := Ended(TurnCompleted);
          }
        } else {
          assert rest == Transition(Idle([]), []);
        }
    }
  }

  /**
   * The drain of the idle buffer and what follows it, up to the point where
   * the handler listens for the wake word again (or leaves, or the frames
   * run out): transcription and the wake-word test, then, after a wake word,
   * the query from frame `start` on. `prefix` is what the handler has sent
   * since its first status message, before this drain; afterwards it has
   * sent what `Run` gives for the frames up to `i`.
   */
  method HandleUtterance(ws: VoiceSocket, c: Collaborators, audioBytes: seq<byte>, events: seq<Inbound>, start: nat,
                         ghost base: seq<Outbound>, ghost prefix: seq<Outbound>)
    returns (i: nat, next: Phase)
    requires start <= |events| && ws.sent == base + prefix
    requires Run(c, Idle([]), events[..start]) == Transition(Drain(c, audioBytes).next, prefix + Drain(c, audioBytes).sent)
    modifies ws
    ensures start <= i <= |events|
    ensures ws.sent == base + Run(c, Idle([]), events[..i]).sent && next == Run(c, Idle([]), events[..i]).next
    ensures next == Idle([]) || next == Ended(TurnCompleted) || (next.Capture? && i == |events|)
  {
    i, next := RespondToUtterance(ws, c, audioBytes, events, start);
    ghost var drained := Drain(c, audioBytes);
    ghost var rest := Run(c, drained.next, events[start..i]);
    assert ws.sent == base + (prefix + drained.sent + rest.sent);
    UtteranceComposes(c, events, start, i, drained, prefix);
  }

  /**
   * Transcription of the drained audio and the wake-word test, then, after a
   * wake word, the query from frame `start` on. It sends what `Drain` sends
   * and then what `Run` sends from the phase the drain leaves.
   */
  method RespondToUtterance(ws: VoiceSocket, c: Collaborators, audioBytes: seq<byte>, events: seq<Inbound>, start: nat)
    returns (i: nat, next: Phase)
    requires start <= |events|
    modifies ws
    ensures start <= i <= |events|
    ensures var drained := Drain(c, audioBytes);
      var rest := Run(c, drained.next, events[start..i]);
      ws.sent == old(ws.sent) + drained.sent + rest.sent && next == rest.next
    ensures next == Idle([]) || next == Ended(TurnCompleted) || (next.Capture? && i == |events|)
  {
    i := start;
    assert events[start..i] == [];
    match c.speechToText(audioBytes) {
      case Failure(e) =>
        ws.SendJson(TranscribeError(e));
        next := Idle([]);
      case Success(transcribedText) =>
        var detection := c.detect(transcribedText);
        if !detection.detected {
            ws.SendJson(Waiting(transcribedText, SayWakeWord));
          next := Idle([]);
        } else {
          ws.SendJson(WakeWordDetected(WakeGreeting));
          ws.SendJson(Status(ListeningForQuestion));
          i, next := AwaitQuery(ws, c, events, start);
        }
    }
  }

  /** The frames after a drain continue the run that the drain is part of. */
  lemma UtteranceComposes(c: Collaborators, events: seq<Inbound>, start: nat, i: nat, drained: Transition, prefix: seq<Outbound>)
    requires start <= i <= |events|
    requires Run(c, Idle([]), events[..start]) == Transition(drained.next, prefix + drained.sent)
    ensures var rest := Run(c, drained.next, events[start..i]);
      Run(c, Idle([]), events[..i]) == Transition(rest.next, prefix + drained.sent + rest.sent)
  {
    assert events[..i] == events[..start] + events[start..i];
    RunConcat(c, Idle([]), events[..start], events[start..i]);
  }

  /**
   * `websocket_voice_endpoint`, after `accept()`. It sends the listening
   * status, then exactly the messages `Run` gives for the frames, and it
   * stops in `Run`'s phase; the registry changes only when the handler
   * leaves through one of its exception handlers.
   */
  method WebsocketVoiceEndpoint(ws: VoiceSocket, manager: ConnectionManager, c: Collaborators, events: seq<Inbound>)
    returns (exit: Exit)
    modifies ws, manager
    ensures ws.sent == old(ws.sent) + [Status(ListeningForWakeWord)] + Run(c, Idle([]), events).sent
    ensures exit.phase == Run(c, Idle([]), events).next
    ensures exit.disconnectRaised <==> LeftThroughHandler(exit.phase) && ws !in old(manager.activeConnections)
    ensures manager.activeConnections ==
      if LeftThroughHandler(exit.phase) then RemoveFirst(old(manager.activeConnections), ws)
      else old(manager.activeConnections)
  {
    ws.SendJson(Status(ListeningForWakeWord));
    ghost var base := ws.sent;
    var audioBuffer: seq<byte> := [];
    var i := 0;
    while i < |events|
      invariant 0 <= i <= |events|
      invariant ws.sent == base + Run(c, Idle([]), events[..i]).sent
      invariant Run(c, Idle([]), events[..i]).next == Idle(audioBuffer)
      invariant manager.activeConnections == old(manager.activeConnections)
    {
      var data := events[i];
      ghost var prior := Run(c, Idle([]), events[..i]);
      ghost var step := Step(c, Idle(audioBuffer), data);
      RunSnoc(c, Idle([]), events[..i], data);
      assert events[..i + 1] == events[..i] + [data];
      i := i + 1;
      assert Run(c, Idle([]), events[..i]) == Transition(step.next, prior.sent + step.sent);
      match data {
        case Binary(bytes) =>
          audioBuffer := audioBuffer + bytes;
          if |audioBuffer| > FlushThreshold {
            var audioBytes := audioBuffer;
            audioBuffer := [];
            assert step == Drain(c, audioBytes);
            var start := i;
            var next;
            i, next := HandleUtterance(ws, c, audioBytes, events, start, base, prior.sent);
            if next.Capture? {
              assert events[..i] == events;
              return Exit(next, false);
            } else if next.Ended? {
              RunStopsAtEnd(c, Idle([]), events, i);
              return Exit(next, false);
            }
          } else {
            assert step == Transition(Idle(audioBuffer), []);
            assert prior.sent + [] == prior.sent;
          }
        case Disconnected(_) =>
          assert step == Transition(Ended(ClientDisconnected), []);
          var raised := manager.Disconnect(ws);
          RunStopsAtEnd(c, Idle([]), events, i);
          return Exit(Ended(ClientDisconnected), raised);
        case ReceiveFailed(e) =>
          assert step == Transition(Ended(ReceiveError), [Error(e)]);
          ws.SendJson(Error(e));
          var raised := manager.Disconnect(ws);
          RunStopsAtEnd(c, Idle([]), events, i);
          return Exit(Ended(ReceiveError), raised);
        case _ =>
          assert step == Transition(Idle(audioBuffer), []);
          assert prior.sent + [] == prior.sent;
      }
    }
    assert events[..i] == events;
    return Exit(Idle(audioBuffer), false);
  }

  // ---------------------------------------------------------------------------
  // Registration: the handler as written, and with `connect` added
  // ---------------------------------------------------------------------------

  /**
   * A connection as the module serves it: the handler runs with the module's
   * registry but nothing ever calls `connect`, so every exit through a handler
   * hands `disconnect` a socket the list does not hold, and it raises.
   */
  method ServeUnregistered(c: Collaborators, events: seq<Inbound>) returns (exit: Exit)
    ensures exit.phase == Run(c, Idle([]), events).next
    ensures exit.disconnectRaised <==> LeftThroughHandler(exit.phase)
  {
    var ws := new VoiceSocket();
    var manager := new ConnectionManager();
    exit := WebsocketVoiceEndpoint(ws, manager, c, events);
  }

  /**
   * A client that hangs up before sending any audio: `receive` hands back the
   * disconnect message, which carries neither bytes nor text, and the next
   * `receive` raises. The generic handler then calls `disconnect`, which raises.
   */
  method HangUpRaises(c: Collaborators, reason: string) returns (exit: Exit)
    ensures exit == Exit(Ended(ReceiveError), true)
  {
    HangUpRun(c, reason);
    exit := ServeUnregistered(c, [NoPayload, ReceiveFailed(reason)]);
  }

  /** `receive` raising `WebSocketDisconnect` while listening makes the disconnect handler raise. */
  method DisconnectRaises(c: Collaborators, reason: string) returns (exit: Exit)
    ensures exit == Exit(Ended(ClientDisconnected), true)
  {
    RunSnoc(c, Idle([]), [], Disconnected(reason));
    assert [] + [Disconnected(reason)] == [Disconnected(reason)];
    exit := ServeUnregistered(c, [Disconnected(reason)]);
  }

  /** The hang-up ends the handler through its generic exception handler, after one error. */
  lemma HangUpRun(c: Collaborators, reason: string)
    ensures Run(c, Idle([]), [NoPayload, ReceiveFailed(reason)]) == Transition(Ended(ReceiveError), [Error(reason)])
  {
    RunSnoc(c, Idle([]), [], NoPayload);
    assert [] + [NoPayload] == [NoPayload];
    RunSnoc(c, Idle([]), [NoPayload], ReceiveFailed(reason));
    assert [NoPayload] + [ReceiveFailed(reason)] == [NoPayload, ReceiveFailed(reason)];
  }

  /**
   * The handler with the socket registered right after it is accepted: it
   * sends and stops exactly as before, `disconnect` never raises, and on the
   * way out through a handler the registry is back to what it was.
   */
  method ServeConnection(ws: VoiceSocket, manager: ConnectionManager, c: Collaborators, events: seq<Inbound>)
    returns (exit: Exit)
    requires ws !in manager.activeConnections
    modifies ws, manager
    ensures ws.sent == old(ws.sent) + [Status(ListeningForWakeWord)] + Run(c, Idle([]), events).sent
    ensures exit.phase == Run(c, Idle([]), events).next
    ensures !exit.disconnectRaised
    ensures manager.activeConnections ==
      if LeftThroughHandler(exit.phase) then old(manager.activeConnections)
      else old(manager.activeConnections) + [ws]
  {
    manager.Connect(ws);
    exit := WebsocketVoiceEndpoint(ws, manager, c, events);
    if LeftThroughHandler(exit.phase) {
      RemoveFirstUndoesInsert(old(manager.activeConnections), ws, []);
      assert old(manager.activeConnections) + [ws] + [] == old(manager.activeConnections) + [ws];
      assert old(manager.activeConnections) + [] == old(manager.activeConnections);
    }
  }

  /** A fresh registered connection: nothing raises, and the registry is empty again after a handler exit. */
  method ServeRegistered(c: Collaborators, events: seq<Inbound>) returns (exit: Exit, stillRegistered: nat)
    ensures exit.phase == Run(c, Idle([]), events).next
    ensures !exit.disconnectRaised
    ensures stillRegistered == if LeftThroughHandler(exit.phase) then 0 else 1
  {
    var ws := new VoiceSocket();
    var manager := new ConnectionManager();
    exit := ServeConnection(ws, manager, c, events);
    stillRegistered := |manager.activeConnections|;
  }

  /** With registration, the same early hang-up leaves without raising and unregisters the socket. */
  method HangUpRecovers(c: Collaborators, reason: string) returns (exit: Exit, stillRegistered: nat)
    ensures exit == Exit(Ended(ReceiveError), false) && stillRegistered == 0
  {
    HangUpRun(c, reason);
    exit, stillRegistered := ServeRegistered(c, [NoPayload, ReceiveFailed(reason)]);
  }
}
