/**
 * What the `/ws/voice` endpoint does with each inbound frame, as a function of
 * where it stands: listening for the wake word with an audio buffer (`Idle`),
 * collecting the query after a wake word (`Capture`), or gone (`Ended`). The
 * outbound JSON messages a frame causes come out beside the next phase.
 * `Run` folds `Step` over a whole sequence of frames.
 */
module RealtimeSpec {
  import opened Wrappers
  import PyText
  import WakeWord

  newtype byte = x: int | 0 <= x < 256

  /** The idle buffer is drained and transcribed once it holds MORE than this many bytes. */
  const FlushThreshold := 32000
  const ProcessQueryAction := "process_query"
  /** The `user_id` of every `ChatRequest` the endpoint builds. */
  const VoiceUserId := "voice_ws_user"
  /** The `voice` passed to text-to-speech. */
  const Voice := "nova"
  const TranscribeErrorPrefix := "Could not transcribe audio: "

  const ListeningForWakeWord := "\U{1F3A4} Listening for 'Griot'... say 'Griot' to activate"
  const WakeGreeting := "\U{2728} Hello! I'm listening... what would you like to know?"
  const ListeningForQuestion := "\U{1F3AF} Listening for your question..."
  const SayWakeWord := "\U{1F3A4} Say 'Griot' to activate..."
  const ProcessingQuery := "\U{1F4D6} Processing your query..."
  const ListeningAgain := "\U{1F3A4} Listening for 'Griot' again..."

  /** The module-level `WakeWordDetector(wake_word="griot")`. */
  const Detector := WakeWord.NewDetector(WakeWord.DefaultWakeWord, WakeWord.DefaultConfidenceThreshold)

  /** What the endpoint makes of the text of a text frame. */
  datatype Control =
    | Action(name: string)        // a JSON object whose "action" is this string
    | NoAction                    // a JSON object whose `.get("action")` is not a string
    | Malformed(reason: string)   // `json.loads` raised, or its value has no `.get`

  /** One `websocket.receive()`. */
  datatype Inbound =
    | Binary(data: seq<byte>)       // a message carrying "bytes"
    | Text(control: Control)        // a message carrying "text" and no "bytes"
    | NoPayload                     // a message carrying neither, such as the disconnect message
    | Disconnected(reason: string)  // `receive` raised `WebSocketDisconnect`
    | ReceiveFailed(reason: string) // `receive` raised another exception

  /** The JSON messages the endpoint sends, by their "type". */
  datatype Outbound =
    | Status(message: string)
    | WakeWordDetected(message: string)
    | Waiting(heard: string, message: string)
    | Processing(message: string)
    | Response(text: string, audio: string)
    | Error(message: string)

  /**
   * The module-level services the endpoint calls: speech-to-text, the wake
   * word detector's `detect`, response generation (`user_id`, message),
   * text-to-speech (text, voice) and base64 encoding. The three remote ones
   * may raise, which `Failure(str(e))` stands for.
   */
  datatype Collaborators = Collaborators(
    speechToText: seq<byte> -> Result<string>,
    detect: string -> WakeWord.Detection,
    generateResponse: (string, string) -> Result<string>,
    textToSpeech: (string, string) -> Result<seq<byte>>,
    base64: seq<byte> -> string)

  /** The detector is the module's `WakeWordDetector(wake_word="griot")`. */
  ghost predicate ListensForGriot(c: Collaborators) {
    forall transcript :: c.detect(transcript) == WakeWord.Detect(Detector, transcript)
  }

  /** How the handler left: after a successful turn, or through one of its two exception handlers. */
  datatype End = TurnCompleted | ClientDisconnected | ReceiveError

  datatype Phase =
    | Idle(buffer: seq<byte>)                     // outer loop: `audio_buffer`
    | Capture(query: seq<byte>, accumulated: bool) // inner loop: `query_audio_buffer`, `query_accumulated`
    | Ended(how: End)

  /** The phase after some frames, and the messages sent meanwhile. */
  datatype Transition = Transition(next: Phase, sent: seq<Outbound>)

  function TranscribeError(reason: string): Outbound {
    Error(TranscribeErrorPrefix + reason)
  }

  predicate StartsWithPrefix(message: string) {
    |TranscribeErrorPrefix| <= |message| && message[..|TranscribeErrorPrefix|] == TranscribeErrorPrefix
  }

  /**
   * The drain of the idle buffer: transcribe, then test for the wake word. A
   * miss sends one `waiting` whose `heard` is the transcript as returned; a
   * hit sends `wake_word_detected` then `status` and starts a capture; a
   * failed transcription sends one error. The buffer is empty afterwards.
   */
  function Drain(c: Collaborators, audio: seq<byte>): (r: Transition)
    ensures r.next == Idle([]) || r.next == Capture([], false)
    ensures r.next.Capture? <==> c.speechToText(audio).Success? && c.detect(c.speechToText(audio).value).detected
    ensures r.next.Capture? ==> r.sent == [WakeWordDetected(WakeGreeting), Status(ListeningForQuestion)]
    ensures r.next.Idle? ==> |r.sent| == 1
    ensures r.next.Idle? && c.speechToText(audio).Success? ==>
      r.sent[0] == Waiting(c.speechToText(audio).value, SayWakeWord)
    ensures c.speechToText(audio).Failure? ==>
      r.sent[0].Error? && StartsWithPrefix(r.sent[0].message)
  {
    match c.speechToText(audio)
    case Failure(e) => Transition(Idle([]), [TranscribeError(e)])
    case Success(transcript) =>
      if c.detect(transcript).detected then
        Transition(Capture([], false), [WakeWordDetected(WakeGreeting), Status(ListeningForQuestion)])
      else
        Transition(Idle([]), [Waiting(transcript, SayWakeWord)])
  }

  /**
   * Answering a captured query: `processing` goes out first; then transcribe,
   * generate and synthesize. If all three succeed, `response` (the reply and
   * its encoded audio) and `status` follow and the handler leaves its loop;
   * the first failure instead sends one error and listening resumes.
   */
  function AnswerQuery(c: Collaborators, query: seq<byte>): (r: Transition)
    ensures |r.sent| >= 2 && r.sent[0] == Processing(ProcessingQuery)
    ensures r.next == Ended(TurnCompleted) || r.next == Idle([])
    ensures r.next.Ended? ==>
      && |r.sent| == 3 && r.sent[1].Response? && r.sent[2] == Status(ListeningAgain)
      && c.speechToText(query).Success?
      && c.generateResponse(VoiceUserId, c.speechToText(query).value) == Success(r.sent[1].text)
      && c.textToSpeech(r.sent[1].text, Voice).Success?
      && r.sent[1] == Response(r.sent[1].text, c.base64(c.textToSpeech(r.sent[1].text, Voice).value))
    ensures r.next.Idle? ==> |r.sent| == 2 && r.sent[1].Error? && StartsWithPrefix(r.sent[1].message)
    ensures r.next == Ended(TurnCompleted) <==>
      && c.speechToText(query).Success?
      && c.generateResponse(VoiceUserId, c.speechToText(query).value).Success?
      && c.textToSpeech(c.generateResponse(VoiceUserId, c.speechToText(query).value).value, Voice).Success?
  {
    var processing := Processing(ProcessingQuery);
    match c.speechToText(query)
    case Failure(e) => Transition(Idle([]), [processing, TranscribeError(e)])
    case Success(queryText) =>
      match c.generateResponse(VoiceUserId, queryText)
      case Failure(e) => Transition(Idle([]), [processing, TranscribeError(e)])
      case Success(reply) =>
        match c.textToSpeech(reply, Voice)
        case Failure(e) => Transition(Idle([]), [processing, TranscribeError(e)])
        case Success(audio) =>
          Transition(Ended(TurnCompleted), [processing, Response(reply, c.base64(audio)), Status(ListeningAgain)])
  }

  /** One frame. */
  function Step(c: Collaborators, p: Phase, ev: Inbound): Transition {
    match p
    case Ended(_) => Transition(p, [])
    case Idle(buffer) =>
      match ev {
        case Binary(data) =>
          if |buffer + data| > FlushThreshold then Drain(c, buffer + data)
          else Transition(Idle(buffer + data), [])
        case Disconnected(_) => Transition(Ended(ClientDisconnected), [])
        case ReceiveFailed(e) => Transition(Ended(ReceiveError), [Error(e)])
        case _ => Transition(p, [])
      }
    case Capture(query, accumulated) =>
      match ev {
        case Binary(data) => Transition(Capture(query + data, true), [])
        case Text(Action(name)) =>
          if name != ProcessQueryAction then Transition(p, [])
          else if accumulated then AnswerQuery(c, query)
          else Transition(Idle([]), [])
        case Text(NoAction) => Transition(p, [])
        case Text(Malformed(e)) => Transition(Idle([]), [TranscribeError(e)])
        case NoPayload => Transition(p, [])
        case Disconnected(e) => Transition(Idle([]), [TranscribeError(e)])
        case ReceiveFailed(e) => Transition(Idle([]), [TranscribeError(e)])
      }
  }

  /** The frames `evs` fed one after another to `step`, from phase `p`; the messages are concatenated. */
  function Fold(step: (Phase, Inbound) -> Transition, p: Phase, evs: seq<Inbound>): Transition
    decreases |evs|
  {
    if evs == [] then Transition(p, [])
    else
      var before := Fold(step, p, evs[..|evs| - 1]);
      var last := step(before.next, evs[|evs| - 1]);
      Transition(last.next, before.sent + last.sent)
  }

  function Stepper(c: Collaborators): (Phase, Inbound) -> Transition {
    (p, ev) => Step(c, p, ev)
  }

  /** The endpoint on the frames `evs`, from phase `p`. */
  function Run(c: Collaborators, p: Phase, evs: seq<Inbound>): Transition {
    Fold(Stepper(c), p, evs)
  }

  /** The audio bytes carried by the binary frames among `evs`, concatenated in order. */
  function Payload(evs: seq<Inbound>): seq<byte>
    decreases |evs|
  {
    if evs == [] then []
    else Payload(evs[..|evs| - 1]) + (if evs[|evs| - 1].Binary? then evs[|evs| - 1].data else [])
  }

  /** Frames the idle loop reads without leaving it: audio, text it ignores, and messages with no payload. */
  predicate IdleFrame(ev: Inbound) {
    ev.Binary? || ev.Text? || ev.NoPayload?
  }

  predicate IdleFrames(evs: seq<Inbound>) {
    forall k :: 0 <= k < |evs| ==> IdleFrame(evs[k])
  }

  /** Frames that do not end a capture: everything but a process-query action, a parse failure or a receive error. */
  predicate KeepsCapturing(ev: Inbound) {
    match ev
    case Binary(_) => true
    case Text(Action(name)) => name != ProcessQueryAction
    case Text(NoAction) => true
    case NoPayload => true
    case _ => false
  }

  /** The phases the endpoint can be in: the idle buffer never exceeds the threshold, and no audio means no flag. */
  predicate Consistent(p: Phase) {
    match p
    case Idle(buffer) => |buffer| <= FlushThreshold
    case Capture(query, accumulated) => !accumulated ==> query == []
    case Ended(_) => true
  }

  // ---------------------------------------------------------------------------
  // The fold
  // ---------------------------------------------------------------------------

  lemma FoldSnoc(step: (Phase, Inbound) -> Transition, p: Phase, evs: seq<Inbound>, e: Inbound)
    ensures var before := Fold(step, p, evs);
      var last := step(before.next, e);
      Fold(step, p, evs + [e]) == Transition(last.next, before.sent + last.sent)
  {
    assert (evs + [e])[..|evs|] == evs;
  }

  lemma {:induction false} FoldConcat(step: (Phase, Inbound) -> Transition, p: Phase, a: seq<Inbound>, b: seq<Inbound>)
    ensures var first := Fold(step, p, a);
      var second := Fold(step, first.next, b);
      Fold(step, p, a + b) == Transition(second.next, first.sent + second.sent)
    decreases |b|
  {
    var first := Fold(step, p, a);
    if b == [] {
      assert a + b == a;
    } else {
      var init, e := b[..|b| - 1], b[|b| - 1];
      FoldConcat(step, p, a, init);
      var mid := Fold(step, first.next, init);
      var last := step(mid.next, e);
      assert a + b == (a + init) + [e];
      FoldSnoc(step, p, a + init, e);
      assert (first.sent + mid.sent) + last.sent == first.sent + (mid.sent + last.sent);
      assert b == init + [e];
      FoldSnoc(step, first.next, init, e);
    }
  }

  lemma RunSnoc(c: Collaborators, p: Phase, evs: seq<Inbound>, e: Inbound)
    ensures var before := Run(c, p, evs);
      var last := Step(c, before.next, e);
      Run(c, p, evs + [e]) == Transition(last.next, before.sent + last.sent)
  {
    FoldSnoc(Stepper(c), p, evs, e);
  }

  /** Running two stretches of frames is running the first, then the second from where it left. */
  lemma RunConcat(c: Collaborators, p: Phase, a: seq<Inbound>, b: seq<Inbound>)
    ensures var first := Run(c, p, a);
      var second := Run(c, first.next, b);
      Run(c, p, a + b) == Transition(second.next, first.sent + second.sent)
  {
    FoldConcat(Stepper(c), p, a, b);
  }

  /** Once the handler has left, no further frame is read and nothing more is sent. */
  lemma {:induction false} RunEnded(c: Collaborators, how: End, evs: seq<Inbound>)
    ensures Run(c, Ended(how), evs) == Transition(Ended(how), [])
    decreases |evs|
  {
    if evs != [] {
      var init, e := evs[..|evs| - 1], evs[|evs| - 1];
      assert evs == init + [e];
      RunEnded(c, how, init);
      RunSnoc(c, Ended(how), init, e);
    }
  }

  /** Whatever follows the frame on which the handler left is never read. */
  lemma RunStopsAtEnd(c: Collaborators, p: Phase, evs: seq<Inbound>, i: nat)
    requires i <= |evs| && Run(c, p, evs[..i]).next.Ended?
    ensures Run(c, p, evs) == Run(c, p, evs[..i])
  {
    assert evs == evs[..i] + evs[i..];
    RunConcat(c, p, evs[..i], evs[i..]);
    RunEnded(c, Run(c, p, evs[..i]).next.how, evs[i..]);
  }

  // ---------------------------------------------------------------------------
  // Idle listening
  // ---------------------------------------------------------------------------

  /** Every frame keeps the phase consistent; in particular the idle buffer stays within the threshold. */
  lemma StepConsistent(c: Collaborators, p: Phase, ev: Inbound)
    requires Consistent(p)
    ensures Consistent(Step(c, p, ev).next)
  {
  }

  lemma {:induction false} RunConsistent(c: Collaborators, p: Phase, evs: seq<Inbound>)
    requires Consistent(p)
    ensures Consistent(Run(c, p, evs).next)
    decreases |evs|
  {
    if evs != [] {
      var init, e := evs[..|evs| - 1], evs[|evs| - 1];
      assert evs == init + [e];
      RunConsistent(c, p, init);
      StepConsistent(c, Run(c, p, init).next, e);
      RunSnoc(c, p, init, e);
    }
  }

  /**
   * Below the threshold, binary frames only accumulate and the other frames
   * the idle loop reads are ignored: the buffer is the concatenation of the
   * binary frames' bytes and nothing is sent.
   */
  lemma {:induction false} IdleAccumulates(c: Collaborators, buffer: seq<byte>, frames: seq<Inbound>)
    requires IdleFrames(frames) && |buffer + Payload(frames)| <= FlushThreshold
    ensures Run(c, Idle(buffer), frames) == Transition(Idle(buffer + Payload(frames)), [])
    decreases |frames|
  {
    if frames != [] {
      var init, e := frames[..|frames| - 1], frames[|frames| - 1];
      assert frames == init + [e];
      assert IdleFrame(e) && IdleFrames(init) by {
        assert forall k :: 0 <= k < |init| ==> init[k] == frames[k];
      }
      var bytes := if e.Binary? then e.data else [];
      assert Payload(frames) == Payload(init) + bytes;
      assert buffer + Payload(frames) == (buffer + Payload(init)) + bytes;
      IdleAccumulates(c, buffer, init);
      RunSnoc(c, Idle(buffer), init, e);
      if !e.Binary? {
        assert buffer + Payload(init) + bytes == buffer + Payload(init);
      }
    } else {
      assert buffer + Payload(frames) == buffer;
    }
  }

  /**
   * The frame that takes the buffer past the threshold drains it: the bytes
   * handed to transcription are exactly those of the frames since the last
   * drain, in order.
   */
  lemma DrainSeesAllFrames(c: Collaborators, buffer: seq<byte>, frames: seq<Inbound>, data: seq<byte>)
    requires IdleFrames(frames) && |buffer + Payload(frames)| <= FlushThreshold
    requires |buffer + Payload(frames) + data| > FlushThreshold
    ensures Run(c, Idle(buffer), frames + [Binary(data)]) == Drain(c, buffer + Payload(frames) + data)
  {
    IdleAccumulates(c, buffer, frames);
    RunSnoc(c, Idle(buffer), frames, Binary(data));
  }

  /**
   * With the module's detector, a drain opens a capture exactly when the
   * transcript, lower-cased and stripped, starts with "griot" or holds it as
   * a whole word; a transcript that merely contains it inside a word does not.
   */
  lemma DrainWakesOnGriot(c: Collaborators, audio: seq<byte>)
    requires ListensForGriot(c)
    ensures Drain(c, audio).next.Capture? <==>
      && c.speechToText(audio).Success?
      && var heard := WakeWord.Normalized(c.speechToText(audio).value);
         PyText.StartsWith(heard, "griot") || exists i: nat :: WakeWord.WholeWordAt(heard, "griot", i)
  {
    assert Detector.wakeWord == "griot" by {
      assert PyText.NoUpper(WakeWord.DefaultWakeWord);
    }
    if c.speechToText(audio).Success? {
      WakeWord.DetectIff(Detector, c.speechToText(audio).value);
    }
  }

  /** A buffer of exactly the threshold is not drained: the test is strictly greater. */
  lemma ThresholdIsStrict(c: Collaborators, audio: seq<byte>)
    requires |audio| == FlushThreshold
    ensures Run(c, Idle([]), [Binary(audio)]) == Transition(Idle(audio), [])
  {
    RunSnoc(c, Idle([]), [], Binary(audio));
    assert [] + [Binary(audio)] == [Binary(audio)];
    assert [] + audio == audio;
  }

  /** Text frames and frames without payload are ignored while listening for the wake word. */
  lemma IdleIgnoresNonBinary(c: Collaborators, buffer: seq<byte>, ev: Inbound)
    requires ev.Text? || ev.NoPayload?
    ensures Step(c, Idle(buffer), ev) == Transition(Idle(buffer), [])
  {
  }

  // ---------------------------------------------------------------------------
  // Capture
  // ---------------------------------------------------------------------------

  /**
   * Until a process-query action (or a failure) arrives, a capture only
   * appends the bytes of binary frames, sets the flag once one arrives, and
   * sends nothing.
   */
  lemma {:induction false} CaptureCollects(c: Collaborators, query: seq<byte>, accumulated: bool, evs: seq<Inbound>)
    requires forall k :: 0 <= k < |evs| ==> KeepsCapturing(evs[k])
    ensures Run(c, Capture(query, accumulated), evs) ==
      Transition(Capture(query + Payload(evs), accumulated || exists k :: 0 <= k < |evs| && evs[k].Binary?), [])
    decreases |evs|
  {
    if evs != [] {
      var init, e := evs[..|evs| - 1], evs[|evs| - 1];
      assert evs == init + [e];
      assert KeepsCapturing(e);
      CaptureCollects(c, query, accumulated, init);
      RunSnoc(c, Capture(query, accumulated), init, e);
      assert query + Payload(evs) == (query + Payload(init)) + (if e.Binary? then e.data else []);
      if e.Binary? {
        assert evs[|evs| - 1].Binary?;
      } else {
        assert (exists k :: 0 <= k < |evs| && evs[k].Binary?) <==> (exists k :: 0 <= k < |init| && init[k].Binary?) by {
          forall k | 0 <= k < |init| ensures init[k] == evs[k] { }
        }
      }
    } else {
      assert query + Payload(evs) == query;
    }
  }

  /** A process-query action on a capture that holds audio answers the query. */
  lemma CaptureAnswers(c: Collaborators, query: seq<byte>)
    ensures Step(c, Capture(query, true), Text(Action(ProcessQueryAction))) == AnswerQuery(c, query)
  {
  }

  /**
   * Transcription, response generation and speech synthesis all succeed:
   * `processing`, the `response` with the reply and its encoded speech, and
   * the `status` go out, in that order, and the handler leaves.
   */
  lemma AnswerScenario(c: Collaborators, query: seq<byte>, heard: string, reply: string, speech: seq<byte>)
    requires c.speechToText(query) == Success(heard)
    requires c.generateResponse(VoiceUserId, heard) == Success(reply)
    requires c.textToSpeech(reply, Voice) == Success(speech)
    ensures Step(c, Capture(query, true), Text(Action(ProcessQueryAction))) ==
      Transition(Ended(TurnCompleted), [Processing(ProcessingQuery), Response(reply, c.base64(speech)), Status(ListeningAgain)])
  {
    CaptureAnswers(c, query);
  }

  /** A process-query action on a capture that saw no binary frame sends nothing and resumes listening with an empty buffer. */
  lemma EmptyCaptureIsSilent(c: Collaborators, p: Phase)
    requires p.Capture? && !p.accumulated
    ensures Step(c, p, Text(Action(ProcessQueryAction))) == Transition(Idle([]), [])
  {
  }

  // ---------------------------------------------------------------------------
  // Failures and the end of a turn
  // ---------------------------------------------------------------------------

  /**
   * A failing collaborator or control message never ends the session: the
   * frame sends one error, last, beginning "Could not transcribe audio:", and
   * the endpoint is back to listening with an empty buffer. The only other
   * error comes from the outer handler, on a receive failure while idle.
   */
  lemma StepErrorRecovers(c: Collaborators, p: Phase, ev: Inbound)
    requires !p.Ended? && !(p.Idle? && ev.ReceiveFailed?)
    ensures var t := Step(c, p, ev);
      forall k :: 0 <= k < |t.sent| && t.sent[k].Error? ==>
        k == |t.sent| - 1 && StartsWithPrefix(t.sent[k].message) && t.next == Idle([])
    ensures p.Capture? && ((ev.Text? && ev.control.Malformed?) || ev.Disconnected? || ev.ReceiveFailed?) ==>
      var t := Step(c, p, ev);
      t.next == Idle([]) && |t.sent| == 1 && t.sent[0].Error? && StartsWithPrefix(t.sent[0].message)
  {
  }

  predicate ResponseFree(sent: seq<Outbound>) {
    forall k :: 0 <= k < |sent| ==> !sent[k].Response?
  }

  /**
   * Messages that end in one answered turn: no `response` before the last
   * three, which are `processing`, the `response` and the `status` that
   * announces listening again.
   */
  predicate EndsInAnswer(sent: seq<Outbound>) {
    && |sent| >= 3
    && ResponseFree(sent[..|sent| - 2])
    && sent[|sent| - 3] == Processing(ProcessingQuery)
    && sent[|sent| - 2].Response?
    && sent[|sent| - 1] == Status(ListeningAgain)
  }

  /** A frame either sends no `response`, or answers the turn and leaves the handler. */
  lemma StepResponse(c: Collaborators, p: Phase, ev: Inbound)
    ensures var t := Step(c, p, ev);
      ResponseFree(t.sent) || (EndsInAnswer(t.sent) && |t.sent| == 3 && t.next == Ended(TurnCompleted))
  {
  }

  lemma ResponseFreeAppend(a: seq<Outbound>, b: seq<Outbound>)
    requires ResponseFree(a) && ResponseFree(b)
    ensures ResponseFree(a + b)
  {
  }

  /**
   * Over a whole session at most one `response` is ever sent: either none is,
   * or the messages end with `processing`, the one `response` and the
   * `status` that announces listening again, and the handler has returned.
   */
  lemma {:induction false} AtMostOneResponse(c: Collaborators, p: Phase, evs: seq<Inbound>)
    requires !p.Ended?
    ensures var t := Run(c, p, evs);
      ResponseFree(t.sent) || (EndsInAnswer(t.sent) && t.next == Ended(TurnCompleted))
    decreases |evs|
  {
    if evs != [] {
      var init, e := evs[..|evs| - 1], evs[|evs| - 1];
      assert evs == init + [e];
      var before := Run(c, p, init);
      var last := Step(c, before.next, e);
      AtMostOneResponse(c, p, init);
      StepResponse(c, before.next, e);
      RunSnoc(c, p, init, e);
      var t := Run(c, p, evs);
      assert t == Transition(last.next, before.sent + last.sent);
      if before.next.Ended? {
        assert last.sent == [];
        assert t.sent == before.sent;
      } else if ResponseFree(last.sent) {
        ResponseFreeAppend(before.sent, last.sent);
      } else {
        assert t.sent[..|t.sent| - 2] == before.sent + [last.sent[0]];
        ResponseFreeAppend(before.sent, [last.sent[0]]);
      }
    }
  }

  // ---------------------------------------------------------------------------
  // Scenarios
  // ---------------------------------------------------------------------------

  /**
   * A transcript beginning with the wake word, drained from one large frame,
   * opens a capture after `wake_word_detected` and `status`, in that order.
   */
  lemma WakeScenario(c: Collaborators, audio: seq<byte>)
    requires ListensForGriot(c)
    requires |audio| > FlushThreshold
    requires c.speechToText(audio) == Success("griot what time is it")
    ensures Run(c, Idle([]), [Binary(audio)]) ==
      Transition(Capture([], false), [WakeWordDetected(WakeGreeting), Status(ListeningForQuestion)])
  {
    RunSnoc(c, Idle([]), [], Binary(audio));
    assert [] + [Binary(audio)] == [Binary(audio)];
    assert [] + audio == audio;
    WakeWord.WhatTimeIsItWakes();
  }

  /**
   * Response generation fails after a good transcription: `processing`, one
   * error, and the endpoint listens again; the connection stays open.
   */
  lemma RespondFailureScenario(c: Collaborators, query: seq<byte>, heard: string, reason: string)
    requires c.speechToText(query) == Success(heard)
    requires c.generateResponse(VoiceUserId, heard) == Failure(reason)
    ensures Step(c, Capture(query, true), Text(Action(ProcessQueryAction))) ==
      Transition(Idle([]), [Processing(ProcessingQuery), Error(TranscribeErrorPrefix + reason)])
  {
  }
}
