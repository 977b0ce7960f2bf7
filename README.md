# Griot voice core in Dafny

This project models three pieces of the Griot voice assistant and proves what they do.

- **The wake-word matcher** (`WakeWordDetector`, module `WakeWord`). `detect` lower-cases and strips a transcript, then tests it in two ways:
  - It accepts a transcript that starts with the wake word, with no word-boundary check, and returns the stripped rest.
  - Otherwise it accepts one that holds the wake word as a whole word (the regex `\bgriot\b`). It cuts out only the leftmost occurrence and strips the two ends.
  - Otherwise it rejects and returns the transcript untouched.
  - `is_silence` is a separate length test.
  - Python's `lower`, `strip`, `startswith`, `\w` and `\b` are in module `PyText`.
- **The realtime turn loop** (`/ws/voice`, modules `RealtimeSpec` and `Realtime`).
  - `RealtimeSpec.Step` is the handler's reaction to one received frame. It depends on the handler's phase:
    - listening for the wake word with an audio buffer (`Idle`);
    - collecting a query after the wake word (`Capture`);
    - gone (`Ended`).
  - `RealtimeSpec.Run` folds `Step` over a sequence of frames.
  - `Realtime.WebsocketVoiceEndpoint` is the handler itself, written as nested loops over a socket object and the `ConnectionManager` registry.
  - It is proved to send exactly the messages `Run` sends, after the initial `status`, and to stop where `Run` stops. The lemmas about `Run` carry the protocol's properties:
    - the flush threshold;
    - buffer contents;
    - capture;
    - error recovery;
    - at most one `response` per session.
- **Short-term memory** (`MemoryService`, module `Memory`). This is a class whose store is reassigned in place. It is proved to always hold the last ten records added, in insertion order. Lookup returns exactly one user's records.

Speech-to-text, response generation, text-to-speech, base64 encoding and the wake-word detector are called through `RealtimeSpec.Collaborators`. These are the module-level services `realtime.py` calls.
- The three remote services return `Failure(str(e))` where they would raise.
- `RealtimeSpec.ListensForGriot` ties the `detect` entry to `WakeWord.Detect` with the module's detector, `WakeWordDetector(wake_word="griot")`. The wake-word lemmas about the endpoint require that predicate.
- A received frame is a `RealtimeSpec.Inbound` value, and a sent JSON message is an `Outbound` value.

Behaviour of the code that the model keeps as it is:
- `detect` has no list of tolerated look-alike tokens and no minimum-length short-circuit.
- The idle buffer is flushed only when it holds strictly more than 32000 bytes, so exactly 32000 bytes are not flushed.
- A capture ends on a `process_query` control message, not on a silence timer. A capture without audio is dropped silently, with no error message.
- After one answered query, the `break` at `realtime.py:160` leaves the outer loop, so the handler returns. It does not listen again, although it sends "Listening for 'Griot' again...".
- A disconnect during a capture is caught by the inner `except Exception`. It becomes a "Could not transcribe audio" error, and listening continues.

## Model

| member | source | states |
|---|---|---|
| WakeWord.NewDetector | app/services/wake_word_service.py:15-24 | the stored wake word has no upper-case letter, has the argument's length and lower-case form, and equals an already lower-case argument; the threshold is stored as given |
| WakeWord.FindWholeWord | app/services/wake_word_service.py:47-48 | `re.search(r'\bw\b', s)`: a reported position is a whole-word match and no earlier position matches; nothing is reported only when no position matches |
| WakeWord.FindWholeWordLeftmost | app/services/wake_word_service.py:47-48 | when `i` is the leftmost whole-word match, the search from the start reports exactly `i` |
| WakeWord.Normalized | app/services/wake_word_service.py:37 | `text.lower().strip()`; it has no contract of its own, and `DetectHitNormalized` and `SilenceNeverWakes` state what it guarantees |
| WakeWord.Detect | app/services/wake_word_service.py:26-54 | a rejection returns the argument itself, neither lower-cased nor stripped |
| WakeWord.DetectPrefix | app/services/wake_word_service.py:37-44 | when the lower-cased, stripped text starts with the wake word, the result is `(True, strip(rest))` with no boundary check |
| WakeWord.DetectLeftmost | app/services/wake_word_service.py:46-52 | when there is no prefix match, only the leftmost whole-word occurrence is cut; the interior spacing is kept and only the ends are stripped |
| WakeWord.DetectIff | app/services/wake_word_service.py:37-54 | detected if and only if the normalized text starts with the wake word or holds it as a whole word somewhere |
| WakeWord.DetectHitNormalized | app/services/wake_word_service.py:37-52 | on a hit the returned text has no upper-case letter and no whitespace at either end |
| WakeWord.DetectIgnoresThreshold | app/services/wake_word_service.py:23-54 | two detectors with the same wake word and any thresholds agree on every text |
| WakeWord.SilenceNeverWakes | app/services/wake_word_service.py:26-67 | a text that is silence for a minimum length no longer than the wake word is never detected |
| WakeWord.IsSilence | app/services/wake_word_service.py:56-67 | `len(text.strip()) < min_length`; it has no contract of its own, and `SilencePadding`, `SilenceAtOneIsBlank` and `SilenceMonotone` state its properties |
| WakeWord.DefaultSilenceNeverWakes | app/services/wake_word_service.py:26-67 | with the default `min_length` of 2, no silent transcript wakes the "griot" detector |
| WakeWord.SilencePadding | app/services/wake_word_service.py:56-67 | whitespace added at either end never changes `is_silence` |
| WakeWord.SilenceAtOneIsBlank | app/services/wake_word_service.py:56-67 | with `min_length` 1, silence is exactly "all whitespace" |
| WakeWord.SilenceMonotone | app/services/wake_word_service.py:56-67 | silence for some minimum length stays silence for any larger one |
| WakeWord.GriotsAreExample | app/services/wake_word_service.py:37-44 | "Griots are" is accepted by the prefix test and leaves "s are" |
| WakeWord.MidSentenceExample | app/services/wake_word_service.py:46-52 | "Hi, Griot, go" is accepted and leaves "hi, , go" |
| WakeWord.RepeatedWakeWordExample | app/services/wake_word_service.py:37-44 | "griot griot tell me" leaves "griot tell me": only one occurrence is removed |
| WakeWord.EmbeddedWakeWordExample | app/services/wake_word_service.py:46-54 | "agriot" is rejected and returned unchanged |
| WakeWord.WhatTimeIsItWakes | app/services/wake_word_service.py:37-44 | "griot what time is it" is detected |
| Memory.FilterUser | app/services/memory_service.py:45 | the filtered list is no longer than the store |
| Memory.FilterUserCounts | app/services/memory_service.py:45 | every record of the user is kept, as often as it is stored, and no other record |
| Memory.FilterUserAppend | app/services/memory_service.py:45 | filtering distributes over concatenation, so store order is kept |
| Memory.LastNSlide | app/services/memory_service.py:25-33 | appending and dropping the front on overflow keeps exactly the last ten of the longer history |
| Memory.MemoryService.constructor | app/services/memory_service.py:12-15 | the store is empty and the capacity is ten |
| Memory.MemoryService.AddShortTermMemory | app/services/memory_service.py:17-33 | the record goes at the end; on overflow exactly the front record is dropped; the store stays the last ten records added |
| Memory.MemoryService.GetShortTermMemory | app/services/memory_service.py:35-45 | exactly the stored records of that user, each as often as it is stored, and nothing else |
| Memory.MemoryService.SaveLongTermMemory | app/services/memory_service.py:47-56 | the short-term store is unchanged |
| Memory.ElevenAdds | app/services/memory_service.py:17-33 | after eleven adds to a fresh service, the store is the last ten records in insertion order |
| RealtimeSpec.Drain | app/api/v1/realtime.py:78-174 | a drain either starts a capture after `wake_word_detected` then `status`, exactly when the transcription succeeded and the detector hit; or it sends one message, which is `waiting` with the transcript as returned, or an error starting "Could not transcribe audio: " |
| RealtimeSpec.DrainWakesOnGriot | app/api/v1/realtime.py:83-89 | with the module's detector, a drain opens a capture if and only if the transcript, normalized, starts with "griot" or holds it as a whole word |
| RealtimeSpec.AnswerQuery | app/api/v1/realtime.py:119-174 | `processing` first; the handler leaves if and only if transcription, generation for `voice_ws_user` and synthesis in voice "nova" all succeed, and then `response` with the reply and its encoded speech and `status` follow; otherwise one error with the prefix goes out and listening resumes |
| RealtimeSpec.CaptureAnswers | app/api/v1/realtime.py:116-119 | `process_query` on a capture that holds audio answers the query |
| RealtimeSpec.AnswerScenario | app/api/v1/realtime.py:121-160 | when all three services succeed, exactly `processing`, `response(reply, base64(speech))` and `status` go out, in that order, and the handler leaves |
| RealtimeSpec.Step | app/api/v1/realtime.py:66-174 | one received frame, in the phase the handler is in; it has no contract of its own, and the `Step...`, `Idle...`, `Capture...` and `Empty...` lemmas state its properties |
| RealtimeSpec.Run | app/api/v1/realtime.py:68-185 | the handler over a sequence of frames; it has no contract of its own, and `RunConsistent`, `AtMostOneResponse`, `IdleAccumulates` and `CaptureCollects` state its properties |
| RealtimeSpec.RunEnded | app/api/v1/realtime.py:159-185 | once the handler has left, no frame is read and nothing is sent |
| RealtimeSpec.RunStopsAtEnd | app/api/v1/realtime.py:159-185 | frames after the one on which the handler left change nothing |
| RealtimeSpec.RunConcat | app/api/v1/realtime.py:68-70 | handling two stretches of frames is handling the first, then the second from where it stopped |
| RealtimeSpec.StepConsistent | app/api/v1/realtime.py:66-79 | each frame keeps the idle buffer within 32000 bytes and a capture without audio empty |
| RealtimeSpec.RunConsistent | app/api/v1/realtime.py:66-79 | the same holds after any sequence of frames |
| RealtimeSpec.IdleAccumulates | app/api/v1/realtime.py:68-77 | below the threshold, binary frames only append their bytes to the buffer, text and payload-free frames are ignored, and nothing is sent |
| RealtimeSpec.DrainSeesAllFrames | app/api/v1/realtime.py:68-79 | the bytes transcribed are exactly those of the binary frames since the last drain, in order, whatever text or payload-free frames came between them |
| RealtimeSpec.ThresholdIsStrict | app/api/v1/realtime.py:77 | a buffer of exactly 32000 bytes is not drained |
| RealtimeSpec.IdleIgnoresNonBinary | app/api/v1/realtime.py:68-77 | text frames and frames without payload change nothing and send nothing while idle |
| RealtimeSpec.CaptureCollects | app/api/v1/realtime.py:106-117 | until a `process_query` action or a failure, a capture appends the binary bytes, sets the flag if and only if a binary frame came, and sends nothing |
| RealtimeSpec.EmptyCaptureIsSilent | app/api/v1/realtime.py:116-119 | `process_query` after no audio sends nothing and returns to listening with an empty buffer |
| RealtimeSpec.StepErrorRecovers | app/api/v1/realtime.py:106-174 | any error a frame sends inside a drain or a capture is the last message, starts with the prefix, and listening resumes with an empty buffer; a malformed control message or a receive failure during a capture sends exactly one such error |
| RealtimeSpec.StepResponse | app/api/v1/realtime.py:119-160 | a frame sends no `response`, or it sends `processing`, `response`, `status` and the handler leaves |
| RealtimeSpec.AtMostOneResponse | app/api/v1/realtime.py:68-160 | over any session, either no `response` is sent, or the messages end with `processing`, the only `response` and `status`, and the handler has left |
| RealtimeSpec.WakeScenario | app/api/v1/realtime.py:72-100 | one large frame transcribed as "griot what time is it" opens a capture after `wake_word_detected` then `status` |
| RealtimeSpec.RespondFailureScenario | app/api/v1/realtime.py:119-174 | a response-generation failure after a good transcription sends `processing`, then one error, and returns to listening |
| Realtime.VoiceSocket.SendJson | app/api/v1/realtime.py:60-63 | the message is appended to what was sent |
| Realtime.RemoveFirst | app/api/v1/realtime.py:29-30 | a registered socket loses one entry; an unregistered one leaves the list as it is |
| Realtime.RemoveFirstCounts | app/api/v1/realtime.py:29-30 | exactly one occurrence of the socket is removed, and nothing else |
| Realtime.RemoveFirstUndoesInsert | app/api/v1/realtime.py:26-30 | removing a socket undoes appending it |
| Realtime.ConnectionManager.constructor | app/api/v1/realtime.py:23-24 | the registry starts empty |
| Realtime.ConnectionManager.Connect | app/api/v1/realtime.py:26-27 | the socket is appended |
| Realtime.ConnectionManager.Disconnect | app/api/v1/realtime.py:29-30 | raises (`ValueError`) if and only if the socket is not registered; otherwise its first entry goes |
| Realtime.CaptureQuery | app/api/v1/realtime.py:103-117 | the inner loop sends what `Run` sends from a fresh capture over the frames it reads, and stops where `Run` would |
| Realtime.CaptureAdvance | app/api/v1/realtime.py:106-117 | while a capture has sent nothing, one more frame is that frame's step |
| Realtime.ProcessQuery | app/api/v1/realtime.py:119-174 | sends exactly `AnswerQuery`'s messages; reports an answer exactly when `AnswerQuery` ends the handler |
| Realtime.AwaitQuery | app/api/v1/realtime.py:103-160 | capture and answer together send what `Run` sends from a fresh capture, and end idle, finished, or still capturing when the frames run out |
| Realtime.RespondToUtterance | app/api/v1/realtime.py:78-174 | a drain sends `Drain`'s messages, then whatever the capture that may follow sends |
| Realtime.UtteranceComposes | app/api/v1/realtime.py:68-100 | the frames up to a drain, then the frames after it, compose to `Run` over all of them |
| Realtime.HandleUtterance | app/api/v1/realtime.py:78-174 | after a drain, the socket holds what `Run` sends over every frame read so far |
| Realtime.WebsocketVoiceEndpoint | app/api/v1/realtime.py:37-185 | sends the initial `status`, then exactly what `Run` sends over the frames, and stops where `Run` stops; the registry changes only through `disconnect` on the two handler exits, which raises exactly when the socket was not registered |
| Realtime.ServeUnregistered | app/api/v1/realtime.py:176-185 | as written, with nothing registered, `disconnect` raises if and only if the handler leaves through an exception handler |
| Realtime.HangUpRaises | app/api/v1/realtime.py:176-185 | a client that hangs up before sending audio (the disconnect message, then a failing `receive`) leaves through the generic handler, and `disconnect` raises |
| Realtime.HangUpRun | app/api/v1/realtime.py:68-185 | that hang-up sends one error and ends the handler through its generic exception handler |
| Realtime.DisconnectRaises | app/api/v1/realtime.py:176-178 | `receive` raising `WebSocketDisconnect` while listening makes `disconnect` raise |
| Realtime.ServeConnection | app/api/v1/realtime.py:55-185 | registered after `accept`, the handler sends and stops as before, `disconnect` never raises, and the registry is restored on a handler exit |
| Realtime.ServeRegistered | app/api/v1/realtime.py:176-185 | a fresh registered connection never raises, and the registry is empty after a handler exit |
| Realtime.HangUpRecovers | app/api/v1/realtime.py:176-185 | with registration, the same early hang-up leaves without raising and the registry is empty again |

## Left out

- Unicode: `lower()` is modelled on ASCII letters only, and the regex class `\w` on ASCII letters, digits and `_`. Python applies both to all of Unicode. The whitespace set of `strip()` is Python's `isspace` set.
- `confidence_threshold` is stored and never read. `DetectIgnoresThreshold` proves it has no effect.
- Logging is left out in every file. `save_long_term_memory` only logs, so its model changes nothing.
- The record's timestamp, `datetime.utcnow()`, is a parameter `now` of `AddShortTermMemory`.
- Transport:
  - async/await and ASGI details are left out. The received frames are a finite sequence `events`, read in order.
  - When the sequence runs out, the endpoint returns its current phase. The real handler would wait for the next frame instead.
  - `Disconnected` stands for `receive` raising `WebSocketDisconnect`, and `ReceiveFailed` for any other exception from `receive`. A message with neither bytes nor text is `NoPayload`. The framework's disconnect message is such a message, and a `receive` after it raises, which is `ReceiveFailed`. Which frames a given client behaviour produces is not derived from the framework.
- `send_json` is assumed to succeed. A send that raises, including the error send in the outer handler, is not modelled.
- `json.loads` and the `.get("action")` lookup are opaque. A text frame arrives already classified as an action name, no action, or a malformed message.
- The speech services and the language model are opaque functions in `Collaborators`. So are base64 encoding and the detector's `detect`. Their behaviour is app/services/voice_service.py and app/services/llm_service.py, which are not part of this model.
- The wake-word remainder `user_query` (`realtime.py:87`) is never used, so the model discards the detector's cleaned text.
- `WebsocketVoiceEndpoint`, `RespondToUtterance`, `HandleUtterance`, `CaptureQuery`, `AwaitQuery` and `ProcessQuery` are proved for every `detect`. The wake-word lemmas that involve the real detector (`WakeScenario`, `DrainWakesOnGriot`) require `ListensForGriot`.

## Findings

| source | as written | input that shows it | evidently intended | confidence | as-written member | corrected member |
|---|---|---|---|---|---|---|
| app/api/v1/realtime.py:176-185 | both exception handlers call `manager.disconnect(websocket)`, but the handler never calls `manager.connect`, so `list.remove` raises `ValueError` on a socket the registry never held | a client that closes the connection before sending any audio: `receive` returns the disconnect message (`NoPayload`), the next `receive` raises (`ReceiveFailed`), and the generic handler reaches `disconnect`; likewise `receive` raising `WebSocketDisconnect` while listening (`DisconnectRaises`) | the handler registers its socket after `accept`, so that `disconnect` removes it and the registry returns to its earlier contents | high; not executed | Realtime.HangUpRaises | Realtime.ServeConnection |
