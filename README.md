# Sales Teleprompter — a verified model of the capture loop

The Sales Teleprompter listens to a live sales call. A background loop
(`teleprompter_loop`) gathers audio frames in batches. It sends each
non-empty clip to a speech-to-text service and records every non-empty
transcript line twice: in a timestamped history and in a rolling context
string. When more than 15 seconds have passed since its last call, it sends
the part of the context not yet sent to a language model, and it keeps the
returned tip; so calls are always more than 15 seconds apart. When capture
stops, it leaves the loop, offering both histories for download if at least
one of them is non-empty. A second
coroutine (`timer_loop`) keeps the session duration in the session store.

This project models that core in Dafny and proves what it promises.

- `Services` (services.dfy): what the pipeline sees of the two network
  services. `transcribe` returns "" on a service error and Python's `strip()`
  of the transcript otherwise. `suggest` returns the completion followed by
  `"\n\n---\n"`.
- `Audio` (audio.dfy): the frame batch and how it is concatenated into a clip.
- `Session` (session.dfy): the session store (`st.session_state`) as a class.
  It has four slots, each of which may or may not exist yet. `load_history`
  and the start-up code are methods of this class.
- `Iteration` (iteration.dfy): one pass of the loop body, written as a pure
  function `Next` of the state and of what the outside world supplies. Its
  single-iteration properties are proved as lemmas.
- `Runs` (runs.dfy): whole runs (`Run`), and the properties that span
  iterations:
  - the lockstep invariant and the cursor bound;
  - the spacing between suggestion calls;
  - the fact that the calls are sent exactly the context between the first
    and the last cursor;
  - termination and the export.
- `Loop` (loop.dfy): the loop as a class. Its two local variables are fields,
  and it shares the session store. `Step` is one pass of `while True` and
  `Drive` feeds the loop a finite sequence of inputs. Both are proved to do
  exactly what `Next` and `Run` describe.
- `Timer` (timer.dfy): the duration tracker as a class, with Python's
  truncating `int()` written out.
- `Scenarios` (scenarios.dfy): concrete sessions worked through the model.

Time is integer milliseconds, so the cadence gate `now - last_llm_time > 15`
becomes `nowMs - lastLlmTime > 15000`. The services, the clock reading, the
formatted timestamp and whether capture is active are all inputs of each
iteration (`Iteration.Input`). The speech-to-text service and the language
model are functions inside that input, so the model can state what each was
sent.

## Behaviour worth noting

- Failures of `suggest` are not caught, either in `suggest` itself
  (utils.py:33-36) or at its call site (teleprompter.py:121). A failure
  there ends the coroutine, so there is no retry path, and the model has no
  suggestion-failure case.
- `timer_loop` waits for the receiver only before its first tick
  (teleprompter.py:69-70). After that it ticks every second whether or not
  capture is still active (teleprompter.py:75-79), as
  `Timer.DurationTracker.Wake` models.
- The cursor `last_llm_index` is a local variable that restarts at 0 on
  every script run (teleprompter.py:83), while the context persists in the
  session store (teleprompter.py:56-57). Within one run nothing is sent
  twice (`Runs.AskedCoversContext`), but after a rerun the first suggestion
  call sends the whole persisted context again
  (`Scenarios.RerunResendsContext`).
- Only the exception of the transcription request itself is caught
  (utils.py:56-59). A reply without the expected fields raises `KeyError`
  (utils.py:62-64), which is not caught. The model's reply type
  (`Services.SttReply`) has only the two outcomes the code handles.

## Model

| member | source | states |
|---|---|---|
| Services.Strip | utils.py:69 | the stripped transcript begins and ends with a non-space character; it is empty exactly when the input is all whitespace; text that already has non-space ends is unchanged, so stripping is idempotent |
| Services.StripIsSlice | utils.py:69 | stripping removes whitespace and nothing else: the result is a slice of the input with only whitespace before and after it |
| Services.Transcribe | utils.py:56-69 | `transcribe` gives "" on a service error and otherwise exactly `Strip` of the paragraph transcript, so it has no surrounding whitespace and is empty exactly when the transcript was all whitespace |
| Services.Suggest | utils.py:33-36 | a tip is never empty: it is the completion followed by the separator `"\n\n---\n"` |
| Audio.Concatenated | teleprompter.py:94-102 | the clip built from a batch lasts at least as long as each frame and holds at least as many bytes; ConcatenatedUnits and ConcatenatedAppend determine it exactly |
| Audio.ConcatenatedUnits | teleprompter.py:94-102 | an empty batch gives the empty segment, and a one-frame batch gives a clip of exactly that frame's bytes and duration |
| Audio.ConcatenatedAppend | teleprompter.py:94-102 | the clip of two batches in a row is the first clip's bytes followed by the second's, with the durations added; with ConcatenatedUnits, every clip is exactly its frames' bytes in arrival order and nothing else |
| Audio.ClipAudibleIff | teleprompter.py:94-104 | the clip built from a batch has positive length exactly when some frame has positive length; an empty batch gives an empty clip |
| Audio.ClipKeepsOrder | teleprompter.py:94-102 | the bytes of frame k sit in the clip right after the bytes of the frames before it |
| Audio.BuildClip | teleprompter.py:94-102 | the frame loop builds the concatenation of the batch onto the empty segment |
| Session.Render | teleprompter.py:108-112 | a stored transcript line is the formatted timestamp directly followed by the text, so it ends with the text |
| Session.Lines | teleprompter.py:131-134 | the exported transcript holds the rendered lines of the history, one per entry, in order |
| Session.Joined | teleprompter.py:114 | the context that a sequence of texts produces has at least one character per text and ends with a newline once any text was added; JoinedAppend and the lockstep invariant state the rest |
| Session.JoinedAppend | teleprompter.py:114 | the context that a sequence of texts produces distributes over concatenation of the texts |
| Session.SessionState.constructor | teleprompter.py:15-18 | the store holds the four named slots, with only the given slots present |
| Session.SessionState.LoadHistory | teleprompter.py:45-50 | a missing history slot is created as `[]`; an existing one is kept unchanged; no other slot is touched |
| Session.SessionState.Initialise | teleprompter.py:45-60 | afterwards every slot exists; a missing history is `[]`, a missing context `""` and a missing paused time `0`; each slot that existed keeps its value; a brand-new session starts in lockstep |
| Iteration.Start | teleprompter.py:81-83 | the loop starts with the session slots as found, the clock at now, the cursor at 0, not yet left and nothing offered for download |
| Iteration.Unsent | teleprompter.py:117-119 | `context[last_llm_index:]` is the suffix from the cursor, character by character, or "" once the cursor is past the end |
| Iteration.ExportOf | teleprompter.py:127-135 | an export is offered exactly when either history is non-empty, and it holds both histories verbatim |
| Iteration.HeardText | teleprompter.py:94-107 | on an active pass whose batch gives a non-empty clip, the text heard is `transcribe` of the service's reply to exactly that clip; otherwise it is ""; it never has surrounding whitespace; HeardTextIsRecorded and SilenceRecordsNothing state its effect |
| Iteration.Record | teleprompter.py:104-114 | the transcription half adds at most one history entry, only lengthens the context, and leaves the tips, the clock, the cursor and the loop flag alone; HeardTextIsRecorded and RecordKeepsInv state its content |
| Iteration.Cadence | teleprompter.py:116-125 | the cadence half leaves the history, the context and the loop flag alone; without a call the state is unchanged, and a call sends non-empty text, adds exactly one tip and moves the cursor to the end of the context; SuggestOnlyWhenDue and SuggestionEffect state the gate |
| Iteration.Next | teleprompter.py:85-143 | after one pass the loop has been left exactly when it had been or capture is inactive; an inactive pass calls no service; the histories and the context never shrink; the lemmas below state the rest |
| Iteration.HeardTextIsRecorded | teleprompter.py:104-114 | a non-empty clip transcribed to non-empty text adds exactly one history entry carrying that text and exactly `text + "\n"` to the context; the clip is what was sent to the service |
| Iteration.SilenceRecordsNothing | teleprompter.py:104-107 | an empty clip, a service error or an all-whitespace transcript leaves the history and the context unchanged; an empty clip is never sent to the service |
| Iteration.TimeoutSkipsIteration | teleprompter.py:89-92 | a batch that times out skips the iteration: no state changes and no service is called |
| Iteration.SuggestOnlyWhenDue | teleprompter.py:116-121 | `suggest` is called if and only if capture is active, a batch arrived, more than 15 s have passed, and the context past the cursor is non-empty; its argument is exactly that slice |
| Iteration.SuggestionEffect | teleprompter.py:116-125 | after a call, the tips gain exactly the returned tip, the clock is set to now and the cursor to the context's length; without a call, all three are unchanged |
| Iteration.InactiveFinalizes | teleprompter.py:126-143 | inactive capture leaves the loop, offers both histories exactly when one is non-empty, changes nothing else and calls no service |
| Iteration.NextSummary | teleprompter.py:85-114 | one iteration's effect on the history, the context and the loop flag, in terms of the text heard |
| Iteration.RecordKeepsInv | teleprompter.py:112-114 | the transcription half keeps the context equal to the joined texts of the history |
| Iteration.NextKeepsInv | teleprompter.py:83-125 | one iteration keeps the lockstep invariant and the cursor bound; it only appends to the histories and the context and never moves the cursor back |
| Runs.Run | teleprompter.py:85-143 | once the loop has been left, further inputs change nothing; over a run the histories and the context never shrink; the Runs lemmas state the rest |
| Runs.RunKeepsInv | teleprompter.py:83-143 | over a whole run the invariant holds; histories and context only grow and the cursor never decreases |
| Runs.RunStopsAtFinal | teleprompter.py:143 | once the loop is left, later inputs change nothing and cause no service calls |
| Runs.FinalizedIffInactiveSeen | teleprompter.py:85-143 | the loop has been left exactly when some input found capture inactive |
| Runs.LeavingOffersExport | teleprompter.py:126-143 | leaving the loop offers exactly the histories built so far, and only when one is non-empty |
| Runs.RunRecordsHeard | teleprompter.py:104-114 | over a run, the history gains exactly the non-empty transcription results in order, and the context gains exactly those texts, each followed by a newline |
| Runs.AskedSpaced | teleprompter.py:116-124 | suggestion calls are more than 15 s apart, and the first is more than 15 s after the loop's clock started; the clock holds the time of the latest call |
| Runs.CoverStep | teleprompter.py:116-125 | one iteration extends the text sent so far by exactly what it sends, and never sends an empty text |
| Runs.AskedCoversContext | teleprompter.py:116-125 | over a run, the texts sent to `suggest`, put together, are exactly the context between the starting and final cursor: nothing is sent twice or skipped, and no call is sent an empty text |
| Runs.RunStoresTips | teleprompter.py:121-123 | the tips history gains exactly the tips of the calls, in order, each ending with the separator |
| Loop.Teleprompter.constructor | teleprompter.py:81-83 | entering the coroutine sets the clock to now and the cursor to 0 |
| Loop.Teleprompter.Step | teleprompter.py:85-143 | one pass of the loop body changes the store and the locals exactly as `Iteration.Next` says, and reports the same service calls; keys and paused time are untouched |
| Loop.Teleprompter.Leave | teleprompter.py:126-143 | leaving sets the loop flag and offers the export `Iteration.ExportOf` describes |
| Loop.Teleprompter.Listen | teleprompter.py:104-114 | the transcription half updates the history and context exactly as `Iteration.Record` says |
| Loop.Teleprompter.Consult | teleprompter.py:116-125 | the cadence half updates tips, clock and cursor exactly as `Iteration.Cadence` says |
| Loop.Teleprompter.Drive | teleprompter.py:85-143 | feeding the loop a sequence of inputs reaches the state `Runs.Run` describes; it stops early only once the loop has been left |
| Timer.WholeSeconds | teleprompter.py:76 | `int()` of the difference truncates toward zero: the floor for non-negative differences, the ceiling for negative ones |
| Timer.Elapsed | teleprompter.py:76 | from the start on, the published value is the offset plus the whole seconds elapsed, never below the offset; ElapsedFromStart and ElapsedMonotone state it exactly |
| Timer.ElapsedFromStart | teleprompter.py:72-76 | from the start on, the published value is the offset plus the whole seconds elapsed, so it is never below the offset |
| Timer.ElapsedMonotone | teleprompter.py:76 | a later clock reading never publishes a smaller value |
| Timer.DurationTracker.constructor | teleprompter.py:68-70 | the tracker starts out waiting for the receiver |
| Timer.DurationTracker.Wake | teleprompter.py:68-79 | the tracker polls until the receiver exists, then records the start and the persisted offset once; every later wake-up writes `offset + int(now - start)` to the paused-time slot |
| Scenarios.NeverActiveNoExport | teleprompter.py:126-143 | if capture never activates, the loop exits on its first iteration with no export and no service call |
| Scenarios.HelloHeard | teleprompter.py:94-107 | a one-frame batch transcribed as " hello world " yields the text "hello world" |
| Scenarios.HelloWorld | teleprompter.py:104-121 | on a fresh session, that batch gives one history line and the context "hello world\n", and no suggestion yet |
| Scenarios.StripExample | utils.py:69 | `" hello world ".strip()` is "hello world" |
| Scenarios.CadenceExample | teleprompter.py:116-125 | with "hello\n" unsent, an iteration at 16 s sends it and moves the cursor to 6; one at 17 s sends nothing |
| Scenarios.RerunResendsContext | teleprompter.py:81-83 | a new loop over a persisted non-empty context sends the whole of it again on its first due iteration |
| Scenarios.TwoTicks | teleprompter.py:72-79 | two ticks at times a <= b have started the tracker, and the second persists a paused time no smaller than the first |

## Left out

- Streamlit rendering is not modelled: the title, the containers, `write`, the status line, the duration display and the download button itself (teleprompter.py:20-42, 62-64, 77, 87, 111, 122, 136-142). The export is modelled as the pair of histories it would contain.
- WebRTC capture is not modelled (teleprompter.py:22-27). Whether the receiver exists is an input of each iteration and of each timer wake-up.
- pydub decoding is not modelled (teleprompter.py:96-101). A frame is its raw bytes and its duration in milliseconds, and `len(sound_chunk)` is the summed duration. pydub's own rounding of each segment's length is not modelled.
- asyncio is not modelled: `gather`, `to_thread` and `sleep` (teleprompter.py:67-70, 79, 105, 121, 145). Each iteration of the loop is one atomic step, and the timer is modelled separately. The half-second `get_frames` timeout is only visible as the `Timeout` batch.
- Floating-point wall-clock time is replaced by integer milliseconds supplied by the caller.
- The `strftime` timestamp is an opaque string input of each iteration (teleprompter.py:108-110).
- `json.dumps` and the download file name are not modelled (teleprompter.py:138-139).
- Inside `transcribe`, the temporary WAV file, the Deepgram request and the JSON decoding are not modelled (utils.py:39-67). A reply is either a service error or the paragraph transcript. The uncaught `KeyError` on a malformed response is not modelled.
- Inside `suggest`, the prompt template and the OpenAI request are not modelled (utils.py:14-35). The completion is a function input. An exception from `suggest` would end the coroutine, and it is not modelled either.
- A whole Streamlit rerun of the script is not modelled. Its effect on the loop is covered by starting `Iteration.Start` from the persisted session slots.
