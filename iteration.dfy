/** One iteration of `teleprompter_loop` (teleprompter.py:85-143), as a
    function from the loop's state before the iteration and what the outside
    world supplies during it, to the state after it and the service calls it
    made. The class in module Loop is proved to perform exactly this. */
module Iteration {
  import opened Optional
  import opened Audio
  import opened Services
  import opened Session

  /** LLM_INTERVAL (15 seconds), in the model's millisecond clock. */
  const LlmIntervalMs: int := 15 * 1000

  /** What `get_frames(timeout=0.5)` produced: it raised `queue.Empty`, or it
      returned a (possibly empty) list of frames. */
  datatype Batch = Timeout | Frames(frames: seq<Frame>)

  /** What the outside world supplies during one iteration: whether the audio
      receiver exists, the frame batch, the speech-to-text service and the
      language model (as they answer during this iteration), the formatted
      capture time used as a transcript line's prefix, and the clock reading
      taken for the cadence check. */
  datatype Input = Input(
    active: bool,
    batch: Batch,
    speech: Clip -> SttReply,
    stamp: string,
    nowMs: int,
    llm: string -> string)

  /** The download offered once capture stops: both histories, verbatim. */
  datatype Export = Export(transcript: seq<string>, aiTips: seq<string>)

  /** Everything the loop reads and writes: the three session slots it
      appends to, its two local variables, whether it has left the loop, and
      the export it offered on leaving. */
  datatype State = State(
    transcript: seq<Entry>,
    context: string,
    tips: seq<string>,
    lastLlmTime: int,
    lastLlmIndex: nat,
    finalized: bool,
    offered: Option<Export>)

  /** The result of one iteration: the new state, the clip handed to
      `transcribe` (if it was called) and the text handed to `suggest` (if it
      was called). */
  datatype Transition = Transition(after: State, heard: Option<Clip>, asked: Option<string>)

  /** The state on entering the loop: session slots as found, the cadence
      clock started now, nothing sent yet. */
  function Start(transcript: seq<Entry>, context: string, tips: seq<string>, nowMs: int): (s: State)
    ensures s.transcript == transcript && s.context == context && s.tips == tips
    ensures s.lastLlmTime == nowMs && s.lastLlmIndex == 0 && !s.finalized && s.offered == None
  {
    State(transcript, context, tips, nowMs, 0, false, None)
  }

  /** Python's `context[index:]`: the suffix from `index`, or "" once
      `index` is past the end. */
  function Unsent(context: string, index: nat): (pending: string)
    ensures index <= |context| ==> |pending| == |context| - index
    ensures |context| <= index ==> pending == ""
    ensures forall i :: 0 <= i < |pending| ==> pending[i] == context[index + i]
  {
    if index <= |context| then context[index..] else ""
  }

  /** The export offered on leaving the loop: one exactly when at least one
      history is non-empty, holding both histories verbatim. */
  function ExportOf(transcript: seq<Entry>, tips: seq<string>): (e: Option<Export>)
    ensures e.Some? <==> transcript != [] || tips != []
    ensures e.Some? ==> e.value.transcript == Lines(transcript) && e.value.aiTips == tips
  {
    if transcript != [] || tips != [] then Some(Export(Lines(transcript), tips)) else None
  }

  /** The text this iteration's transcription contributes: "" unless a batch
      arrived, its clip is non-empty and the service returned text. */
  function HeardText(x: Input): (text: string)
    ensures text == [] || (!IsSpace(text[0]) && !IsSpace(text[|text| - 1]))
    ensures text != [] ==> x.active && x.batch.Frames? && Concatenated(x.batch.frames).durationMs > 0
    ensures x.active && x.batch.Frames? && Concatenated(x.batch.frames).durationMs > 0
            ==> text == Transcribe(x.speech(Concatenated(x.batch.frames)))
  {
    if x.active && x.batch.Frames? && Concatenated(x.batch.frames).durationMs > 0
    then Transcribe(x.speech(Concatenated(x.batch.frames)))
    else ""
  }

  /** The transcription half of an active iteration with a batch: the heard
      text, if any, is appended to the history (after its timestamp) and to
      the context (followed by a newline). */
  function Record(s: State, x: Input): (t: State)
    ensures |s.transcript| <= |t.transcript| <= |s.transcript| + 1 && |s.context| <= |t.context|
    ensures t.tips == s.tips && t.lastLlmTime == s.lastLlmTime && t.lastLlmIndex == s.lastLlmIndex
    ensures t.finalized == s.finalized && t.offered == s.offered
  {
    var text := HeardText(x);
    if text != "" then
      s.(transcript := s.transcript + [Entry(x.stamp, text)], context := s.context + (text + "\n"))
    else s
  }

  /** The cadence half: if more than LLM_INTERVAL has passed and there is
      unsent context, send exactly that, append the tip, restart the cadence
      clock and move the cursor to the end of the context. */
  function Cadence(s: State, x: Input): (r: (State, Option<string>))
    ensures r.0.transcript == s.transcript && r.0.context == s.context
    ensures r.0.finalized == s.finalized && r.0.offered == s.offered
    ensures r.1.None? <==> r.0 == s
    ensures r.1.Some? ==> r.1.value != "" && r.0.lastLlmIndex == |s.context| && |r.0.tips| == |s.tips| + 1
  {
    var pending := Unsent(s.context, s.lastLlmIndex);
    if x.nowMs - s.lastLlmTime > LlmIntervalMs && pending != "" then
      (s.(tips := s.tips + [Suggest(x.llm(pending))], lastLlmTime := x.nowMs, lastLlmIndex := |s.context|),
       Some(pending))
    else (s, None)
  }

  /** One pass of the loop body. */
  function Next(s: State, x: Input): (t: Transition)
    ensures t.after.finalized == (s.finalized || !x.active)
    ensures !x.active ==> t.heard == None && t.asked == None
    ensures |s.transcript| <= |t.after.transcript| && |s.context| <= |t.after.context| && |s.tips| <= |t.after.tips|
  {
    if !x.active then
      Transition(s.(finalized := true, offered := ExportOf(s.transcript, s.tips)), None, None)
    else match x.batch
      case Timeout => Transition(s, None, None)
      case Frames(frames) =>
        var clip := Concatenated(frames);
        var c := Cadence(Record(s, x), x);
        Transition(c.0, if clip.durationMs > 0 then Some(clip) else None, c.1)
  }

  /** The loop's invariant: the context is in lockstep with the transcript
      history, the cursor lies within the context, and nothing has been
      exported before the loop is left. */
  predicate Inv(s: State) {
    Lockstep(s.transcript, s.context)
    && s.lastLlmIndex <= |s.context|
    && (!s.finalized ==> s.offered == None)
  }

  // ---- single-iteration properties ----

  /** A non-empty clip transcribed to non-empty text adds exactly one
      history line, carrying that text, and exactly `text + "\n"` to the
      context; the clip is what was sent to the service. */
  lemma HeardTextIsRecorded(s: State, x: Input)
    requires x.active && x.batch.Frames?
    requires Concatenated(x.batch.frames).durationMs > 0 && HeardText(x) != ""
    ensures var t := Next(s, x).after;
            t.transcript == s.transcript + [Entry(x.stamp, HeardText(x))]
            && t.context == s.context + (HeardText(x) + "\n")
    ensures Next(s, x).heard == Some(Concatenated(x.batch.frames))
  {
  }

  /** An empty clip, or a transcription that came back empty (service error
      or only whitespace), leaves the history and the context alone; with an
      empty clip the service is not even called. */
  lemma SilenceRecordsNothing(s: State, x: Input)
    requires x.active && x.batch.Frames?
    requires Concatenated(x.batch.frames).durationMs == 0
             || x.speech(Concatenated(x.batch.frames)).ServiceError?
             || AllSpace(x.speech(Concatenated(x.batch.frames)).transcript)
    ensures Next(s, x).after.transcript == s.transcript
    ensures Next(s, x).after.context == s.context
    ensures Concatenated(x.batch.frames).durationMs == 0 ==> Next(s, x).heard == None
  {
  }

  /** A batch that timed out skips the iteration: no state changes and no
      service is called. */
  lemma TimeoutSkipsIteration(s: State, x: Input)
    requires x.active && x.batch.Timeout?
    ensures Next(s, x) == Transition(s, None, None)
  {
  }

  /** The cadence gate, both directions: `suggest` is called exactly when
      capture is active, a batch arrived, more than 15 seconds have passed
      since the last call, and the context after this iteration's
      transcription has text past the cursor; it is sent exactly that text. */
  lemma SuggestOnlyWhenDue(s: State, x: Input)
    ensures var t := Next(s, x);
            t.asked.Some? <==>
              x.active && x.batch.Frames? && x.nowMs - s.lastLlmTime > LlmIntervalMs
              && Unsent(t.after.context, s.lastLlmIndex) != ""
    ensures var t := Next(s, x);
            t.asked.Some? ==> t.asked.value == Unsent(t.after.context, s.lastLlmIndex)
  {
  }

  /** After a call the tips history gains exactly the returned tip, the
      cadence clock is set to now and the cursor to the end of the context;
      without a call all three are unchanged. */
  lemma SuggestionEffect(s: State, x: Input)
    ensures var t := Next(s, x);
            match t.asked
            case Some(pending) =>
              t.after.tips == s.tips + [Suggest(x.llm(pending))]
              && t.after.lastLlmTime == x.nowMs && t.after.lastLlmIndex == |t.after.context|
            case None =>
              t.after.tips == s.tips && t.after.lastLlmTime == s.lastLlmTime
              && t.after.lastLlmIndex == s.lastLlmIndex
  {
  }

  /** Capture found inactive: the loop is left, an export of both histories
      is offered exactly when one of them is non-empty, nothing else changes
      and no service is called. */
  lemma InactiveFinalizes(s: State, x: Input)
    requires !x.active
    ensures var t := Next(s, x);
            t.after.finalized && t.heard == None && t.asked == None
            && t.after.transcript == s.transcript && t.after.context == s.context
            && t.after.tips == s.tips && t.after.lastLlmTime == s.lastLlmTime
            && t.after.lastLlmIndex == s.lastLlmIndex
            && (t.after.offered.Some? <==> s.transcript != [] || s.tips != [])
            && (t.after.offered.Some? ==> t.after.offered.value == Export(Lines(s.transcript), s.tips))
  {
  }

  /** The effect of one iteration on the history, the context and the loop
      flag, summed up in terms of the text heard during it. */
  lemma NextSummary(s: State, x: Input)
    ensures var t := Next(s, x).after;
            t.finalized == (s.finalized || !x.active)
            && t.transcript == (if HeardText(x) != "" then s.transcript + [Entry(x.stamp, HeardText(x))] else s.transcript)
            && t.context == (if HeardText(x) != "" then s.context + (HeardText(x) + "\n") else s.context)
  {
  }

  /** One iteration keeps the invariant, only appends to the histories and
      the context, and never moves the cursor backwards. */
  lemma {:induction false} NextKeepsInv(s: State, x: Input)
    requires Inv(s) && !s.finalized
    ensures var t := Next(s, x).after;
            Inv(t)
            && s.lastLlmIndex <= t.lastLlmIndex
            && s.transcript <= t.transcript && s.context <= t.context && s.tips <= t.tips
  {
    if x.active && x.batch.Frames? {
      var s1 := Record(s, x);
      RecordKeepsInv(s, x);
      var c := Cadence(s1, x);
      assert Next(s, x).after == c.0;
      assert c.0.transcript == s1.transcript && c.0.context == s1.context;
      assert Lockstep(c.0.transcript, c.0.context);
    }
  }

  /** The transcription half keeps the lockstep invariant. */
  lemma {:induction false} RecordKeepsInv(s: State, x: Input)
    requires Inv(s)
    ensures Inv(Record(s, x))
  {
    var text := HeardText(x);
    if text != "" {
      var e := Entry(x.stamp, text);
      assert (s.transcript + [e])[..|s.transcript|] == s.transcript;
      assert Texts(s.transcript + [e]) == Texts(s.transcript) + [text];
    }
  }
}
