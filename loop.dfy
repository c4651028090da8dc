/** `teleprompter_loop` itself (teleprompter.py:81-143): a loop object whose
    two local variables are fields, working on the session store it shares
    with the duration tracker. `Step` is one pass of `while True`, `Drive`
    the loop fed a finite sequence of iterations. Both are proved to do
    exactly what the functions of modules Iteration and Runs describe, so
    every property proved there holds of them. */
module Loop {
  import opened Optional
  import opened Audio
  import opened Services
  import opened Session
  import opened Iteration
  import opened Runs

  class Teleprompter {
    /** The session store (`st.session_state`). */
    const session: SessionState
    /** The local `last_llm_time`, in milliseconds. */
    var lastLlmTime: int
    /** The local `last_llm_index`: how much of the context has been sent. */
    var lastLlmIndex: nat
    /** Whether the loop has been left (`break`). */
    var finalized: bool
    /** The download offered on leaving, if any. */
    var offered: Option<Export>

    /** The loop's state as modules Iteration and Runs see it. */
    function View(): State
      reads this, session
    {
      State(session.transcript, session.context, session.tips, lastLlmTime, lastLlmIndex, finalized, offered)
    }

    /** Nothing is offered for download before the loop is left. */
    predicate Valid()
      reads this
    {
      !finalized ==> offered == None
    }

    /** Entering the coroutine: `last_llm_time = time.time()` and
        `last_llm_index = 0`; the session slots are used as found. */
    constructor (session: SessionState, nowMs: int)
      ensures this.session == session && Valid()
      ensures View() == Start(session.transcript, session.context, session.tips, nowMs)
    {
      this.session := session;
      lastLlmTime := nowMs;
      lastLlmIndex := 0;
      finalized := false;
      offered := None;
    }

    /** One pass of the loop body. It returns the clip given to `transcribe`
        and the text given to `suggest`, when they were called. Only the
        three slots the loop appends to can change in the session store. */
    method Step(x: Input) returns (heard: Option<Clip>, asked: Option<string>)
      requires Valid() && !finalized
      modifies this, session`transcript, session`context, session`tips
      ensures Valid()
      ensures View() == Next(old(View()), x).after
      ensures heard == Next(old(View()), x).heard && asked == Next(old(View()), x).asked
      ensures session.keys == old(session.keys) && session.pausedTime == old(session.pausedTime)
    {
      heard, asked := None, None;
      if !x.active {
        Leave();
        return;
      }
      match x.batch
      case Timeout =>
        // `queue.Empty`: `continue` with the next iteration
        return;
      case Frames(frames) =>
        var clip := BuildClip(frames);
        heard := Listen(x, clip);
        asked := Consult(x);
    }

    /** Capture stopped: offer both histories when either is non-empty, and
        leave the loop. */
    method Leave()
      requires Valid() && !finalized
      modifies this`finalized, this`offered
      ensures View() == old(View()).(finalized := true, offered := ExportOf(old(View()).transcript, old(View()).tips))
    {
      if session.transcript != [] || session.tips != [] {
        offered := Some(Export(Lines(session.transcript), session.tips));
      }
      finalized := true;
    }

    /** Transcribe the batch's clip when it is non-empty and record what was
        heard; returns the clip when `transcribe` was called. */
    method Listen(x: Input, clip: Clip) returns (heard: Option<Clip>)
      requires x.active && x.batch.Frames? && clip == Concatenated(x.batch.frames)
      modifies session`transcript, session`context
      ensures View() == Record(old(View()), x)
      ensures heard == (if clip.durationMs > 0 then Some(clip) else None)
    {
      heard := None;
      if clip.durationMs > 0 {
        heard := Some(clip);
        var text := Transcribe(x.speech(clip));
        if text != "" {
          session.transcript := session.transcript + [Entry(x.stamp, text)];
          session.context := session.context + (text + "\n");
        }
      }
    }

    /** The cadence check: when it is due and there is unsent context, send
        that to `suggest`, store the tip and restart the clock and cursor. */
    method Consult(x: Input) returns (asked: Option<string>)
      modifies this`lastLlmTime, this`lastLlmIndex, session`tips
      ensures View() == Cadence(old(View()), x).0 && asked == Cadence(old(View()), x).1
    {
      asked := None;
      var now := x.nowMs;
      if now - lastLlmTime > LlmIntervalMs {
        var pending := Unsent(session.context, lastLlmIndex);
        if pending != "" {
          asked := Some(pending);
          session.tips := session.tips + [Suggest(x.llm(pending))];
          lastLlmTime := now;
          lastLlmIndex := |session.context|;
        }
      }
    }

    /** The loop fed `xs`, one input per iteration, until it is left or the
        inputs run out; `consumed` is the number of iterations performed. */
    method Drive(xs: seq<Input>) returns (consumed: nat)
      requires Valid()
      modifies this, session`transcript, session`context, session`tips
      ensures Valid()
      ensures View() == Run(old(View()), xs)
      ensures consumed <= |xs| && (consumed < |xs| ==> finalized)
      ensures session.keys == old(session.keys) && session.pausedTime == old(session.pausedTime)
    {
      consumed := 0;
      while consumed < |xs| && !finalized
        invariant consumed <= |xs|
        invariant Valid()
        invariant View() == Run(old(View()), xs[..consumed])
        invariant session.keys == old(session.keys) && session.pausedTime == old(session.pausedTime)
      {
        ghost var before := View();
        var _, _ := Step(xs[consumed]);
        RunExtend(old(View()), xs, consumed, before);
        consumed := consumed + 1;
      }
      if consumed < |xs| {
        RunStopsAtFinal(old(View()), xs[..consumed], xs[consumed..]);
        assert xs[..consumed] + xs[consumed..] == xs;
      } else {
        assert xs[..consumed] == xs;
      }
    }
  }
}
