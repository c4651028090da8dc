/** Concrete sessions, worked through the model of the loop. */
module Scenarios {
  import opened Optional
  import opened Audio
  import opened Services
  import opened Session
  import opened Iteration
  import opened Runs
  import opened Timer

  /** The microphone is never switched on: the loop is left on its first
      iteration, no service is called and no export is offered. */
  lemma NeverActiveNoExport(x: Input, nowMs: int)
    requires !x.active
    ensures var t := Next(Start([], "", [], nowMs), x);
            t.after.finalized && t.after.offered == None
            && t.after.transcript == [] && t.after.tips == [] && t.heard == None && t.asked == None
  {
  }

  /** An iteration in which one 20 ms frame arrives and is transcribed as
      " hello world ". */
  function HelloInput(nowMs: int): Input {
    Input(true, Frames([Frame([1, 2], 20)]), _ => Paragraphs(" hello world "), "ts: ", nowMs, c => c)
  }

  lemma HelloHeard(nowMs: int)
    ensures HeardText(HelloInput(nowMs)) == "hello world"
  {
    assert [Frame([1, 2], 20)][..0] == [];
    assert Concatenated([Frame([1, 2], 20)]) == Clip([1, 2], 20);
    StripExample();
  }

  /** That iteration, on a fresh session, gives one history line with the
      stripped text and the context "hello world\n"; with the cadence clock
      just started, the suggestion service is not called. */
  lemma HelloWorld(nowMs: int)
    ensures var t := Next(Start([], "", [], nowMs), HelloInput(nowMs));
            t.after.transcript == [Entry("ts: ", "hello world")]
            && t.after.context == "hello world\n" && t.asked == None
  {
    HelloHeard(nowMs);
  }

  /** Stripping removes exactly the surrounding blanks. */
  lemma StripExample()
    ensures Strip(" hello world ") == "hello world"
  {
    var raw := " hello world ";
    assert IsSpace(raw[0]) && raw[1..] == "hello world ";
    assert Strip(raw) == Strip("hello world ");
    var inner := "hello world ";
    assert !IsSpace(inner[0]) && IsSpace(inner[|inner| - 1]) && inner[..|inner| - 1] == "hello world";
    assert Strip(inner) == Strip("hello world");
    assert !IsSpace('h') && !IsSpace('d');
  }

  /** With "hello\n" unsent and the cadence clock at 0 s, an iteration at
      16 s sends "hello\n", stores the tip and moves the cursor to 6; an
      iteration at 17 s with nothing new heard sends nothing. */
  lemma CadenceExample()
    ensures var s := State([Entry("ts: ", "hello")], "hello\n", [], 0, 0, false, None);
            var quiet := (ms: int) => Input(true, Frames([]), _ => ServiceError, "ts: ", ms, _ => "Tip: X");
            var t16 := Next(s, quiet(16000));
            var t17 := Next(t16.after, quiet(17000));
            t16.asked == Some("hello\n") && t16.after.tips == ["Tip: X" + TipSeparator]
            && t16.after.lastLlmIndex == 6 && t16.after.lastLlmTime == 16000
            && t17.asked == None && t17.after == t16.after
  {
  }

  /** A rerun of the script starts a new loop with the cursor at 0 while
      the context persists in the session store, so the first suggestion
      call of the new loop is sent the whole persisted context again,
      followed by whatever this iteration heard. */
  lemma RerunResendsContext(transcript: seq<Entry>, context: string, tips: seq<string>, startMs: int, x: Input)
    requires context != "" && x.active && x.batch.Frames? && x.nowMs - startMs > LlmIntervalMs
    ensures var t := Next(Start(transcript, context, tips, startMs), x);
            t.asked.Some? && context <= t.asked.value
            && t.asked.value == context + (if HeardText(x) != "" then HeardText(x) + "\n" else "")
  {
    var s := Start(transcript, context, tips, startMs);
    SuggestOnlyWhenDue(s, x);
    NextSummary(s, x);
  }

  /** Two wake-ups of the duration tracker with capture active, at times
      `a <= b`: the ticking has begun, and the paused time persisted by the
      second is never smaller than the one persisted by the first. */
  method TwoTicks(tracker: DurationTracker, a: int, b: int) returns (first: int, second: int)
    requires a <= b
    modifies tracker, tracker.session`pausedTime
    ensures tracker.started
    ensures first <= second && second == tracker.session.pausedTime
  {
    tracker.Wake(true, a);
    first := tracker.session.pausedTime;
    tracker.Wake(true, b);
    second := tracker.session.pausedTime;
    ElapsedMonotone(tracker.offset, tracker.startMs, a, b);
  }
}
