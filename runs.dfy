/** Whole runs of `teleprompter_loop`: the iterations are applied one after
    another until the loop is left, and the properties that span iterations
    (lockstep, the cursor, the cadence between suggestion calls, what the
    suggestion service is sent over a session, termination) are proved here. */
module Runs {
  import opened Optional
  import opened Services
  import opened Session
  import opened Iteration

  /** The state after the loop has been fed `xs`, one input per iteration;
      inputs after the loop was left are never read. */
  function Run(s: State, xs: seq<Input>): (r: State)
    ensures s.finalized ==> r == s
    ensures |s.transcript| <= |r.transcript| && |s.context| <= |r.context| && |s.tips| <= |r.tips|
  {
    if xs == [] then s
    else
      var p := Run(s, xs[..|xs| - 1]);
      if p.finalized then p else Next(p, xs[|xs| - 1]).after
  }

  /** Running one more input of `xs` after the first `k` is one more
      iteration, as long as the loop has not been left. */
  lemma RunExtend(s: State, xs: seq<Input>, k: nat, p: State)
    requires k < |xs| && p == Run(s, xs[..k]) && !p.finalized
    ensures Run(s, xs[..k + 1]) == Next(p, xs[k]).after
  {
    assert xs[..k + 1][..k] == xs[..k];
  }

  /** One call of the suggestion service: when it was made, the text it was
      sent and the tip that was stored from its answer. */
  datatype Ask = Ask(atMs: int, sent: string, tip: string)

  /** The suggestion calls made while the loop is fed `xs`, in order. */
  function Asked(s: State, xs: seq<Input>): seq<Ask> {
    if xs == [] then []
    else
      var init := xs[..|xs| - 1];
      var x := xs[|xs| - 1];
      var p := Run(s, init);
      var prev := Asked(s, init);
      if p.finalized then prev
      else match Next(p, x).asked
        case Some(sent) => prev + [Ask(x.nowMs, sent, Suggest(x.llm(sent)))]
        case None => prev
  }

  /** The non-empty transcription results obtained while the loop is fed
      `xs`, in order. */
  function Heard(s: State, xs: seq<Input>): seq<string> {
    if xs == [] then []
    else
      var init := xs[..|xs| - 1];
      var p := Run(s, init);
      var prev := Heard(s, init);
      var text := HeardText(xs[|xs| - 1]);
      if p.finalized || text == "" then prev else prev + [text]
  }

  function Sent(asks: seq<Ask>): string {
    if asks == [] then "" else Sent(asks[..|asks| - 1]) + asks[|asks| - 1].sent
  }

  function Tips(asks: seq<Ask>): (tips: seq<string>)
    ensures |tips| == |asks|
    ensures forall i :: 0 <= i < |asks| ==> tips[i] == asks[i].tip
  {
    if asks == [] then [] else Tips(asks[..|asks| - 1]) + [asks[|asks| - 1].tip]
  }

  /** The invariant holds throughout a run; the histories and the context are
      only appended to and the cursor never moves backwards. */
  lemma {:induction false} RunKeepsInv(s: State, xs: seq<Input>)
    requires Inv(s)
    ensures var r := Run(s, xs);
            Inv(r) && s.lastLlmIndex <= r.lastLlmIndex
            && s.transcript <= r.transcript && s.context <= r.context && s.tips <= r.tips
  {
    if xs != [] {
      var init := xs[..|xs| - 1];
      RunKeepsInv(s, init);
      var p := Run(s, init);
      if !p.finalized {
        NextKeepsInv(p, xs[|xs| - 1]);
      }
    }
  }

  /** Once the loop has been left, further inputs change nothing: no state,
      no calls, no transcription. */
  lemma {:induction false} RunStopsAtFinal(s: State, xs: seq<Input>, ys: seq<Input>)
    requires Run(s, xs).finalized
    ensures Run(s, xs + ys) == Run(s, xs)
    ensures Asked(s, xs + ys) == Asked(s, xs) && Heard(s, xs + ys) == Heard(s, xs)
  {
    if ys == [] {
      assert xs + ys == xs;
    } else {
      var init := ys[..|ys| - 1];
      RunStopsAtFinal(s, xs, init);
      assert (xs + ys)[..|xs + ys| - 1] == xs + init;
    }
  }

  /** The loop is left exactly when some input found capture inactive; the
      iteration that leaves it is the first such one. */
  lemma {:induction false} FinalizedIffInactiveSeen(s: State, xs: seq<Input>)
    requires !s.finalized
    ensures Run(s, xs).finalized <==> exists i :: 0 <= i < |xs| && !xs[i].active
  {
    if xs != [] {
      var init := xs[..|xs| - 1];
      var x := xs[|xs| - 1];
      FinalizedIffInactiveSeen(s, init);
      var p := Run(s, init);
      NextSummary(p, x);
      assert Run(s, xs).finalized == (p.finalized || !x.active);
      InactiveSeenSplit(xs, init);
    }
  }

  lemma InactiveSeenSplit(xs: seq<Input>, init: seq<Input>)
    requires xs != [] && init == xs[..|xs| - 1]
    ensures (exists i :: 0 <= i < |xs| && !xs[i].active)
            == ((exists i :: 0 <= i < |init| && !init[i].active) || !xs[|xs| - 1].active)
  {
    if exists i :: 0 <= i < |xs| && !xs[i].active {
      var i :| 0 <= i < |xs| && !xs[i].active;
      if i < |init| { assert init[i] == xs[i]; }
    }
  }

  /** Leaving the loop offers the export of exactly the histories it has
      built, and only when one of them is non-empty. */
  lemma LeavingOffersExport(s: State, xs: seq<Input>, x: Input)
    requires !Run(s, xs).finalized && !x.active
    ensures var p := Run(s, xs);
            var r := Run(s, xs + [x]);
            r.finalized && r.transcript == p.transcript && r.tips == p.tips
            && (r.offered.Some? <==> p.transcript != [] || p.tips != [])
            && (r.offered.Some? ==> r.offered.value == Export(Lines(p.transcript), p.tips))
  {
    assert (xs + [x])[..|xs|] == xs;
  }

  /** The transcript history gains exactly the non-empty transcription
      results, in order, and the context gains exactly those texts, each
      followed by a newline. */
  lemma {:induction false} RunRecordsHeard(s: State, xs: seq<Input>)
    ensures Texts(Run(s, xs).transcript) == Texts(s.transcript) + Heard(s, xs)
    ensures Run(s, xs).context == s.context + Joined(Heard(s, xs))
  {
    if xs != [] {
      var init := xs[..|xs| - 1];
      var x := xs[|xs| - 1];
      RunRecordsHeard(s, init);
      var p := Run(s, init);
      var r := Run(s, xs);
      var prev := Heard(s, init);
      var text := HeardText(x);
      NextSummary(p, x);
      if !p.finalized && text != "" {
        assert Heard(s, xs) == prev + [text];
        TextsStep(s.transcript, p.transcript, prev, Entry(x.stamp, text));
        ContextStep(s.context, p.context, prev, text);
      } else {
        assert Heard(s, xs) == prev;
      }
    }
  }

  /** Appending one entry keeps the history's texts equal to the texts it
      started with plus the texts heard so far. */
  lemma TextsStep(transcript0: seq<Entry>, transcript: seq<Entry>, heard: seq<string>, e: Entry)
    requires Texts(transcript) == Texts(transcript0) + heard
    ensures Texts(transcript + [e]) == Texts(transcript0) + (heard + [e.text])
  {
    TextsSnoc(transcript, e);
  }

  /** Appending a text and a newline keeps the context equal to the context
      it started with plus the joined texts heard so far. */
  lemma ContextStep(context0: string, context: string, heard: seq<string>, text: string)
    requires context == context0 + Joined(heard)
    ensures context + (text + "\n") == context0 + Joined(heard + [text])
  {
    assert (heard + [text])[..|heard|] == heard;
    assert context0 + (Joined(heard) + (text + "\n")) == (context0 + Joined(heard)) + (text + "\n");
  }

  /** Suggestion calls are more than LLM_INTERVAL apart: the first one comes
      more than LLM_INTERVAL after the cadence clock the run started with,
      and each later one more than LLM_INTERVAL after the one before. The
      cadence clock always holds the time of the latest call. */
  lemma {:induction false} AskedSpaced(s: State, xs: seq<Input>)
    ensures var a := Asked(s, xs);
            (a == [] ==> Run(s, xs).lastLlmTime == s.lastLlmTime)
            && (a != [] ==> Run(s, xs).lastLlmTime == a[|a| - 1].atMs
                            && a[0].atMs - s.lastLlmTime > LlmIntervalMs)
            && forall i :: 0 < i < |a| ==> a[i].atMs - a[i - 1].atMs > LlmIntervalMs
  {
    if xs != [] {
      var init := xs[..|xs| - 1];
      var x := xs[|xs| - 1];
      AskedSpaced(s, init);
      var p := Run(s, init);
      if !p.finalized {
        SuggestOnlyWhenDue(p, x);
        SuggestionEffect(p, x);
      }
    }
  }

  /** Over a run, the texts sent to the suggestion service, put together,
      are exactly the context between the cursor the run started with and
      the cursor it ended with: nothing is sent twice, nothing in between is
      skipped, and no call is sent an empty text. */
  lemma {:induction false} AskedCoversContext(s: State, xs: seq<Input>)
    requires Inv(s)
    ensures var r := Run(s, xs);
            Inv(r) && s.lastLlmIndex <= r.lastLlmIndex
            && Sent(Asked(s, xs)) == r.context[s.lastLlmIndex..r.lastLlmIndex]
    ensures forall a :: a in Asked(s, xs) ==> a.sent != ""
  {
    if xs != [] {
      var init := xs[..|xs| - 1];
      var x := xs[|xs| - 1];
      AskedCoversContext(s, init);
      var p := Run(s, init);
      var prev := Asked(s, init);
      if !p.finalized {
        CoverStep(p, x, s.lastLlmIndex, Sent(prev));
        match Next(p, x).asked {
          case None =>
            assert Asked(s, xs) == prev;
          case Some(sent) =>
            var a := Ask(x.nowMs, sent, Suggest(x.llm(sent)));
            assert Asked(s, xs) == prev + [a];
            assert (prev + [a])[..|prev|] == prev;
        }
      }
    }
  }

  /** One iteration extends what has been sent, counted from `base`, by
      exactly the text it sends, and that text is never empty. */
  lemma CoverStep(p: State, x: Input, base: nat, sentSoFar: string)
    requires Inv(p) && !p.finalized && base <= p.lastLlmIndex
    requires sentSoFar == p.context[base..p.lastLlmIndex]
    ensures var t := Next(p, x);
            Inv(t.after) && base <= t.after.lastLlmIndex
            && match t.asked
               case None => sentSoFar == t.after.context[base..t.after.lastLlmIndex]
               case Some(sent) => sent != "" && sentSoFar + sent == t.after.context[base..t.after.lastLlmIndex]
  {
    NextKeepsInv(p, x);
    SuggestOnlyWhenDue(p, x);
    SuggestionEffect(p, x);
    var t := Next(p, x);
    CoverSlices(p.context, t.after.context, base, p.lastLlmIndex, t.after.lastLlmIndex, t.asked);
  }

  /** The slice arithmetic behind CoverStep, on plain strings: the context
      only grew, and the cursor either stayed or moved to the end past
      exactly the text that was sent. */
  lemma CoverSlices(before: string, after: string, base: nat, cursor: nat, cursor': nat, asked: Option<string>)
    requires before <= after && base <= cursor <= |before|
    requires asked.None? ==> cursor' == cursor
    requires asked.Some? ==> asked.value == after[cursor..] && cursor' == |after|
    ensures base <= cursor' <= |after|
    ensures asked.None? ==> before[base..cursor] == after[base..cursor']
    ensures asked.Some? ==> before[base..cursor] + asked.value == after[base..cursor']
  {
    assert after[base..cursor] == before[base..cursor];
    if asked.Some? {
      assert after[base..] == after[base..cursor] + after[cursor..];
    }
  }

  /** A tip as `suggest` returns it: it ends with the separator. */
  predicate EndsWithSeparator(tip: string) {
    |tip| >= |TipSeparator| && tip[|tip| - |TipSeparator|..] == TipSeparator
  }

  /** The tips history gains exactly the tips of the suggestion calls, in
      order, and each of them ends with the separator `suggest` appends. */
  lemma {:induction false} RunStoresTips(s: State, xs: seq<Input>)
    ensures Run(s, xs).tips == s.tips + Tips(Asked(s, xs))
    ensures forall a :: a in Asked(s, xs) ==> EndsWithSeparator(a.tip)
  {
    if xs != [] {
      var init := xs[..|xs| - 1];
      var x := xs[|xs| - 1];
      RunStoresTips(s, init);
      var p := Run(s, init);
      var prev := Asked(s, init);
      if !p.finalized {
        SuggestionEffect(p, x);
        match Next(p, x).asked {
          case None =>
            assert Asked(s, xs) == prev;
          case Some(sent) =>
            var a := Ask(x.nowMs, sent, Suggest(x.llm(sent)));
            assert Asked(s, xs) == prev + [a];
            TipsStep(s.tips, p.tips, prev, a);
        }
      }
    }
  }

  /** Storing one more call's tip keeps the tips history equal to the tips
      it started with plus the tips of the calls so far. */
  lemma TipsStep(tips0: seq<string>, tips: seq<string>, asks: seq<Ask>, a: Ask)
    requires tips == tips0 + Tips(asks) && forall b :: b in asks ==> EndsWithSeparator(b.tip)
    requires EndsWithSeparator(a.tip)
    ensures tips + [a.tip] == tips0 + Tips(asks + [a])
    ensures forall b :: b in asks + [a] ==> EndsWithSeparator(b.tip)
  {
    assert (asks + [a])[..|asks|] == asks;
  }
}
