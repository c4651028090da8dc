/** The per-browser-session storage the pipeline works on (Streamlit's
    `st.session_state`, teleprompter.py:15-18 and 45-60): four named slots,
    each of which may or may not exist yet. The transcript history and the
    tips history are lists appended to in place, the rolling context is a
    string extended in place, and the paused time is the duration tracker's
    persisted offset. */
module Session {

  /** The names of the four slots. */
  datatype Key = TranscriptHistoryKey | TranscriptContextKey | AiTipsHistoryKey | PausedTimeKey

  const AllKeys: set<Key> := {TranscriptHistoryKey, TranscriptContextKey, AiTipsHistoryKey, PausedTimeKey}

  /** One transcript line: the moment it was captured, already formatted,
      and the transcribed text. */
  datatype Entry = Entry(stamp: string, text: string)

  /** The line as it is stored, shown and exported: the formatted timestamp
      directly followed by the text, so every line ends with its text. */
  function Render(e: Entry): (line: string)
    ensures |line| == |e.stamp| + |e.text|
    ensures line[..|e.stamp|] == e.stamp && line[|e.stamp|..] == e.text
  {
    e.stamp + e.text
  }

  /** The rendered lines of a transcript history, in order. */
  function Lines(entries: seq<Entry>): (lines: seq<string>)
    ensures |lines| == |entries|
    ensures forall i :: 0 <= i < |entries| ==> lines[i] == Render(entries[i])
  {
    if entries == [] then []
    else Lines(entries[..|entries| - 1]) + [Render(entries[|entries| - 1])]
  }

  /** The texts of a transcript history, in order. */
  function Texts(entries: seq<Entry>): (texts: seq<string>)
    ensures |texts| == |entries|
    ensures forall i :: 0 <= i < |entries| ==> texts[i] == entries[i].text
  {
    if entries == [] then []
    else Texts(entries[..|entries| - 1]) + [entries[|entries| - 1].text]
  }

  lemma TextsSnoc(entries: seq<Entry>, e: Entry)
    ensures Texts(entries + [e]) == Texts(entries) + [e.text]
  {
    assert (entries + [e])[..|entries|] == entries;
  }

  /** The rolling context that a sequence of transcribed texts produces:
      each text followed by a newline, in order. */
  function Joined(texts: seq<string>): (context: string)
    ensures |texts| <= |context|
    ensures texts != [] ==> context[|context| - 1] == '\n'
  {
    if texts == [] then ""
    else Joined(texts[..|texts| - 1]) + (texts[|texts| - 1] + "\n")
  }

  /** Joining distributes over concatenation of the texts. */
  lemma {:induction false} JoinedAppend(a: seq<string>, b: seq<string>)
    ensures Joined(a + b) == Joined(a) + Joined(b)
  {
    if b != [] {
      var n := |b| - 1;
      JoinedAppend(a, b[..n]);
      assert (a + b)[..|a + b| - 1] == a + b[..n];
    } else {
      assert a + b == a;
    }
  }

  /** The lockstep invariant: the context is exactly the joined texts of the
      transcript history. */
  predicate Lockstep(transcript: seq<Entry>, context: string) {
    context == Joined(Texts(transcript))
  }

  class SessionState {
    var keys: set<Key>
    var transcript: seq<Entry>
    var context: string
    var tips: seq<string>
    var pausedTime: int

    /** A session store as the script finds it on a run: `keys` are the slots
        that already exist; the values of the others are not meaningful. */
    constructor (keys: set<Key>, transcript: seq<Entry>, context: string, tips: seq<string>, pausedTime: int)
      ensures this.keys == keys && this.transcript == transcript && this.context == context
      ensures this.tips == tips && this.pausedTime == pausedTime
    {
      this.keys := keys;
      this.transcript := transcript;
      this.context := context;
      this.tips := tips;
      this.pausedTime := pausedTime;
    }

    /** `load_history`: a missing history slot is created empty; an existing
        one is kept (and replayed on screen, which is not modelled). */
    method LoadHistory(key: Key)
      requires key == TranscriptHistoryKey || key == AiTipsHistoryKey
      modifies this`keys, this`transcript, this`tips
      ensures keys == old(keys) + {key}
      ensures transcript == if key == TranscriptHistoryKey && key !in old(keys) then [] else old(transcript)
      ensures tips == if key == AiTipsHistoryKey && key !in old(keys) then [] else old(tips)
    {
      if key !in keys {
        if key == TranscriptHistoryKey {
          transcript := [];
        } else {
          tips := [];
        }
        keys := keys + {key};
      }
    }

    /** The script's start-up: both histories are loaded, then a missing
        context is created as "" and a missing paused time as 0. Every slot
        exists afterwards, and every slot that existed keeps its value. A
        brand-new session therefore starts in lockstep. */
    method Initialise()
      modifies this
      ensures keys == old(keys) + AllKeys
      ensures transcript == if TranscriptHistoryKey in old(keys) then old(transcript) else []
      ensures tips == if AiTipsHistoryKey in old(keys) then old(tips) else []
      ensures context == if TranscriptContextKey in old(keys) then old(context) else ""
      ensures pausedTime == if PausedTimeKey in old(keys) then old(pausedTime) else 0
      ensures old(keys) == {} ==> Lockstep(transcript, context) && tips == [] && pausedTime == 0
    {
      LoadHistory(TranscriptHistoryKey);
      LoadHistory(AiTipsHistoryKey);
      if TranscriptContextKey !in keys {
        context := "";
        keys := keys + {TranscriptContextKey};
      }
      if PausedTimeKey !in keys {
        pausedTime := 0;
        keys := keys + {PausedTimeKey};
      }
    }
  }
}
