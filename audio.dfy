/** The frame batcher of the pipeline loop (teleprompter.py:94-104): every
    frame received in one batch is appended, in arrival order, to an initially
    empty clip. Audio decoding is abstracted away: a frame is its raw sample
    bytes together with its duration in milliseconds, which is what the loop
    later tests with `len(sound_chunk) > 0`. */
module Audio {

  /** One received audio frame: its raw sample bytes and its duration. */
  datatype Frame = Frame(data: seq<bv8>, durationMs: nat)

  /** A continuous stretch of audio, submitted as one unit to transcription. */
  datatype Clip = Clip(data: seq<bv8>, durationMs: nat)

  const EmptyClip: Clip := Clip([], 0)

  /** The clip made by appending `frames` one after another to the empty clip. */
  function Concatenated(frames: seq<Frame>): (clip: Clip)
    ensures forall i :: 0 <= i < |frames| ==> frames[i].durationMs <= clip.durationMs
    ensures forall i :: 0 <= i < |frames| ==> |frames[i].data| <= |clip.data|
  {
    if frames == [] then EmptyClip
    else
      var init := Concatenated(frames[..|frames| - 1]);
      var last := frames[|frames| - 1];
      Clip(init.data + last.data, init.durationMs + last.durationMs)
  }

  /** An empty batch gives the empty clip, and a one-frame batch gives a
      clip made of exactly that frame. */
  lemma ConcatenatedUnits(f: Frame)
    ensures Concatenated([]) == EmptyClip
    ensures Concatenated([f]) == Clip(f.data, f.durationMs)
  {
    assert [f][..0] == [];
  }

  /** Concatenating two batches one after the other gives the bytes of the
      first followed by the bytes of the second, and the sum of their
      durations. With ConcatenatedUnits this determines the clip of every
      batch: the frames' bytes in arrival order, and nothing else. */
  lemma {:induction false} ConcatenatedAppend(a: seq<Frame>, b: seq<Frame>)
    ensures Concatenated(a + b)
            == Clip(Concatenated(a).data + Concatenated(b).data, Concatenated(a).durationMs + Concatenated(b).durationMs)
  {
    if b == [] {
      assert a + b == a;
      assert Concatenated(a).data + [] == Concatenated(a).data;
    } else {
      var n := |b| - 1;
      ConcatenatedAppend(a, b[..n]);
      SplitLast(a, b);
      ConcatenatedSnoc(a + b[..n], b[n]);
      ConcatenatedSnoc(b[..n], b[n]);
      AppendStep(Concatenated(a), Concatenated(b[..n]), Concatenated(a + b[..n]), b[n]);
    }
  }

  /** The inductive step of ConcatenatedAppend on plain clips: appending a
      frame to both sides keeps the clip of `a + b` equal to the clip of `a`
      followed by the clip of `b`. */
  lemma AppendStep(ca: Clip, cb: Clip, cab: Clip, f: Frame)
    requires cab == Clip(ca.data + cb.data, ca.durationMs + cb.durationMs)
    ensures Clip(cab.data + f.data, cab.durationMs + f.durationMs)
            == Clip(ca.data + (cb.data + f.data), ca.durationMs + (cb.durationMs + f.durationMs))
  {
    assert (ca.data + cb.data) + f.data == ca.data + (cb.data + f.data);
  }

  lemma SplitLast(a: seq<Frame>, b: seq<Frame>)
    requires b != []
    ensures a + b == (a + b[..|b| - 1]) + [b[|b| - 1]]
    ensures b == b[..|b| - 1] + [b[|b| - 1]]
  {
  }

  lemma ConcatenatedSnoc(frames: seq<Frame>, f: Frame)
    ensures Concatenated(frames + [f])
            == Clip(Concatenated(frames).data + f.data, Concatenated(frames).durationMs + f.durationMs)
  {
    assert (frames + [f])[..|frames|] == frames;
  }

  /** The clip is long enough to transcribe exactly when some frame of the
      batch has a positive duration; in particular an empty batch gives an
      empty clip. */
  lemma {:induction false} ClipAudibleIff(frames: seq<Frame>)
    ensures Concatenated(frames).durationMs > 0
            <==> exists i :: 0 <= i < |frames| && frames[i].durationMs > 0
  {
    if frames != [] {
      var init := frames[..|frames| - 1];
      ClipAudibleIff(init);
      if exists i :: 0 <= i < |init| && init[i].durationMs > 0 {
        var i :| 0 <= i < |init| && init[i].durationMs > 0;
        assert frames[i] == init[i];
      }
      if exists i :: 0 <= i < |frames| && frames[i].durationMs > 0 {
        var i :| 0 <= i < |frames| && frames[i].durationMs > 0;
        if i < |init| { assert init[i] == frames[i]; }
      }
    }
  }

  /** The clip's bytes are the frames' bytes in arrival order: the bytes of
      frame `k` sit right after those of the frames before it. */
  lemma {:induction false} ClipKeepsOrder(frames: seq<Frame>, k: nat)
    requires k < |frames|
    ensures var before := Concatenated(frames[..k]).data;
            |before| + |frames[k].data| <= |Concatenated(frames).data|
            && Concatenated(frames).data[|before|..|before| + |frames[k].data|] == frames[k].data
  {
    var n := |frames| - 1;
    if k == n {
      assert frames[..n] == frames[..k];
    } else {
      ClipKeepsOrder(frames[..n], k);
      assert frames[..n][..k] == frames[..k];
      assert frames[..n][k] == frames[k];
    }
  }

  /** The loop `for audio_frame in audio_frames: sound_chunk += sound`. */
  method BuildClip(frames: seq<Frame>) returns (clip: Clip)
    ensures clip == Concatenated(frames)
  {
    clip := EmptyClip;
    var i := 0;
    while i < |frames|
      invariant 0 <= i <= |frames|
      invariant clip == Concatenated(frames[..i])
    {
      assert frames[..i + 1][..i] == frames[..i];
      clip := Clip(clip.data + frames[i].data, clip.durationMs + frames[i].durationMs);
      i := i + 1;
    }
    assert frames[..i] == frames;
  }
}
