/** The two network services the pipeline calls (utils.py), reduced to what the
    pipeline can observe of them: the speech-to-text reply is turned into a
    stripped string, with "" standing for a failed request, and the language
    model's completion gets a fixed separator appended. The services
    themselves are inputs of the model (see module Iteration). */
module Services {

  /** Whitespace as Python's `str.isspace` defines it. */
  predicate IsSpace(c: char) {
    c == ' ' || ('\t' <= c <= '\r') || ('\U{1C}' <= c <= '\U{1F}')
    || c == '\U{85}' || c == '\U{A0}' || c == '\U{1680}'
    || ('\U{2000}' <= c <= '\U{200A}') || c == '\U{2028}' || c == '\U{2029}'
    || c == '\U{202F}' || c == '\U{205F}' || c == '\U{3000}'
  }

  /** Every character of `s` is whitespace. */
  predicate AllSpace(s: string) {
    s == [] || (IsSpace(s[0]) && AllSpace(s[1..]))
  }

  lemma {:induction false} AllSpaceAppend(a: string, b: string)
    ensures AllSpace(a + b) <==> AllSpace(a) && AllSpace(b)
  {
    if a == [] {
      assert a + b == b;
    } else {
      AllSpaceAppend(a[1..], b);
      assert (a + b)[1..] == a[1..] + b;
    }
  }

  /** Python's `str.strip()` with no argument: whitespace is cut from the
      front, then from the back, until both ends are non-space. The result
      starts and ends with a non-space character, it is empty exactly when
      `s` is all whitespace, and a string that already has non-space ends is
      its own strip (so stripping twice is stripping once). */
  function Strip(s: string): (r: string)
    ensures |r| <= |s|
    ensures r == [] || (!IsSpace(r[0]) && !IsSpace(r[|r| - 1]))
    ensures r == [] <==> AllSpace(s)
    ensures (s == [] || (!IsSpace(s[0]) && !IsSpace(s[|s| - 1]))) ==> r == s
  {
    if s != [] && IsSpace(s[0]) then Strip(s[1..])
    else if s != [] && IsSpace(s[|s| - 1]) then
      assert s[..|s| - 1][0] == s[0];
      Strip(s[..|s| - 1])
    else s
  }

  /** What `strip` removes is whitespace only: the result is the slice of
      `s` starting at `lead`, with nothing but whitespace before and after. */
  lemma {:induction false} StripIsSlice(s: string) returns (lead: nat)
    ensures lead + |Strip(s)| <= |s| && Strip(s) == s[lead..lead + |Strip(s)|]
    ensures AllSpace(s[..lead]) && AllSpace(s[lead + |Strip(s)|..])
  {
    if s != [] && IsSpace(s[0]) {
      var k := StripIsSlice(s[1..]);
      lead := k + 1;
      SliceFront(s, k, Strip(s[1..]));
    } else if s != [] && IsSpace(s[|s| - 1]) {
      lead := StripIsSlice(s[..|s| - 1]);
      SliceBack(s, lead, Strip(s[..|s| - 1]));
    } else {
      lead := 0;
      assert s[..0] == [] && s[|s|..] == [];
    }
  }

  /** A whitespace-surrounded slice of `s[1..]`, when `s[0]` is whitespace,
      is a whitespace-surrounded slice of `s`. */
  lemma SliceFront(s: string, k: nat, r: string)
    requires s != [] && IsSpace(s[0]) && k + |r| + 1 <= |s|
    requires r == s[1..][k..k + |r|] && AllSpace(s[1..][..k]) && AllSpace(s[1..][k + |r|..])
    ensures r == s[k + 1..k + 1 + |r|] && AllSpace(s[..k + 1]) && AllSpace(s[k + 1 + |r|..])
  {
    assert s[1..][k + |r|..] == s[k + 1 + |r|..];
    assert s[..k + 1][1..] == s[1..][..k];
  }

  /** A whitespace-surrounded slice of `s[..|s| - 1]`, when the last
      character of `s` is whitespace, is a whitespace-surrounded slice of `s`. */
  lemma SliceBack(s: string, k: nat, r: string)
    requires s != [] && IsSpace(s[|s| - 1]) && k + |r| + 1 <= |s|
    requires r == s[..|s| - 1][k..k + |r|] && AllSpace(s[..|s| - 1][..k]) && AllSpace(s[..|s| - 1][k + |r|..])
    ensures r == s[k..k + |r|] && AllSpace(s[..k]) && AllSpace(s[k + |r|..])
  {
    assert s[..|s| - 1][..k] == s[..k];
    assert s[k + |r|..] == s[..|s| - 1][k + |r|..] + [s[|s| - 1]];
    AllSpaceAppend(s[..|s| - 1][k + |r|..], [s[|s| - 1]]);
  }

  /** A reply from the speech-to-text service: the request raised, or it
      returned the first alternative's paragraph transcript. */
  datatype SttReply = ServiceError | Paragraphs(transcript: string)

  /** What `transcribe` hands back to the pipeline: "" when the service call
      raised, otherwise the stripped transcript. A non-empty result never has
      surrounding whitespace, and it is empty exactly when the service failed
      or heard only whitespace. */
  function Transcribe(reply: SttReply): (text: string)
    ensures text == [] || (!IsSpace(text[0]) && !IsSpace(text[|text| - 1]))
    ensures text == [] <==> reply.ServiceError? || AllSpace(reply.transcript)
    ensures reply.Paragraphs? ==> text == Strip(reply.transcript)
  {
    match reply
    case ServiceError => ""
    case Paragraphs(transcript) => Strip(transcript)
  }

  /** The separator `suggest` puts after every completion. */
  const TipSeparator: string := "\n\n---\n"

  /** What `suggest` hands back: the model's completion followed by the
      separator, so a tip is never empty and always ends with the separator. */
  function Suggest(completion: string): (tip: string)
    ensures tip != []
    ensures |tip| == |completion| + |TipSeparator|
    ensures tip[..|completion|] == completion && tip[|completion|..] == TipSeparator
  {
    completion + TipSeparator
  }
}
