/** The relevancy scorer: the cosine similarity between the embeddings of
    the topic and of the transcript, mapped from [-1, 1] onto [0, 10].

    The embedding model and the similarity are library code; the whole of
    them is one parameter, a cosine value for two normalised strings. */
module Relevancy {
  import opened Common

  /** `s.lower().strip()`, applied to both the topic and the transcript:
      the lowered slice of `s` between its leading and trailing whitespace.
      Lowering and stripping commute (`NormalizeLowersThenStrips`), so the
      body strips first. */
  function Normalize(s: string): (r: string)
    ensures r == [] || (!IsSpace(r[0]) && !IsSpace(r[|r| - 1]))
    ensures forall i :: 0 <= i < |r| ==> !IsAsciiUpper(r[i])
    ensures Lead(s) + |r| <= |s| && r == Lower(s[Lead(s)..Lead(s) + |r|])
    ensures AllSpace(s[..Lead(s)]) && AllSpace(s[Lead(s) + |r|..])
  {
    Lower(Strip(s))
  }

  /** The order the source applies the two steps in. */
  lemma NormalizeLowersThenStrips(s: string)
    ensures Normalize(s) == Strip(Lower(s))
  {
    StripLowerCommute(s);
  }

  /** `round(max(0, min((c + 1) / 2 * 10, 10)), 2)`. */
  function ScoreFromCosine(c: real): (s: real)
    ensures LowerBound <= s <= UpperBound
  {
    var scaled := (c + 1.0) / 2.0 * 10.0;
    Round2Bounded(Clamp(scaled));
    Round2(Clamp(scaled))
  }

  /** `calculate_relevancy_score`. */
  function RelevancyScore(t: Transcript, topic: string,
                          cosine: (string, string) -> real): (s: real)
    ensures LowerBound <= s <= UpperBound
  {
    ScoreFromCosine(cosine(Normalize(topic), Normalize(t.text)))
  }

  // ---------------------------------------------------------------------
  // Properties

  /** Normalising twice is normalising once. */
  lemma NormalizeIdempotent(s: string)
    ensures Normalize(Normalize(s)) == Normalize(s)
  {
    StripLowerCommute(Strip(s));
    StripIdempotent(s);
    LowerIdempotent(Strip(s));
  }

  /** Case and surrounding whitespace never change the score: inputs that
      normalise alike score alike. */
  lemma SameNormalFormSameScore(t: Transcript, t': Transcript, topic: string,
                                topic': string, cosine: (string, string) -> real)
    requires Normalize(t.text) == Normalize(t'.text)
    requires Normalize(topic) == Normalize(topic')
    ensures RelevancyScore(t, topic, cosine) == RelevancyScore(t', topic', cosine)
  {
  }

  /** Identical direction scores 10, orthogonal 5, opposite 0. */
  lemma CosineLandmarks()
    ensures ScoreFromCosine(1.0) == 10.0
    ensures ScoreFromCosine(0.0) == 5.0
    ensures ScoreFromCosine(-1.0) == 0.0
  {
    Round2OfHundredths(1000);
    Round2OfHundredths(500);
    Round2OfHundredths(0);
  }

  /** A cosine outside [-1, 1] is clamped: at least 1 gives 10, at most -1
      gives 0. */
  lemma CosineOutOfRange(c: real)
    ensures c >= 1.0 ==> ScoreFromCosine(c) == 10.0
    ensures c <= -1.0 ==> ScoreFromCosine(c) == 0.0
  {
    Round2OfHundredths(1000);
    Round2OfHundredths(0);
  }

  /** A more similar text never scores lower. */
  lemma ScoreMonotone(c: real, c': real)
    requires c <= c'
    ensures ScoreFromCosine(c) <= ScoreFromCosine(c')
  {
    var x := (c + 1.0) / 2.0 * 10.0;
    var y := (c' + 1.0) / 2.0 * 10.0;
    ClampMonotone(x, y);
    Round2Monotone(Clamp(x), Clamp(y));
  }

  /** Inside [-1, 1] the score is within rounding of the linear map. */
  lemma ScoreNearLinear(c: real)
    requires -1.0 <= c <= 1.0
    ensures 5.0 * (c + 1.0) - 0.005 < ScoreFromCosine(c) <= 5.0 * (c + 1.0) + 0.005
  {
  }
}
