/** `analyze_sentiment`: a polarity score mapped to a label and a display colour. */
module Sentiment {

  /** Polarities strictly above this are positive, strictly below its negation negative. */
  const Threshold: real := 0.1

  const PositiveBadge: (string, string) := ("Positive \U{1F60A}", "green")
  const NegativeBadge: (string, string) := ("Negative \U{1F61E}", "red")
  const NeutralBadge: (string, string) := ("Neutral \U{1F610}", "gray")

  /**
   * The (label, colour) pair shown for an article whose text has the given
   * polarity. The polarity is the analyser's output, taken as an input here.
   */
  function AnalyzeSentiment(polarity: real): (badge: (string, string))
    ensures badge == PositiveBadge <==> polarity > Threshold
    ensures badge == NegativeBadge <==> polarity < -Threshold
    ensures badge == NeutralBadge <==> -Threshold <= polarity <= Threshold
    ensures badge in {PositiveBadge, NegativeBadge, NeutralBadge}
  {
    if polarity > Threshold then
      PositiveBadge
    else if polarity < -Threshold then
      NegativeBadge
    else
      NeutralBadge
  }

  /** Position of a badge on the scale Negative < Neutral < Positive. */
  function Rank(badge: (string, string)): int {
    if badge == NegativeBadge then 0
    else if badge == NeutralBadge then 1
    else 2
  }

  /** Both thresholds are exclusive: exactly 0.1 and -0.1 are neutral. */
  lemma BoundariesAreNeutral()
    ensures AnalyzeSentiment(0.1) == NeutralBadge
    ensures AnalyzeSentiment(-0.1) == NeutralBadge
  {
  }

  /** A higher polarity never gives a badge further toward Negative. */
  lemma Monotone(p1: real, p2: real)
    requires p1 <= p2
    ensures Rank(AnalyzeSentiment(p1)) <= Rank(AnalyzeSentiment(p2))
  {
  }

  /** The colour is determined by the label and the label by the colour. */
  lemma LabelDeterminesColour(p1: real, p2: real)
    ensures AnalyzeSentiment(p1).0 == AnalyzeSentiment(p2).0
        <==> AnalyzeSentiment(p1).1 == AnalyzeSentiment(p2).1
  {
  }
}
