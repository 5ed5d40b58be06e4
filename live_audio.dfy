/**
  The three indicator mappers of the live discernment panel
  (client/src/components/shared/LiveAudioDiscernment.tsx): speech pace,
  turn-taking balance and pause density, each an if-chain from a number to a
  label and a colour class.
 */
module LiveAudio {
  import opened AudioTypes
  import QualityAssessor

  datatype Indicator = Indicator(name: string, color: string)

  /** mapPaceState. */
  function PaceState(wpm: int): (r: Indicator)
    ensures r.name == "Slow" <==> wpm < 120
    ensures r.name == "Steady" <==> 120 <= wpm < 150
    ensures r.name == "Rising" <==> 150 <= wpm < 180
    ensures r.name == "Rapid" <==> 180 <= wpm
  {
    if wpm < 120 then Indicator("Slow", "text-blue-500")
    else if wpm < 150 then Indicator("Steady", "text-emerald-500")
    else if wpm < 180 then Indicator("Rising", "text-amber-500")
    else Indicator("Rapid", "text-red-500")
  }

  /** The pace labels from slowest to fastest. */
  function PaceRank(name: string): nat
  {
    if name == "Slow" then 0 else if name == "Steady" then 1 else if name == "Rising" then 2 else 3
  }

  /** A faster rate never gets a slower label. */
  lemma PaceMonotone(a: int, b: int)
    requires a <= b
    ensures PaceRank(PaceState(a).name) <= PaceRank(PaceState(b).name)
  {
  }

  /**
    The panel and the server disagree at exactly one rate: 180 words per
    minute is labelled Rapid, but the server raises too_fast only above 180.
   */
  lemma RapidWithoutTooFast(segs: seq<Segment>, features: Features, durationMs: int)
    ensures PaceState(features.speech_rate_wpm).name == "Rapid"
              && TooFast !in QualityAssessor.QualityFlagsOf(segs, features, durationMs)
            <==> features.speech_rate_wpm == 180
  {
    QualityAssessor.QualityFlagsRaised(segs, features, durationMs);
  }

  /** mapBalanceState. */
  function BalanceState(balance: real): (r: Indicator)
    ensures r.name == "Balanced" <==> 0.4 <= balance <= 0.6
    ensures r.name == "Slightly Skewed" <==> 0.3 <= balance <= 0.7 && !(0.4 <= balance <= 0.6)
    ensures r.name == "One-Sided" <==> balance < 0.3 || balance > 0.7
  {
    if balance >= 0.4 && balance <= 0.6 then Indicator("Balanced", "text-emerald-500")
    else if balance >= 0.3 && balance <= 0.7 then Indicator("Slightly Skewed", "text-amber-500")
    else Indicator("One-Sided", "text-red-500")
  }

  /** The balance bands are symmetric about one half. */
  lemma BalanceSymmetric(balance: real)
    ensures BalanceState(balance) == BalanceState(1.0 - balance)
  {
  }

  /** mapPauseDensity. */
  function PauseState(density: real): (r: Indicator)
    ensures r.name == "Reflective" <==> density > 0.3
    ensures r.name == "Moderate" <==> 0.15 < density <= 0.3
    ensures r.name == "Pressured" <==> density <= 0.15
  {
    if density > 0.3 then Indicator("Reflective", "text-emerald-500")
    else if density > 0.15 then Indicator("Moderate", "text-blue-500")
    else Indicator("Pressured", "text-amber-500")
  }

  /** More pausing never reads as more pressured. */
  lemma PauseMonotone(a: real, b: real)
    requires a <= b
    ensures PauseState(a).name == "Reflective" ==> PauseState(b).name == "Reflective"
    ensures PauseState(b).name == "Pressured" ==> PauseState(a).name == "Pressured"
  {
  }
}
