/**
  The news record schema (shared/news-types.ts) with its two decision
  rules: classifying content as primary speech or media narrative, and the
  weighted distortion score over the components that are present.
 */
module NewsTypes {
  import opened Optional

  datatype ContentRole = PrimarySpeech | MediaNarrative

  datatype NewsSourceType =
    | Transcript | VerbatimQuote | VideoEmbed | PressConference | Debate
    | Interview | Editorial | Opinion | Summary | UnknownSource

  datatype ExtractedQuote = ExtractedQuote(
    id: string,
    speaker: string,
    text: string,
    context_before: string,
    context_after: string,
    is_truncated: bool,
    confidence: real)

  datatype NewsMetadata = NewsMetadata(
    has_transcript: bool,
    has_video: bool,
    has_audio: bool,
    quote_count: nat,
    anonymous_source_count: nat,
    editorial_markers: seq<string>)

  datatype NewsRecord = NewsRecord(
    id: string,
    url: string,
    title: string,
    outlet: string,
    publishDate: string,
    content_role: ContentRole,
    source_type: NewsSourceType,
    speaker: string,
    carrier: string,
    verbatim_text: string,
    narrative_text: string,
    distortion_score: real,
    extracted_quotes: seq<ExtractedQuote>,
    metadata: NewsMetadata)

  datatype FlagType =
    | Truncation | ContextRemoval | MeaningShift | EmotionalLoading
    | PartisanFraming | Sensationalization | FactOmission

  datatype FlagSeverity = SevLow | SevMedium | SevHigh

  datatype DistortionFlag = DistortionFlag(kind: FlagType, severity: FlagSeverity, evidence: string, location: Option<string>)

  /** A partial distortion analysis: each component may be absent. */
  datatype DistortionAnalysis = DistortionAnalysis(
    quote_integrity_score: Option<real>,
    interview_distortion_index: Option<real>,
    headline_spin_score: Option<real>,
    coverage_selectivity_bias: Option<real>,
    narrative_reality_divergence: Option<real>)

  /** The content signals; an absent flag counts as false and an absent quote count as 0. */
  datatype SourceSignals = SourceSignals(
    hasTranscript: Option<bool>,
    hasVerbatimQuotes: Option<bool>,
    hasVideo: Option<bool>,
    hasEditorialFraming: Option<bool>,
    hasAnonymousSources: Option<bool>,
    quoteCount: Option<nat>)

  datatype Classification = Classification(role: ContentRole, confidence: real)

  function Flag(b: Option<bool>): bool
  {
    b == Some(true)
  }

  /** How many of editorial framing and anonymous sources are signalled. */
  function SecondarySignals(c: SourceSignals): nat
  {
    (if Flag(c.hasEditorialFraming) then 1 else 0) + (if Flag(c.hasAnonymousSources) then 1 else 0)
  }

  function StrongPrimary(c: SourceSignals): bool
  {
    Flag(c.hasTranscript) || Flag(c.hasVideo)
  }

  function QuoteCount(c: SourceSignals): nat
  {
    if c.quoteCount.Some? then c.quoteCount.value else 0
  }

  function ClassifyNewsSource(c: SourceSignals): Classification
  {
    var s := SecondarySignals(c);
    if StrongPrimary(c) && s == 0 then Classification(PrimarySpeech, 0.9)
    else if StrongPrimary(c) && QuoteCount(c) >= 3 && s <= 1 then Classification(PrimarySpeech, 0.7)
    else Classification(MediaNarrative, 0.6 + s as real * 0.15)
  }

  /**
    Content is primary speech exactly when a transcript or video is present
    and either no secondary signal, or one secondary signal with at least
    three quotes; its confidence is then 0.9 or 0.7 respectively, and a
    media narrative's confidence is 0.6, 0.75 or 0.9 by the number of
    secondary signals.
   */
  lemma ClassificationRules(c: SourceSignals)
    ensures var r := ClassifyNewsSource(c);
      var s := SecondarySignals(c);
      s <= 2
      && (r.role == PrimarySpeech <==> StrongPrimary(c) && (s == 0 || (s == 1 && QuoteCount(c) >= 3)))
      && (r.role == PrimarySpeech && s == 0 ==> r.confidence == 0.9)
      && (r.role == PrimarySpeech && s == 1 ==> r.confidence == 0.7)
      && (r.role == MediaNarrative ==> r.confidence == 0.6 + s as real * 0.15)
      && 0.6 <= r.confidence <= 0.9
  {
  }

  /** Without a transcript or video the content is always a media narrative. */
  lemma NoPrimaryMeansNarrative(c: SourceSignals)
    requires !StrongPrimary(c)
    ensures ClassifyNewsSource(c).role == MediaNarrative
  {
  }

  const QUOTE_WEIGHT: real := 0.25
  const SPIN_WEIGHT: real := 0.3
  const INTERVIEW_WEIGHT: real := 0.2
  const COVERAGE_WEIGHT: real := 0.15
  const DIVERGENCE_WEIGHT: real := 0.1

  /** The contribution of one optional component. */
  function Part(v: Option<real>, w: real): real
  {
    if v.Some? then v.value * w else 0.0
  }

  function Present(v: Option<real>): nat
  {
    if v.Some? then 1 else 0
  }

  function Factors(a: DistortionAnalysis): nat
  {
    Present(a.quote_integrity_score) + Present(a.headline_spin_score) + Present(a.interview_distortion_index)
    + Present(a.coverage_selectivity_bias) + Present(a.narrative_reality_divergence)
  }

  /** The weighted sum; quote integrity enters as its complement. */
  function WeightedDistortion(a: DistortionAnalysis): real
  {
    Part(if a.quote_integrity_score.Some? then Some(1.0 - a.quote_integrity_score.value) else None, QUOTE_WEIGHT)
    + Part(a.headline_spin_score, SPIN_WEIGHT)
    + Part(a.interview_distortion_index, INTERVIEW_WEIGHT)
    + Part(a.coverage_selectivity_bias, COVERAGE_WEIGHT)
    + Part(a.narrative_reality_divergence, DIVERGENCE_WEIGHT)
  }

  function Min1(x: real): real
  {
    if x < 1.0 then x else 1.0
  }

  function DistortionScoreOf(a: DistortionAnalysis): real
  {
    if Factors(a) > 0 then Min1(WeightedDistortion(a)) else 0.0
  }

  /** computeDistortionScore: each present component adds its weighted share and counts as a factor. */
  method ComputeDistortionScore(a: DistortionAnalysis) returns (score: real)
    ensures score == DistortionScoreOf(a)
  {
    var distortion := 0.0;
    var factors := 0;
    if a.quote_integrity_score.Some? {
      distortion := distortion + (1.0 - a.quote_integrity_score.value) * 0.25;
      factors := factors + 1;
    }
    if a.headline_spin_score.Some? {
      distortion := distortion + a.headline_spin_score.value * 0.3;
      factors := factors + 1;
    }
    if a.interview_distortion_index.Some? {
      distortion := distortion + a.interview_distortion_index.value * 0.2;
      factors := factors + 1;
    }
    if a.coverage_selectivity_bias.Some? {
      distortion := distortion + a.coverage_selectivity_bias.value * 0.15;
      factors := factors + 1;
    }
    if a.narrative_reality_divergence.Some? {
      distortion := distortion + a.narrative_reality_divergence.value * 0.1;
      factors := factors + 1;
    }
    score := if factors > 0 then Min1(distortion) else 0.0;
  }

  predicate UnitOrAbsent(v: Option<real>)
  {
    v.None? || 0.0 <= v.value <= 1.0
  }

  predicate UnitComponents(a: DistortionAnalysis)
  {
    UnitOrAbsent(a.quote_integrity_score) && UnitOrAbsent(a.interview_distortion_index)
    && UnitOrAbsent(a.headline_spin_score) && UnitOrAbsent(a.coverage_selectivity_bias)
    && UnitOrAbsent(a.narrative_reality_divergence)
  }

  /**
    The score is 0 with no component present and never exceeds 1; as the
    weights sum to 1, components in [0,1] give a score in [0,1] that the
    cap never touches.
   */
  lemma DistortionScoreBounds(a: DistortionAnalysis)
    ensures Factors(a) == 0 ==> DistortionScoreOf(a) == 0.0
    ensures DistortionScoreOf(a) <= 1.0
    ensures UnitComponents(a) ==> 0.0 <= DistortionScoreOf(a) <= 1.0
    ensures UnitComponents(a) && Factors(a) > 0 ==> DistortionScoreOf(a) == WeightedDistortion(a)
  {
    assert QUOTE_WEIGHT + SPIN_WEIGHT + INTERVIEW_WEIGHT + COVERAGE_WEIGHT + DIVERGENCE_WEIGHT == 1.0;
  }

  /** Raising the headline spin never lowers the score. */
  lemma SpinMonotone(a: DistortionAnalysis, s1: real, s2: real)
    requires s1 <= s2
    ensures DistortionScoreOf(a.(headline_spin_score := Some(s1))) <= DistortionScoreOf(a.(headline_spin_score := Some(s2)))
  {
  }

  /** Lower quote integrity never lowers the score. */
  lemma IntegrityAntitone(a: DistortionAnalysis, q1: real, q2: real)
    requires q1 <= q2
    ensures DistortionScoreOf(a.(quote_integrity_score := Some(q2))) <= DistortionScoreOf(a.(quote_integrity_score := Some(q1)))
  {
  }
}
