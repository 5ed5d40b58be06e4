/**
  The audio-to-EDCM adaptor (client/src/edcm/audio-adaptor.ts): the gate
  that hands a ready discernment result to the analyser, the request it
  would make of the text analyser, and the projection lines derived from the
  features and the diagnostic details.
 */
module AudioAdaptor {
  import opened Optional
  import opened AudioTypes
  import opened AudioSegmenter
  import opened TurnBuilder
  import opened QualityAssessor
  import opened AudioDiscernment

  /** EDCMInputFromAudio. */
  datatype EdcmInput = EdcmInput(text: string, turns: seq<Turn>, features: Features, speakerCount: nat)

  /** convertAudioResultToEDCMInput: nothing unless the result is ready. */
  function ConvertAudioResult(result: DiscernmentResult): (r: Option<EdcmInput>)
    ensures r.None? <==> !result.edcm_input_ready
    ensures r.Some? ==> r.value.text == result.transcript_full && r.value.turns == result.conversation_turns
    ensures r.Some? ==> r.value.features == result.features
    ensures r.Some? ==> r.value.speakerCount == |TurnSpeakerSet(result.conversation_turns)|
  {
    if !result.edcm_input_ready then None
    else
      Some(EdcmInput(
        text := result.transcript_full,
        turns := result.conversation_turns,
        features := result.features,
        speakerCount := |TurnSpeakerSet(result.conversation_turns)|))
  }

  datatype Mode = Dating | Politics | Lab

  /** The audio features block handed to the text analyser, pitch variance fixed at one half. */
  datatype AudioFeatureHints = AudioFeatureHints(speechRate: int, pauseDensity: real, volumeVariance: real, pitchVariance: real)

  /** The call analyzeAudioForEDCM makes of the text analyser. */
  datatype AnalyzeTextRequest = AnalyzeTextRequest(text: string, mode: Mode, audioFeatures: AudioFeatureHints)

  /**
    analyzeAudioForEDCM up to the text analyser, which is not part of this
    model: the request it would issue, or nothing when the result is not ready.
   */
  function AnalyzeAudioRequest(result: DiscernmentResult, mode: Mode): (r: Option<AnalyzeTextRequest>)
    ensures r.None? <==> !result.edcm_input_ready
    ensures r.Some? ==> r.value.text == result.transcript_full && r.value.mode == mode
    ensures r.Some? ==> r.value.audioFeatures == AudioFeatureHints(
      result.features.speech_rate_wpm, result.features.pause_density, result.features.volume_variance, 0.5)
  {
    match ConvertAudioResult(result)
    case None => None
    case Some(input) =>
      Some(AnalyzeTextRequest(input.text, mode, AudioFeatureHints(
        speechRate := input.features.speech_rate_wpm,
        pauseDensity := input.features.pause_density,
        volumeVariance := input.features.volume_variance,
        pitchVariance := 0.5)))
  }

  /** The mode analyzeAudioForEDCM uses when its caller gives none. */
  const DEFAULT_MODE: Mode := Dating

  /** analyzeAudioForEDCM called without a mode: a dating-mode request, or nothing when not ready. */
  function AnalyzeAudioRequestDefault(result: DiscernmentResult): (r: Option<AnalyzeTextRequest>)
    ensures r.None? <==> !result.edcm_input_ready
    ensures r.Some? ==> r.value.text == result.transcript_full && r.value.mode == Dating
  {
    AnalyzeAudioRequest(result, DEFAULT_MODE)
  }

  const RAPID_LINE: string := "Rapid speech rate detected - may indicate urgency or pressure"
  const SKEWED_LINE: string := "Conversation balance is skewed - one speaker dominates"
  const LOW_PAUSE_LINE: string := "Low pause density - limited space for reflection"
  const DATING_LINE: string := "Pattern: One person speaking significantly more than the other"
  const POLITICS_LINE: string := "Rapid delivery may reduce listener processing time"

  /** One "Attention:" line per high-severity detail, in detail order. */
  function AttentionLines(details: seq<HmmDetail>): (r: seq<string>)
    ensures |r| <= |details|
    decreases |details|
  {
    if details == [] then []
    else
      var last := details[|details| - 1];
      AttentionLines(details[..|details| - 1]) + (if last.severity == High then ["Attention: " + last.note] else [])
  }

  /** The three feature rules, in order. */
  function FeatureLines(f: Features): seq<string>
  {
    (if f.speech_rate_wpm > 160 then [RAPID_LINE] else [])
    + (if f.turn_taking_balance < 0.3 || f.turn_taking_balance > 0.7 then [SKEWED_LINE] else [])
    + (if f.pause_density < 0.1 then [LOW_PAUSE_LINE] else [])
  }

  /** The mode rule: dating and politics each have one, lab has none. */
  function ModeLines(f: Features, mode: Mode): seq<string>
  {
    match mode
    case Dating => if f.turn_taking_balance < 0.35 then [DATING_LINE] else []
    case Politics => if f.speech_rate_wpm > 170 then [POLITICS_LINE] else []
    case Lab => []
  }

  /** The projection lines: feature rules, attention lines when hmm is set, then the mode rule. */
  function ProjectionsOf(result: DiscernmentResult, mode: Mode): seq<string>
  {
    FeatureLines(result.features)
    + (if result.hmm then AttentionLines(result.hmm_details) else [])
    + ModeLines(result.features, mode)
  }

  /** generateAudioBasedProjections: each rule pushes its line in turn. */
  method GenerateAudioBasedProjections(result: DiscernmentResult, mode: Mode) returns (projections: seq<string>)
    ensures projections == ProjectionsOf(result, mode)
  {
    var features := result.features;
    projections := PushFeatureLines(features);
    if result.hmm {
      projections := PushAttentionLines(projections, result.hmm_details);
    }
    projections := PushModeLines(projections, features, mode);
  }

  method PushFeatureLines(features: Features) returns (projections: seq<string>)
    ensures projections == FeatureLines(features)
  {
    projections := [];
    if features.speech_rate_wpm > 160 {
      projections := projections + [RAPID_LINE];
    }
    if features.turn_taking_balance < 0.3 || features.turn_taking_balance > 0.7 {
      projections := projections + [SKEWED_LINE];
    }
    if features.pause_density < 0.1 {
      projections := projections + [LOW_PAUSE_LINE];
    }
  }

  /** The loop over the details, pushing one line per high-severity detail. */
  method PushAttentionLines(start: seq<string>, details: seq<HmmDetail>) returns (projections: seq<string>)
    ensures projections == start + AttentionLines(details)
  {
    projections := start;
    for i := 0 to |details|
      invariant projections == start + AttentionLines(details[..i])
    {
      assert details[..i + 1][..i] == details[..i];
      if details[i].severity == High {
        projections := projections + ["Attention: " + details[i].note];
      }
    }
    assert details[..|details|] == details;
  }

  method PushModeLines(start: seq<string>, features: Features, mode: Mode) returns (projections: seq<string>)
    ensures projections == start + ModeLines(features, mode)
  {
    projections := start;
    if mode == Dating {
      if features.turn_taking_balance < 0.35 {
        projections := projections + [DATING_LINE];
      }
    }
    if mode == Politics {
      if features.speech_rate_wpm > 170 {
        projections := projections + [POLITICS_LINE];
      }
    }
  }

  /** Only the overlap code is high severity, so without it there is no attention line. */
  lemma {:induction false} AttentionOnlyForOverlap(details: seq<HmmDetail>)
    requires FromRegistry(details) && !HasCode(details, OVERLAP_CODE)
    ensures AttentionLines(details) == []
    decreases |details|
  {
    if details != [] {
      var init := details[..|details| - 1];
      var last := details[|details| - 1];
      assert FromRegistry(init) && !HasCode(init, OVERLAP_CODE) by {
        forall i | 0 <= i < |init| ensures init[i] == details[i] { }
      }
      AttentionOnlyForOverlap(init);
      HmmCodesRegistry();
      assert last.code in HMM_CODES.Keys && last.code != OVERLAP_CODE;
      assert last.severity == HMM_CODES[last.code].severity;
    }
  }

  /**
    A result of the batch pipeline never yields an attention line, since its
    segments never overlap: its projections are the feature rules followed by
    the mode rule.
   */
  lemma BatchProjections(options: DiscernmentOptions, reply: AudioClientReply, artifactId: string, createdAt: string,
                         draws: nat -> real, mode: Mode)
    requires forall k :: 0.0 <= draws(k) < 1.0
    ensures var r := Discern(options, reply, artifactId, createdAt, draws);
      ProjectionsOf(r, mode) == FeatureLines(r.features) + ModeLines(r.features, mode)
  {
    var r := Discern(options, reply, artifactId, createdAt, draws);
    var durationMs := EstimateDuration(reply.compatibleLength, reply.compatibleFormat);
    var transcript := TranscriptOf(reply);
    var speakers := SpeakersFor(Diarize(options), transcript);
    assert r.segments == Segments(transcript, durationMs, speakers, draws);
    BatchSegmentsClean(transcript, durationMs, speakers, draws);
    QualityFlagsRaised(r.segments, r.features, durationMs);
    HmmDetailsMeaning(r.quality_flags, r.segments);
    HmmDetailsRegistryOrder(r.quality_flags, r.segments);
    AttentionOnlyForOverlap(r.hmm_details);
  }

  /** The lab mode adds no line: its projections are a prefix of every mode's, at most one line shorter. */
  lemma LabIsPrefix(result: DiscernmentResult, mode: Mode)
    ensures var lab := ProjectionsOf(result, Lab);
      var other := ProjectionsOf(result, mode);
      other[..|lab|] == lab && |other| <= |lab| + 1
  {
  }

  /** A set of labels drawn from two has at most two members. */
  lemma AtMostTwo(labels: set<string>, a: string, b: string)
    requires labels <= {a, b}
    ensures |labels| <= 2
  {
    if a in labels && b in labels {
      assert labels == {a, b};
    } else if a in labels {
      assert labels == {a};
    } else if b in labels {
      assert labels == {b};
    } else {
      assert labels == {};
    }
  }

  /** The segments' speakers are among the labels. */
  lemma SpeakersAmongLabels(text: string, durationMs: nat, speakers: seq<string>, draws: nat -> real)
    requires |speakers| > 0
    requires forall k :: 0.0 <= draws(k) < 1.0
    ensures forall sp :: sp in SpeakerSet(Segments(text, durationMs, speakers, draws)) ==> sp in speakers
  {
    var segs := Segments(text, durationMs, speakers, draws);
    SegmentsTileDuration(text, durationMs, speakers, draws);
    forall sp | sp in SpeakerSet(segs) ensures sp in speakers {
      var i :| 0 <= i < |segs| && segs[i].speaker_id == sp;
      assert sp == speakers[i % |speakers|];
    }
  }

  /** A ready result of the batch pipeline always hands exactly two speakers to the analyser. */
  lemma ReadyInputHasTwoSpeakers(options: DiscernmentOptions, reply: AudioClientReply, artifactId: string,
                                 createdAt: string, draws: nat -> real)
    requires forall k :: 0.0 <= draws(k) < 1.0
    requires Discern(options, reply, artifactId, createdAt, draws).edcm_input_ready
    ensures var input := ConvertAudioResult(Discern(options, reply, artifactId, createdAt, draws));
      input.Some? && input.value.speakerCount == 2
  {
    var r := Discern(options, reply, artifactId, createdAt, draws);
    var durationMs := EstimateDuration(reply.compatibleLength, reply.compatibleFormat);
    var transcript := TranscriptOf(reply);
    var speakers := SpeakersFor(Diarize(options), transcript);
    var segs := r.segments;
    assert segs == Segments(transcript, durationMs, speakers, draws);
    ReadyIff(options, reply, artifactId, createdAt, draws);
    TurnsKeepSpeakers(segs);
    SpeakersAmongLabels(transcript, durationMs, speakers, draws);
    assert SpeakerSet(segs) <= {SPEAKER_A, SPEAKER_B};
    AtMostTwo(SpeakerSet(segs), SPEAKER_A, SPEAKER_B);
  }
}
