/**
  detectQualityFlags and buildHmmDetails of server/audio-discernment.ts: an
  ordered rule table that turns the segments, the features and the duration
  into quality flags, and the composer that turns the flags (and the mean
  confidence) into diagnostic details drawn from the code registry.
 */
module QualityAssessor {
  import opened AudioTypes

  /** The running sum of the segment confidences (`reduce((sum, s) => sum + s.confidence, 0)`). */
  function SumConfidence(segs: seq<Segment>): real
    decreases |segs|
  {
    if segs == [] then 0.0 else SumConfidence(segs[..|segs| - 1]) + segs[|segs| - 1].confidence
  }

  /** The mean confidence, or 0.8 with no segments. */
  function AvgConfidence(segs: seq<Segment>): real
  {
    if |segs| > 0 then SumConfidence(segs) / |segs| as real else 0.8
  }

  /** `segments.some(s => s.overlap)`. */
  predicate HasOverlap(segs: seq<Segment>)
  {
    exists i :: 0 <= i < |segs| && segs[i].overlap
  }

  /** The position of a flag in the rule table; flags the table never raises come last. */
  function FlagRank(f: QualityFlag): nat
  {
    match f
    case LowConfidence => 0
    case TooFast => 1
    case ShortDuration => 2
    case SingleSpeaker => 3
    case OverlappingSpeech => 4
    case _ => 5
  }

  /** Each flag precedes the next in table order, so none is repeated. */
  ghost predicate InTableOrder(flags: seq<QualityFlag>)
  {
    forall i, j :: 0 <= i < j < |flags| ==> FlagRank(flags[i]) < FlagRank(flags[j])
  }

  /** One rule of the table: push the flag when the condition holds. */
  function Push(flags: seq<QualityFlag>, condition: bool, f: QualityFlag): (r: seq<QualityFlag>)
    ensures forall g :: g in r <==> g in flags || (condition && g == f)
  {
    if condition then flags + [f] else flags
  }

  /** A push keeps table order when every flag already present ranks below the new one. */
  lemma PushInOrder(flags: seq<QualityFlag>, condition: bool, f: QualityFlag)
    requires InTableOrder(flags)
    requires forall g :: g in flags ==> FlagRank(g) < FlagRank(f)
    ensures InTableOrder(Push(flags, condition, f))
  {
    if condition {
      var r := flags + [f];
      forall i, j | 0 <= i < j < |r| ensures FlagRank(r[i]) < FlagRank(r[j]) {
        assert r[i] in flags;
        if j < |flags| { assert r[j] == flags[j]; }
      }
    }
  }

  /** The flags the rule table raises, in table order. */
  function QualityFlagsOf(segs: seq<Segment>, features: Features, durationMs: int): seq<QualityFlag>
  {
    var r1 := Push([], AvgConfidence(segs) < 0.7, LowConfidence);
    var r2 := Push(r1, features.speech_rate_wpm > 180, TooFast);
    var r3 := Push(r2, durationMs < 5000, ShortDuration);
    var r4 := Push(r3, |SpeakerSet(segs)| == 1, SingleSpeaker);
    Push(r4, HasOverlap(segs), OverlappingSpeech)
  }

  /** Each flag is raised exactly when its rule holds, and only the five table flags occur. */
  lemma QualityFlagsRaised(segs: seq<Segment>, features: Features, durationMs: int)
    ensures var r := QualityFlagsOf(segs, features, durationMs);
      && (LowConfidence in r <==> AvgConfidence(segs) < 0.7)
      && (TooFast in r <==> features.speech_rate_wpm > 180)
      && (ShortDuration in r <==> durationMs < 5000)
      && (SingleSpeaker in r <==> |SpeakerSet(segs)| == 1)
      && (OverlappingSpeech in r <==> HasOverlap(segs))
      && (forall f :: f in r ==> FlagRank(f) < 5)
  {
  }

  /** The flags come in table order, so none is repeated. */
  lemma QualityFlagsOrdered(segs: seq<Segment>, features: Features, durationMs: int)
    ensures InTableOrder(QualityFlagsOf(segs, features, durationMs))
  {
    var r1 := Push([], AvgConfidence(segs) < 0.7, LowConfidence);
    var r2 := Push(r1, features.speech_rate_wpm > 180, TooFast);
    var r3 := Push(r2, durationMs < 5000, ShortDuration);
    var r4 := Push(r3, |SpeakerSet(segs)| == 1, SingleSpeaker);
    PushInOrder([], AvgConfidence(segs) < 0.7, LowConfidence);
    PushInOrder(r1, features.speech_rate_wpm > 180, TooFast);
    PushInOrder(r2, durationMs < 5000, ShortDuration);
    PushInOrder(r3, |SpeakerSet(segs)| == 1, SingleSpeaker);
    PushInOrder(r4, HasOverlap(segs), OverlappingSpeech);
  }

  /** detectQualityFlags: the rules checked one after the other, each pushing its flag. */
  method DetectQualityFlags(segments: seq<Segment>, features: Features, durationMs: int)
    returns (flags: seq<QualityFlag>)
    ensures flags == QualityFlagsOf(segments, features, durationMs)
  {
    flags := [];
    var avgConfidence := AvgConfidence(segments);
    flags := Push(flags, avgConfidence < 0.7, LowConfidence);
    flags := Push(flags, features.speech_rate_wpm > 180, TooFast);
    flags := Push(flags, durationMs < 5000, ShortDuration);
    var speakers := SpeakerSet(segments);
    flags := Push(flags, |speakers| == 1, SingleSpeaker);
    var hasOverlap := HasOverlap(segments);
    flags := Push(flags, hasOverlap, OverlappingSpeech);
  }

  /** With no segments the mean confidence is the default 0.8, so only the duration and rate rules can fire. */
  lemma NoSegmentsFlags(features: Features, durationMs: int)
    ensures var r := QualityFlagsOf([], features, durationMs);
      LowConfidence !in r && SingleSpeaker !in r && OverlappingSpeech !in r
  {
    assert SpeakerSet([]) == {};
  }

  /** The position of a diagnostic code in the composer's order. */
  function CodeRank(code: string): nat
  {
    if code == LOW_CONFIDENCE_CODE then 0
    else if code == OVERLAP_CODE then 1
    else if code == SINGLE_SPEAKER_CODE then 2
    else if code == TOO_FAST_CODE then 3
    else if code == DIARIZATION_CODE then 4
    else 5
  }

  /** The five codes have the five ranks, so they are distinct, and each is in the registry. */
  lemma CodeRanks()
    ensures CodeRank(LOW_CONFIDENCE_CODE) == 0 && CodeRank(OVERLAP_CODE) == 1
    ensures CodeRank(SINGLE_SPEAKER_CODE) == 2 && CodeRank(TOO_FAST_CODE) == 3
    ensures CodeRank(DIARIZATION_CODE) == 4
    ensures LOW_CONFIDENCE_CODE in HMM_CODES && OVERLAP_CODE in HMM_CODES && SINGLE_SPEAKER_CODE in HMM_CODES
    ensures TOO_FAST_CODE in HMM_CODES && DIARIZATION_CODE in HMM_CODES
  {
    assert LOW_CONFIDENCE_CODE[0] == 'l' && OVERLAP_CODE[0] == 'o' && DIARIZATION_CODE[0] == 'd';
    assert SINGLE_SPEAKER_CODE[1] == 'i' && TOO_FAST_CODE[1] == 'p';
  }

  ghost predicate CodesInOrder(details: seq<HmmDetail>)
  {
    forall i, j :: 0 <= i < j < |details| ==> CodeRank(details[i].code) < CodeRank(details[j].code)
  }

  /** Whether some detail carries the code. */
  predicate HasCode(details: seq<HmmDetail>, code: string)
  {
    exists i :: 0 <= i < |details| && details[i].code == code
  }

  /** One step of the composer: push the registry detail of the code when the condition holds. */
  function AddDetail(details: seq<HmmDetail>, condition: bool, code: string): (r: seq<HmmDetail>)
    requires code in HMM_CODES
    ensures forall c :: HasCode(r, c) <==> HasCode(details, c) || (condition && c == code)
  {
    if condition then
      var r := details + [Detail(code)];
      assert forall c :: HasCode(r, c) ==> HasCode(details, c) || c == code by {
        forall c | HasCode(r, c) ensures HasCode(details, c) || c == code {
          var i :| 0 <= i < |r| && r[i].code == c;
          if i < |details| { assert details[i].code == c; }
        }
      }
      assert forall c :: HasCode(details, c) ==> HasCode(r, c) by {
        forall c | HasCode(details, c) ensures HasCode(r, c) {
          var i :| 0 <= i < |details| && details[i].code == c;
          assert r[i].code == c;
        }
      }
      assert r[|details|].code == code;
      r
    else details
  }

  /** Every detail is its code's registry entry. */
  ghost predicate FromRegistry(details: seq<HmmDetail>)
  {
    forall i :: 0 <= i < |details| ==> details[i].code in HMM_CODES && details[i] == Detail(details[i].code)
  }

  lemma AddDetailKeeps(details: seq<HmmDetail>, condition: bool, code: string)
    requires code in HMM_CODES
    requires FromRegistry(details) && CodesInOrder(details)
    requires forall i :: 0 <= i < |details| ==> CodeRank(details[i].code) < CodeRank(code)
    ensures FromRegistry(AddDetail(details, condition, code)) && CodesInOrder(AddDetail(details, condition, code))
    ensures var r := AddDetail(details, condition, code);
      forall i :: 0 <= i < |r| ==> CodeRank(r[i].code) <= CodeRank(code)
  {
    if condition {
      var r := details + [Detail(code)];
      forall i, j | 0 <= i < j < |r| ensures CodeRank(r[i].code) < CodeRank(r[j].code) {
        assert r[i] == details[i];
        if j < |details| { assert r[j] == details[j]; }
      }
    }
  }

  /** The details the composer produces, in its fixed order. */
  function HmmDetailsOf(flags: seq<QualityFlag>, segs: seq<Segment>): seq<HmmDetail>
  {
    CodeRanks();
    var d1 := AddDetail([], LowConfidence in flags, LOW_CONFIDENCE_CODE);
    var d2 := AddDetail(d1, OverlappingSpeech in flags, OVERLAP_CODE);
    var d3 := AddDetail(d2, SingleSpeaker in flags, SINGLE_SPEAKER_CODE);
    var d4 := AddDetail(d3, TooFast in flags, TOO_FAST_CODE);
    AddDetail(d4, AvgConfidence(segs) < 0.6, DIARIZATION_CODE)
  }

  /**
    Each code is present exactly when its flag was raised (diarization: when
    the mean confidence is below 0.6); every detail is the registry entry of
    its code and the codes come in the composer's order.
   */
  lemma HmmDetailsMeaning(flags: seq<QualityFlag>, segs: seq<Segment>)
    ensures var r := HmmDetailsOf(flags, segs);
      && (HasCode(r, LOW_CONFIDENCE_CODE) <==> LowConfidence in flags)
      && (HasCode(r, OVERLAP_CODE) <==> OverlappingSpeech in flags)
      && (HasCode(r, SINGLE_SPEAKER_CODE) <==> SingleSpeaker in flags)
      && (HasCode(r, TOO_FAST_CODE) <==> TooFast in flags)
      && (HasCode(r, DIARIZATION_CODE) <==> AvgConfidence(segs) < 0.6)
  {
    CodeRanks();
  }

  lemma HmmDetailsRegistryOrder(flags: seq<QualityFlag>, segs: seq<Segment>)
    ensures FromRegistry(HmmDetailsOf(flags, segs)) && CodesInOrder(HmmDetailsOf(flags, segs))
  {
    CodeRanks();
    var d1 := AddDetail([], LowConfidence in flags, LOW_CONFIDENCE_CODE);
    var d2 := AddDetail(d1, OverlappingSpeech in flags, OVERLAP_CODE);
    var d3 := AddDetail(d2, SingleSpeaker in flags, SINGLE_SPEAKER_CODE);
    var d4 := AddDetail(d3, TooFast in flags, TOO_FAST_CODE);
    AddDetailKeeps([], LowConfidence in flags, LOW_CONFIDENCE_CODE);
    AddDetailKeeps(d1, OverlappingSpeech in flags, OVERLAP_CODE);
    AddDetailKeeps(d2, SingleSpeaker in flags, SINGLE_SPEAKER_CODE);
    AddDetailKeeps(d3, TooFast in flags, TOO_FAST_CODE);
    AddDetailKeeps(d4, AvgConfidence(segs) < 0.6, DIARIZATION_CODE);
  }

  /** buildHmmDetails: the composer's steps in order, and `hmm` set when any detail was produced. */
  method BuildHmmDetails(qualityFlags: seq<QualityFlag>, segments: seq<Segment>)
    returns (hmm: bool, hmmDetails: seq<HmmDetail>)
    ensures hmmDetails == HmmDetailsOf(qualityFlags, segments)
    ensures hmm <==> hmmDetails != []
  {
    CodeRanks();
    hmmDetails := [];
    hmmDetails := AddDetail(hmmDetails, LowConfidence in qualityFlags, LOW_CONFIDENCE_CODE);
    hmmDetails := AddDetail(hmmDetails, OverlappingSpeech in qualityFlags, OVERLAP_CODE);
    hmmDetails := AddDetail(hmmDetails, SingleSpeaker in qualityFlags, SINGLE_SPEAKER_CODE);
    hmmDetails := AddDetail(hmmDetails, TooFast in qualityFlags, TOO_FAST_CODE);
    var avgConfidence := AvgConfidence(segments);
    hmmDetails := AddDetail(hmmDetails, avgConfidence < 0.6, DIARIZATION_CODE);
    hmm := |hmmDetails| > 0;
  }

  /** A list is empty exactly when it carries none of the five codes. */
  lemma EmptyIffNoCode(r: seq<HmmDetail>)
    requires FromRegistry(r)
    ensures r == [] <==>
      !(HasCode(r, LOW_CONFIDENCE_CODE) || HasCode(r, OVERLAP_CODE)
        || HasCode(r, SINGLE_SPEAKER_CODE) || HasCode(r, TOO_FAST_CODE) || HasCode(r, DIARIZATION_CODE))
  {
    if r != [] {
      HmmCodesRegistry();
      assert r[0].code in HMM_CODES.Keys;
    }
  }

  /**
    Over the flags of the rule table: a diarization detail always comes with
    a low-confidence detail, a short recording alone produces no detail, and
    the details are non-empty exactly when confidence is below 0.7, the rate
    above 180, a single speaker was found or segments overlap.
   */
  lemma DiagnosticsOfRuleTable(segs: seq<Segment>, features: Features, durationMs: int)
    ensures var r := HmmDetailsOf(QualityFlagsOf(segs, features, durationMs), segs);
      && (HasCode(r, DIARIZATION_CODE) ==> HasCode(r, LOW_CONFIDENCE_CODE))
      && (r != [] <==>
            (AvgConfidence(segs) < 0.7 || features.speech_rate_wpm > 180
             || |SpeakerSet(segs)| == 1 || HasOverlap(segs)))
  {
    var flags := QualityFlagsOf(segs, features, durationMs);
    QualityFlagsRaised(segs, features, durationMs);
    HmmDetailsMeaning(flags, segs);
    HmmDetailsRegistryOrder(flags, segs);
    EmptyIffNoCode(HmmDetailsOf(flags, segs));
  }

  /** The short-duration flag has no detail of its own. */
  lemma ShortDurationHasNoDetail(segs: seq<Segment>)
    requires AvgConfidence(segs) >= 0.6
    ensures HmmDetailsOf([ShortDuration], segs) == []
  {
  }
}
