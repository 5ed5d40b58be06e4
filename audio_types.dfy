/**
  Records shared by the audio discernment pipeline and its clients: segments,
  conversation turns, diagnostic ("hmm") details, the feature set, the
  enumerated quality flags with their descriptions, the fixed diagnostic
  registry, the client's default settings and the assembled result.
 */
module AudioTypes {

  /** One time-bounded, speaker-tagged piece of transcript. */
  datatype Segment = Segment(
    start_ms: int,
    end_ms: int,
    speaker_id: string,
    text: string,
    confidence: real,
    overlap: bool)

  /** A maximal run of same-speaker segments merged into one record. */
  datatype Turn = Turn(speaker: string, start_ms: int, end_ms: int, text: string)

  datatype Severity = Low | Med | High

  /** The triple the registry stores for each diagnostic code. */
  datatype HmmEntry = HmmEntry(severity: Severity, note: string, suggested_fix: string)

  datatype HmmDetail = HmmDetail(code: string, severity: Severity, note: string, suggested_fix: string)

  datatype Features = Features(
    speech_rate_wpm: int,
    pause_density: real,
    volume_variance: real,
    turn_taking_balance: real,
    avg_turn_duration_ms: int)

  datatype QualityFlag =
    | HighNoise
    | LowVolume
    | OverlappingSpeech
    | LowConfidence
    | TooFast
    | LanguageUncertain
    | ShortDuration
    | SingleSpeaker

  /** The wire name of a quality flag. */
  function FlagName(f: QualityFlag): string
  {
    match f
    case HighNoise => "high_noise"
    case LowVolume => "low_volume"
    case OverlappingSpeech => "overlapping_speech"
    case LowConfidence => "low_confidence"
    case TooFast => "too_fast"
    case LanguageUncertain => "language_uncertain"
    case ShortDuration => "short_duration"
    case SingleSpeaker => "single_speaker"
  }

  /** QUALITY_FLAG_DESCRIPTIONS: one description for each of the eight flags. */
  function FlagDescription(f: QualityFlag): (d: string)
    ensures d != ""
  {
    match f
    case HighNoise => "Background noise detected that may affect accuracy"
    case LowVolume => "Audio volume is too low in some segments"
    case OverlappingSpeech => "Multiple speakers talking simultaneously"
    case LowConfidence => "Transcription confidence is below threshold"
    case TooFast => "Speech rate is unusually fast"
    case LanguageUncertain => "Language detection is uncertain"
    case ShortDuration => "Recording is very short"
    case SingleSpeaker => "Only one speaker detected"
  }

  /** The eight flags have eight distinct wire names and eight distinct descriptions. */
  lemma FlagTablesInjective(a: QualityFlag, b: QualityFlag)
    ensures FlagName(a) == FlagName(b) ==> a == b
    ensures FlagDescription(a) == FlagDescription(b) ==> a == b
  {
    if a != b {
      match a
      case HighNoise => assert FlagName(a)[0] == 'h';
      case LowVolume => assert FlagName(a)[4] == 'v';
      case OverlappingSpeech => assert FlagName(a)[0] == 'o';
      case LowConfidence => assert FlagName(a)[4] == 'c';
      case TooFast => assert FlagName(a)[0] == 't';
      case LanguageUncertain => assert FlagName(a)[1] == 'a';
      case ShortDuration => assert FlagName(a)[1] == 'h';
      case SingleSpeaker => assert FlagName(a)[1] == 'i';
    }
  }

  const LOW_CONFIDENCE_CODE: string := "low_confidence"
  const OVERLAP_CODE: string := "overlap_detected"
  const DIARIZATION_CODE: string := "diarization_uncertain"
  const SINGLE_SPEAKER_CODE: string := "single_speaker_detected"
  const TOO_FAST_CODE: string := "speech_too_fast"

  /** HMM_CODES: the one registry of diagnostic codes. */
  const HMM_CODES: map<string, HmmEntry> := map[
    LOW_CONFIDENCE_CODE := HmmEntry(
      Med,
      "Transcription confidence is below 70%",
      "Re-record in a quieter environment or speak more clearly"),
    OVERLAP_CODE := HmmEntry(
      High,
      "Multiple speakers talking at the same time",
      "Edit segments manually or re-record with clearer turn-taking"),
    DIARIZATION_CODE := HmmEntry(
      Med,
      "Speaker identification is uncertain",
      "Manually rename speakers after reviewing the transcript"),
    SINGLE_SPEAKER_CODE := HmmEntry(
      Low,
      "Only one speaker was detected",
      "If this is a conversation, check audio quality or re-record"),
    TOO_FAST_CODE := HmmEntry(
      Low,
      "Speaking rate exceeds 180 words per minute",
      "Consider asking speakers to slow down in future recordings")
  ]

  /** The registry has exactly five codes, with the severities the composer relies on. */
  lemma HmmCodesRegistry()
    ensures HMM_CODES.Keys == {LOW_CONFIDENCE_CODE, OVERLAP_CODE, DIARIZATION_CODE, SINGLE_SPEAKER_CODE, TOO_FAST_CODE}
    ensures |HMM_CODES| == 5
    ensures HMM_CODES[OVERLAP_CODE].severity == High
    ensures HMM_CODES[LOW_CONFIDENCE_CODE].severity == Med && HMM_CODES[DIARIZATION_CODE].severity == Med
    ensures HMM_CODES[SINGLE_SPEAKER_CODE].severity == Low && HMM_CODES[TOO_FAST_CODE].severity == Low
  {
    var ks := {LOW_CONFIDENCE_CODE, OVERLAP_CODE, DIARIZATION_CODE, SINGLE_SPEAKER_CODE, TOO_FAST_CODE};
    assert LOW_CONFIDENCE_CODE[0] == 'l' && OVERLAP_CODE[0] == 'o' && DIARIZATION_CODE[0] == 'd';
    assert SINGLE_SPEAKER_CODE[0] == 's' && TOO_FAST_CODE[0] == 's';
    assert SINGLE_SPEAKER_CODE[1] == 'i' && TOO_FAST_CODE[1] == 'p';
    assert |ks| == 5;
  }

  /** A detail spreads the registry entry of its code (`{ code, ...HMM_CODES[code] }`). */
  function Detail(code: string): (d: HmmDetail)
    requires code in HMM_CODES
    ensures d.code == code && code in HMM_CODES
    ensures HmmEntry(d.severity, d.note, d.suggested_fix) == HMM_CODES[code]
  {
    var e := HMM_CODES[code];
    HmmDetail(code, e.severity, e.note, e.suggested_fix)
  }

  datatype ModelChoice = Fast | Accurate

  datatype DiscernmentSettings = DiscernmentSettings(
    diarize: bool,
    language: string,
    model: ModelChoice,
    keepRawAudio: bool,
    uploadToServer: bool,
    deleteAfterTranscript: bool)

  const DEFAULT_SETTINGS: DiscernmentSettings := DiscernmentSettings(
    diarize := true,
    language := "en",
    model := Accurate,
    keepRawAudio := true,
    uploadToServer := false,
    deleteAfterTranscript := false)

  datatype Stored = StoredNone | StoredLocal | StoredServer

  datatype AudioInfo = AudioInfo(format: string, duration_ms: int, stored: Stored)

  datatype DiscernmentResult = DiscernmentResult(
    artifact_id: string,
    created_at: string,
    audio: AudioInfo,
    transcript_full: string,
    segments: seq<Segment>,
    conversation_turns: seq<Turn>,
    features: Features,
    quality_flags: seq<QualityFlag>,
    hmm: bool,
    hmm_details: seq<HmmDetail>,
    edcm_input_ready: bool)

  /** The distinct speaker ids of a segment list (`new Set(segments.map(s => s.speaker_id))`). */
  function SpeakerSet(segments: seq<Segment>): set<string>
  {
    set i | 0 <= i < |segments| :: segments[i].speaker_id
  }

  /** Appending a segment adds exactly its speaker. */
  lemma SegmentSpeakersSnoc(segs: seq<Segment>, x: Segment)
    ensures SpeakerSet(segs + [x]) == SpeakerSet(segs) + {x.speaker_id}
  {
    var r := segs + [x];
    forall sp | sp in SpeakerSet(r) ensures sp in SpeakerSet(segs) + {x.speaker_id} {
      var i :| 0 <= i < |r| && r[i].speaker_id == sp;
      if i < |segs| {
        assert segs[i] == r[i];
      }
    }
    forall sp | sp in SpeakerSet(segs) ensures sp in SpeakerSet(r) {
      var i :| 0 <= i < |segs| && segs[i].speaker_id == sp;
      assert r[i] == segs[i];
    }
    assert r[|segs|] == x;
  }

  /** The distinct speakers of a turn list. */
  function TurnSpeakerSet(turns: seq<Turn>): set<string>
  {
    set i | 0 <= i < |turns| :: turns[i].speaker
  }
}
