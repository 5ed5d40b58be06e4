# EDCM core, modelled in Dafny

EDCM turns conversations into review material. A conversation is pasted text,
a clipboard capture or an audio recording. It becomes speaker turns, quality
flags and "hmm" diagnostics, then per-mode projections and metrics. This
project models the deterministic parts of that pipeline and proves what they
promise. Each source component is one Dafny module:

- the audio-discernment pipeline (`audio_types.dfy`, `audio_segmenter.dfy`,
  `turn_builder.dfy`, `feature_extractor.dfy`, `quality_assessor.dfy`,
  `audio_discernment.dfy`):
  - a byte-rate duration estimate and a word-count speaker heuristic;
  - a sentence segmenter that shares the duration out evenly and assigns
    speakers round-robin;
  - a merge of same-speaker segments into turns;
  - feature arithmetic, an ordered quality-flag rule table and a diagnostic
    composer over the HMM code registry;
  - the readiness gate;
- the adaptor from audio results to EDCM input and its projection lines
  (`audio_adaptor.dfy`), and the live pace, balance and pause labels
  (`live_audio.dfy`);
- the text parsers:
  - `parseTextToTurns` of the assistant (`assistant_parser.dfy`);
  - `normalizeTurns` and `analyzeEDCM` of the client engine
    (`edcm_types.dfy`, `edcm_engine.dfy`);
- the canonical conversation record (`canonical.dfy`) and the weighted-score
  projections (`projections.dfy`);
- news ingestion:
  - source classification and the distortion score (`news_types.dfy`);
  - quote extraction, marker detection, headline and quote-integrity
    analysis, the processed record and its summary (`news_ingest.dfy`);
- the token statistics, risk arithmetic and text bar of the mobile analyser
  `EDCMlite.py` (`edcm_lite.dfy`);
- four small stateful stores:
  - the last-writer-wins session store (`sync_storage.dfy`);
  - the analytics settings and event store (`analytics.dfy`);
  - the clipboard capture buffer (`clipboard.dfy`);
  - the subscription flag store (`subscription.dfy`).

`text.dfy` holds the string helpers these share: JavaScript whitespace and
trimming, ASCII case mapping, `slice`, joining and lexicographic order.
`option.dfy` holds `Option`.

Code that works step by step is a `method` proved equal to a specification
function. This covers loops that push into arrays, the `Map` merge and the
cursor walk. Properties are then proved about that function. Stores whose
fields the source updates in place are classes, and their methods state the
new state through a function of the old one. Several inputs become
parameters:

- randomness: the `Math.random` placeholders become a stream of draws in
  [0, 1);
- clocks and UUIDs: supplied values;
- the audio client: a reply value that may carry a failed transcription;
- regular-expression scans: explicit recognisers, or the list of matches
  they produce.

Durations are integer milliseconds and ratios are exact `real`s.

## Model

| member | source | states |
|---|---|---|
| AudioSegmenter.Round | server/audio-discernment.ts:25 | `Math.round` lands within half a unit of its argument |
| AudioSegmenter.RoundMonotone | server/audio-discernment.ts:60-61 | rounding never reverses the order of two values |
| AudioSegmenter.BytesPerSecond | server/audio-discernment.ts:24 | 32000 bytes per second for "wav" and 16000 for any other format |
| AudioSegmenter.EstimateDuration | server/audio-discernment.ts:23-26 | duration is 0 for an empty buffer; otherwise it is `len/bps*1000` rounded |
| AudioSegmenter.EstimateDurationMonotone | server/audio-discernment.ts:23-26 | a longer buffer never has a shorter estimated duration |
| AudioSegmenter.WordCount | server/audio-discernment.ts:34-35 | splitting on whitespace runs always gives at least one word |
| AudioSegmenter.DetectSpeakers | server/audio-discernment.ts:28-40 | one label ("Speaker A") iff fewer than 20 words; otherwise exactly "Speaker A", "Speaker B"; never empty, never more than two |
| AudioSegmenter.UnitsShape | server/audio-discernment.ts:47 | every sentence match is non-terminal characters followed by terminal punctuation |
| AudioSegmenter.UnitsCover | server/audio-discernment.ts:47 | the matches, concatenated, are the text minus its leading punctuation and trailing unterminated tail |
| AudioSegmenter.Sentences | server/audio-discernment.ts:47 | the sentence list is the matches, or the whole text when there are none, so it is never empty |
| AudioSegmenter.SentencesBlankIff | server/audio-discernment.ts:47-54 | a blank text is its own single blank sentence; otherwise no sentence trims to empty |
| AudioSegmenter.SpanStartProduct | server/audio-discernment.ts:50-68 | the accumulated `currentTime` after k sentences is exactly k times the time per sentence |
| AudioSegmenter.SplitIntoSegments | server/audio-discernment.ts:42-72 | the loop produces exactly the segment list of the specification function |
| AudioSegmenter.LayOutSentences | server/audio-discernment.ts:52-69 | the sentence loop, skipping blank sentences and advancing the clock only on kept ones |
| AudioSegmenter.SegmentsOfStep | server/audio-discernment.ts:52-69 | one loop step either skips a blank sentence or appends the next segment |
| AudioSegmenter.SegmentsOfClosedForm | server/audio-discernment.ts:52-69 | with no blank sentences, segment i is the i-th sentence laid out at slot i |
| AudioSegmenter.NthSegmentFields | server/audio-discernment.ts:56-65 | segment i spans `[round(i·per), round((i+1)·per)]`, has speaker `speakers[i mod n]`, no overlap and confidence in [0.75, 0.95) |
| AudioSegmenter.SpansTile | server/audio-discernment.ts:60-61 | the rounded spans start at 0, are non-decreasing and each end equals the next start |
| AudioSegmenter.SegmentsCount | server/audio-discernment.ts:47-56 | no segments iff the transcript is blank; otherwise one segment per sentence |
| AudioSegmenter.SegmentsFields | server/audio-discernment.ts:47-69 | every segment of a non-blank transcript has its proportional span, its round-robin speaker, no overlap and confidence in [0.75, 0.95) |
| AudioSegmenter.SegmentsTileDuration | server/audio-discernment.ts:47-69 | the segments tile `[0, d]`: first start 0, last end d, each end the next start |
| TurnBuilder.AddSegment | server/audio-discernment.ts:80-94 | a segment either extends the last turn or opens a new one; earlier turns are untouched |
| TurnBuilder.TurnsOf | server/audio-discernment.ts:74-102 | no turns iff no segments; turns ≤ segments; the last turn has the last segment's speaker and end |
| TurnBuilder.BuildConversationTurns | server/audio-discernment.ts:74-102 | the loop with its open current turn computes exactly `TurnsOf` |
| TurnBuilder.TurnsAreRuns | server/audio-discernment.ts:74-102 | boundaries 0 = b0 < b1 < … < bk = the number of segments cut the segments into runs: turn j has the one speaker of every segment in its run, the run's first start, its last end and its texts joined by single spaces, and the speaker changes at every inner boundary |
| TurnBuilder.TurnsOfSnoc | server/audio-discernment.ts:80-95 | the turns of a longer prefix are the previous turns plus one `AddSegment` step |
| TurnBuilder.TurnsAlternate | server/audio-discernment.ts:81 | adjacent turns always have different speakers |
| TurnBuilder.TurnsKeepSpeakers | server/audio-discernment.ts:86 | the turns' speakers are exactly the segments' speakers |
| TurnBuilder.TurnsKeepText | server/audio-discernment.ts:89-93 | the turn texts, space-joined, equal the segment texts, space-joined |
| TurnBuilder.TurnsOfAlternatingSegments | server/audio-discernment.ts:81-90 | when every segment changes speaker, each segment becomes its own turn |
| TurnBuilder.MergeIdempotent | server/audio-discernment.ts:74-102 | merging the turns again, read back as segments, gives the same turns |
| TurnBuilder.TurnsKeepStart | server/audio-discernment.ts:87 | the first turn starts where the first segment starts |
| TurnBuilder.TurnsKeepContiguity | server/audio-discernment.ts:87-92 | contiguous segments give contiguous turns |
| FeatureExtractor.SpeechRate | server/audio-discernment.ts:109-111 | wpm is 120 for zero duration, otherwise `words/(d/60000)` rounded |
| FeatureExtractor.SpeechRateMonotone | server/audio-discernment.ts:111 | more words never lower the speech rate |
| FeatureExtractor.CountSpeakers | server/audio-discernment.ts:113-116 | the counting loop builds the insertion-ordered speaker tally |
| FeatureExtractor.TallyCounts | server/audio-discernment.ts:113-116 | the tally has distinct keys, exactly the speakers present, each mapped to its number of segments |
| FeatureExtractor.TallyTotal | server/audio-discernment.ts:117-118 | the counts sum to the number of segments and are all positive |
| FeatureExtractor.MaxVersusSum | server/audio-discernment.ts:119-120 | the largest count is between 1 and the total, and equals the total iff there is one speaker |
| FeatureExtractor.BalanceRange | server/audio-discernment.ts:117-120 | balance is 0.5 with no segments, otherwise in [0, 1), and 0 iff a single speaker |
| FeatureExtractor.AvgTurnDuration | server/audio-discernment.ts:122-124 | 3000 with no segments, otherwise `d/segments` rounded |
| FeatureExtractor.CalculateFeatures | server/audio-discernment.ts:104-133 | the method computes exactly the feature record of the specification function |
| FeatureExtractor.FeatureRanges | server/audio-discernment.ts:126-132 | pause density in [0.15, 0.35), volume variance in [0.3, 0.7), balance in [0, 1), wpm and average duration non-negative |
| QualityAssessor.Push | server/audio-discernment.ts:146-154 | a conditional push adds exactly the flag when the condition holds |
| QualityAssessor.QualityFlagsRaised | server/audio-discernment.ts:142-154 | each flag is raised iff its condition holds: mean confidence < 0.7 (0.8 with no segments), wpm > 180, duration < 5000, exactly one speaker, any overlap |
| QualityAssessor.QualityFlagsOrdered | server/audio-discernment.ts:146-154 | flags appear in the fixed order low_confidence, too_fast, short_duration, single_speaker, overlapping_speech |
| QualityAssessor.DetectQualityFlags | server/audio-discernment.ts:135-157 | the push sequence computes exactly the flag list |
| QualityAssessor.NoSegmentsFlags | server/audio-discernment.ts:142-154 | with no segments, neither low_confidence, single_speaker nor overlapping_speech is raised |
| QualityAssessor.CodeRanks | server/audio-discernment.ts:165-201 | the five codes the composer emits are all keys of the registry |
| QualityAssessor.AddDetail | server/audio-discernment.ts:165-202 | a conditional push adds exactly the detail with that code |
| QualityAssessor.HmmDetailsMeaning | server/audio-discernment.ts:165-202 | each detail is present iff its flag is (diarization_uncertain iff mean confidence < 0.6) |
| QualityAssessor.HmmDetailsRegistryOrder | server/audio-discernment.ts:165-202 | every detail is its registry entry, in the order low_confidence, overlap, single speaker, too fast, diarization |
| QualityAssessor.BuildHmmDetails | server/audio-discernment.ts:159-208 | the method computes the detail list, and hmm iff it is non-empty |
| QualityAssessor.DiagnosticsOfRuleTable | server/audio-discernment.ts:142-202 | diarization_uncertain implies low_confidence; details exist iff low confidence, too fast, single speaker or overlap |
| QualityAssessor.ShortDurationHasNoDetail | server/audio-discernment.ts:148-202 | short_duration alone produces no detail |
| AudioTypes.FlagDescription | shared/audio-types.ts:88-97 | every one of the eight quality flags has a non-empty description |
| AudioTypes.FlagTablesInjective | shared/audio-types.ts:78-97 | flag names and descriptions are distinct for distinct flags |
| AudioTypes.HmmCodesRegistry | shared/audio-types.ts:99-125 | the registry has exactly five codes; overlap is high, low_confidence and diarization are med, single speaker and too fast are low |
| AudioTypes.Detail | shared/audio-types.ts:99-125 | a detail carries its code and exactly the registry's severity, note and fix |
| AudioTypes.SegmentSpeakersSnoc | server/audio-discernment.ts:150 | the distinct speakers of a longer list gain just the new speaker |
| AudioDiscernment.TranscriptOf | server/audio-discernment.ts:221-227 | a failed transcription yields the fixed sentence instead of an error |
| AudioDiscernment.SpeakersFor | server/audio-discernment.ts:229 | two labels iff diarizing and the transcript has at least 20 words |
| AudioDiscernment.Assemble | server/audio-discernment.ts:236-252 | ready iff turns are non-empty and there is no hmm; audio stored "none" with the estimated duration |
| AudioDiscernment.ProcessAudioDiscernment | server/audio-discernment.ts:210-253 | the pipeline computes exactly the specification result |
| AudioDiscernment.RunDownstream | server/audio-discernment.ts:231-252 | the downstream stages compute the specification result |
| AudioDiscernment.DefaultsAgree | server/audio-discernment.ts:214 | absent options behave as the defaults (diarize, "en", "accurate") |
| AudioDiscernment.ConfidenceFloor | server/audio-discernment.ts:142-144 | segments with confidence ≥ 0.75 have mean confidence ≥ 0.75 |
| AudioDiscernment.BatchSegmentsClean | server/audio-discernment.ts:142-146 | segmented audio never has low confidence or overlap |
| AudioDiscernment.ReadyIff | server/audio-discernment.ts:251 | ready iff the transcript is not blank, at least two speakers appear and wpm ≤ 180 |
| AudioDiscernment.ReadyExactly | server/audio-discernment.ts:229-251 | ready iff diarizing, at least 20 words, at least two segments and wpm ≤ 180 |
| AudioDiscernment.OneLabelSpeakers | server/audio-discernment.ts:56 | with one label, segments carry at most one speaker |
| AudioDiscernment.OneLabelNeverReady | server/audio-discernment.ts:229-251 | without diarization, or below 20 words, the result is never ready |
| AudioDiscernment.FailureSentenceWords | server/audio-discernment.ts:226 | the failure sentence has eight words |
| AudioDiscernment.FailedTranscription | server/audio-discernment.ts:222-251 | a failed transcription gives the fixed sentence and is never ready |
| AudioDiscernment.TurnsCoverDuration | server/audio-discernment.ts:230-231 | turns ≤ segments, they run from 0 to the duration, contiguous and alternating |
| AudioDiscernment.TwoLabelSpeakers | server/audio-discernment.ts:56 | with two labels, two speakers appear iff there are at least two segments |
| AudioAdaptor.ConvertAudioResult | client/src/edcm/audio-adaptor.ts:16-31 | null iff not ready; otherwise the transcript, the turns unchanged, the features and the number of distinct turn speakers |
| AudioAdaptor.AnalyzeAudioRequest | client/src/edcm/audio-adaptor.ts:33-50 | nothing iff not ready; otherwise a request with the transcript, the mode and the features, with pitch variance fixed at 0.5 |
| AudioAdaptor.AnalyzeAudioRequestDefault | client/src/edcm/audio-adaptor.ts:33-36 | without a mode argument the request is made in dating mode; nothing iff not ready |
| AudioAdaptor.AttentionLines | client/src/edcm/audio-adaptor.ts:74-80 | at most one "Attention:" line per detail |
| AudioAdaptor.GenerateAudioBasedProjections | client/src/edcm/audio-adaptor.ts:55-95 | the push sequence computes the rule-ordered projection list |
| AudioAdaptor.PushFeatureLines | client/src/edcm/audio-adaptor.ts:62-72 | lines for wpm > 160, balance outside [0.3, 0.7] and pause < 0.1, in that order |
| AudioAdaptor.PushAttentionLines | client/src/edcm/audio-adaptor.ts:74-80 | the attention lines are appended after the feature lines |
| AudioAdaptor.PushModeLines | client/src/edcm/audio-adaptor.ts:82-92 | dating adds a line for balance < 0.35, politics for wpm > 170, lab adds none |
| AudioAdaptor.AttentionOnlyForOverlap | client/src/edcm/audio-adaptor.ts:74-80 | registry details without the overlap code give no attention line, since overlap is the only high code |
| AudioAdaptor.BatchProjections | client/src/edcm/audio-adaptor.ts:55-95 | for a processed recording no attention line ever appears |
| AudioAdaptor.LabIsPrefix | client/src/edcm/audio-adaptor.ts:82-92 | every mode's lines extend the lab lines by at most one line |
| AudioAdaptor.SpeakersAmongLabels | server/audio-discernment.ts:56 | every segment speaker is one of the given labels |
| AudioAdaptor.ReadyInputHasTwoSpeakers | client/src/edcm/audio-adaptor.ts:19-30 | a ready recording converts to an input with exactly two speakers |
| LiveAudio.PaceState | client/src/components/shared/LiveAudioDiscernment.tsx:33-38 | Slow below 120, Steady in [120, 150), Rising in [150, 180), Rapid from 180, exactly one label |
| LiveAudio.PaceMonotone | client/src/components/shared/LiveAudioDiscernment.tsx:33-38 | a faster rate never gets a slower label |
| LiveAudio.RapidWithoutTooFast | client/src/components/shared/LiveAudioDiscernment.tsx:36-37 | the live label is Rapid but too_fast is not raised exactly at 180 wpm |
| LiveAudio.BalanceState | client/src/components/shared/LiveAudioDiscernment.tsx:40-44 | Balanced iff in [0.4, 0.6], Slightly Skewed iff in [0.3, 0.7] but not [0.4, 0.6], One-Sided otherwise |
| LiveAudio.BalanceSymmetric | client/src/components/shared/LiveAudioDiscernment.tsx:40-44 | a balance and its complement get the same label |
| LiveAudio.PauseState | client/src/components/shared/LiveAudioDiscernment.tsx:46-50 | Reflective above 0.3, Moderate in (0.15, 0.3], Pressured from 0.15 down |
| LiveAudio.PauseMonotone | client/src/components/shared/LiveAudioDiscernment.tsx:46-50 | more pauses never move a density from Reflective, nor less from Pressured |
| AssistantParserFacts.NewlineRun | server/edcm-assistant.ts:180 | the leading run of newlines that one split separator consumes |
| AssistantParserFacts.SplitNewlines | server/edcm-assistant.ts:180 | splitting on newline runs gives at least one piece, and no piece holds a newline |
| AssistantParserFacts.NonBlank | server/edcm-assistant.ts:180 | the filter keeps only lines that do not trim to empty, never more lines than given |
| AssistantParserFacts.BlankTextHasNoLines | server/edcm-assistant.ts:180 | a blank text leaves no lines |
| AssistantParserFacts.NameRunMaximal | server/edcm-assistant.ts:184 | the name group is the longest prefix of speaker-name characters (letters, digits, `_`, whitespace) |
| AssistantParserFacts.MatchSpeakerLineSound | server/edcm-assistant.ts:184 | every match is a name prefix, a colon, optional spaces and a non-empty body to the end of the line |
| AssistantParserFacts.MatchSpeakerLineComplete | server/edcm-assistant.ts:184 | every line of that shape matches, with exactly that name as the speaker |
| AssistantParserFacts.ParseTextToTurns | server/edcm-assistant.ts:179-251 | the line loop and the final checks compute exactly the specification parse |
| AssistantParserFacts.ParseLine | server/edcm-assistant.ts:188-222 | one pass of the loop body is one step of the line parser specification |
| AssistantParserFacts.FinishChecks | server/edcm-assistant.ts:225-248 | the two checks after the loop are the specification's finish |
| AssistantParserFacts.ParseLinesCount | server/edcm-assistant.ts:188-223 | turns ≤ lines, and no turns iff no lines |
| AssistantParserFacts.ParseLinesTimed | server/edcm-assistant.ts:185-220 | the k-th turn spans [5000k, 5000k + 5000] and the clock stands at the last end |
| AssistantParserFacts.ParseLinesItems | server/edcm-assistant.ts:204-213 | the loop yields at most one uncertainty item, always numbered line 1, and one iff the first line has no speaker |
| AssistantParserFacts.UnmatchedLineContinues | server/edcm-assistant.ts:202-203 | an unmatched line after a turn extends its text with one space, adding no turn and no time |
| AssistantParserFacts.MatchedLineOpensTurn | server/edcm-assistant.ts:192-200 | a matched line opens a turn with trimmed speaker and text and advances the clock by 5000 |
| AssistantParserFacts.ParseShape | server/edcm-assistant.ts:179-251 | turns ≤ non-blank lines, none iff no lines, contiguous 5000 ms slots, every item unresolved, the high item iff no turns, the all-"Unknown" item iff every speaker is "Unknown", at most two items |
| AssistantParserFacts.BlankTextParse | server/edcm-assistant.ts:180-235 | blank input gives no turns and exactly one high quality_flag item |
| EdcmEngine.Clamp01 | client/src/edcm/engine.ts:11-14 | the result lies in [0, 1] and equals the input on [0, 1] |
| EdcmEngine.Clamp01Monotone | client/src/edcm/engine.ts:11-14 | clamping keeps order and is idempotent |
| EdcmEngine.MatchTagLineSound | client/src/edcm/engine.ts:30 | a match is an A/B/C letter in either case, a colon, optional spaces and a non-empty body |
| EdcmEngine.MatchTagLineComplete | client/src/edcm/engine.ts:30 | every line of that shape matches, with the uppercase speaker |
| EdcmEngine.TrimmedLines | client/src/edcm/engine.ts:26 | trimming and dropping empty lines never adds lines |
| EdcmEngine.TrimmedLinesNonEmpty | client/src/edcm/engine.ts:26 | no kept line is empty |
| EdcmEngine.NormalizeTurns | client/src/edcm/engine.ts:20-35 | the line loop computes exactly the specification turn list |
| EdcmEngine.TextLinesNonEmpty | client/src/edcm/engine.ts:23-26 | a non-blank text has at least one line |
| EdcmEngine.NormalizeTurnsShape | client/src/edcm/engine.ts:20-35 | non-empty given turns come back unchanged; otherwise no turns iff the text is blank, one turn per non-blank line, "unknown" iff the line has no A/B/C tag, and then the text is the whole line |
| EdcmEngine.HeuristicMetrics | client/src/edcm/engine.ts:37-58 | R, E, D, N and C all lie in [0, 1] and the progress vector is all zeros |
| EdcmEngine.StrainIsWeightedSum | client/src/edcm/engine.ts:44-48 | C is the clamped weighted sum 0.35R + 0.25D + 0.25N + 0.15E; R = min(1, refusals/10), N = min(1, uncertainty/22) |
| EdcmEngine.StrainMonotone | client/src/edcm/engine.ts:39-48 | more refusal matches never lower R or C |
| EdcmEngine.AnalyzeEDCM | client/src/edcm/engine.ts:138-223 | the method computes exactly the specification result |
| EdcmEngine.RunChecks | client/src/edcm/engine.ts:168-201 | the push sequence computes the flags and items of the enabled path |
| EdcmEngine.DisabledResult | client/src/edcm/engine.ts:148-166 | disabled analysis gives [LOW_CONFIDENCE_PARSE], one medium ANALYSIS_DISABLED item and a null result |
| EdcmEngine.EnabledFlagsMeaning | client/src/edcm/engine.ts:168-201 | INSUFFICIENT_CONTEXT iff no turns, MISSING_SPEAKER_TAGS iff some turn is "unknown", OVER_SHORT_SAMPLE iff 1-2 turns, in that order |
| EdcmEngine.EnabledItemsMeaning | client/src/edcm/engine.ts:168-199 | one item per raised check, the speaker-tag item carrying the first turn texts as evidence |
| EdcmEngine.EnabledResult | client/src/edcm/engine.ts:213-222 | the enabled result carries the normalized turns, the heuristic metrics and a versioned copy of them |
| EdcmEngine.InsufficientContextAlone | client/src/edcm/engine.ts:168-201 | INSUFFICIENT_CONTEXT never comes with another flag, and with exactly one item |
| EdcmEngine.EvidenceIsPrefix | client/src/edcm/engine.ts:190 | the evidence is the texts of the first four turns at most |
| EdcmEngine.ModeDefaultsToGeneral | client/src/edcm/engine.ts:139 | an absent mode becomes "general" |
| Canonical.LeastIsMinimum | shared/canonical-schema.ts:75-79 | the first timestamp after sorting is one of them and no greater than any, in string order |
| Canonical.GreatestIsMaximum | shared/canonical-schema.ts:75-79 | the last timestamp after sorting is one of them and no less than any |
| Canonical.ToCanonicalConversation | shared/canonical-schema.ts:56-89 | the canonical record built from the messages; its messages, participants, range and metadata are stated by MessagesShape, ParticipantsShape, TimestampRangeShape and MetadataDefaults |
| Canonical.MessagesShape | shared/canonical-schema.ts:67-73 | same length and order; content is the text, source tier the source; confidence 0.5 iff the speaker is exactly "unknown", else 0.9; an empty speaker becomes "unknown" with 0.9; a missing timestamp becomes now |
| Canonical.ParticipantsShape | shared/canonical-schema.ts:65 | participants are the distinct raw speakers, without duplicates, in first-appearance order |
| Canonical.TimestampRangeShape | shared/canonical-schema.ts:75-79 | the range is (now, now) without messages, otherwise the least and greatest timestamps in string order |
| Canonical.MetadataDefaults | shared/canonical-schema.ts:78-87 | privacy mode always on, domain passed through, tier "free" and consent "explicit" by default, the given id kept and a fresh one otherwise |
| Projections.DriftIsNormalised | client/src/edcm/projections.ts:46-56 | "drift" is read from the modifiers and still normalised as `(v + 0.2)·2.5`, like a trend |
| Projections.WeightedScore | client/src/edcm/projections.ts:39-63 | the accumulation loop computes the specification score |
| Projections.ScoreSumBounds | client/src/edcm/projections.ts:43-60 | with positive weights, the weighted sum lies between the least and greatest value times the total weight |
| Projections.ScoreBetweenValues | client/src/edcm/projections.ts:39-63 | with positive weights, the score lies between the least and greatest normalised input |
| Projections.ZeroWeightScoresZero | client/src/edcm/projections.ts:62 | a zero total weight gives score 0 |
| Projections.DatingTablesWellFormed | client/src/edcm/projections.ts:26-30 | the dating tables have positive weights summing to 1 over known keys |
| Projections.PoliticsTablesWellFormed | client/src/edcm/projections.ts:31-35 | the politics tables have positive weights summing to 1 over known keys |
| Projections.BucketOf | client/src/edcm/projections.ts:70-86 | the three-way threshold shared by every axis; its bands are stated by BucketBands and its order by BucketMonotone |
| Projections.BucketMonotone | client/src/edcm/projections.ts:70-86 | a larger score never falls in a lower bucket |
| Projections.BucketBands | client/src/edcm/projections.ts:70-86 | top iff > 0.6, middle iff in (0.4, 0.6], bottom iff ≤ 0.4 |
| Projections.ProjectDating | client/src/edcm/projections.ts:65-75 | pace, balance and clarity labels from the dating tables; the bands are stated by ProjectDatingBands |
| Projections.ProjectDatingBands | client/src/edcm/projections.ts:65-75 | each dating label is the top one iff its weighted score exceeds 0.6 and the bottom one iff it is at most 0.4 |
| Projections.ProjectPolitical | client/src/edcm/projections.ts:77-87 | pressure, clarity and responsibility labels from the politics tables; the bands are stated by ProjectPoliticalBands |
| Projections.ProjectPoliticalBands | client/src/edcm/projections.ts:77-87 | each political label is the top one iff its weighted score exceeds 0.6 and the bottom one iff it is at most 0.4 |
| Projections.ClarityAxesAgree | client/src/edcm/projections.ts:29-84 | the two clarity axes use the same table, so Foggy iff Obscured and Clear iff Clear |
| Projections.BalanceBoundedByInputs | client/src/edcm/projections.ts:28-67 | the dating balance score stays within the bound of its three metrics |
| NewsTypes.ClassifyNewsSource | shared/news-types.ts:67-90 | the role and confidence of a piece of content; its rules are stated by ClassificationRules and NoPrimaryMeansNarrative |
| NewsTypes.ClassificationRules | shared/news-types.ts:67-90 | at most two secondary signals; primary speech iff a strong primary signal with none, or with one and at least three quotes; confidence 0.9, 0.7, or 0.6 + 0.15·s for media narrative; always in [0.6, 0.9] |
| NewsTypes.NoPrimaryMeansNarrative | shared/news-types.ts:75-89 | without transcript or video the role is always media narrative |
| NewsTypes.ComputeDistortionScore | shared/news-types.ts:92-122 | the accumulation over present components computes the specification score |
| NewsTypes.DistortionScoreBounds | shared/news-types.ts:92-122 | 0 with no component; never above 1; in [0, 1] for components in [0, 1], and then exactly the weighted sum |
| NewsTypes.SpinMonotone | shared/news-types.ts:101-104 | raising the headline spin never lowers the score |
| NewsTypes.IntegrityAntitone | shared/news-types.ts:96-99 | raising quote integrity never raises the score |
| NewsIngest.QuoteOf | server/news-ingest.ts:50-84 | both contexts are trimmed slices of at most 100 characters |
| NewsIngest.FoldFromAppend | server/news-ingest.ts:44-86 | running the second scan after the first is one scan over both match lists |
| NewsIngest.ExtractQuotes | server/news-ingest.ts:37-89 | the two scans compute exactly the specification quote list |
| NewsIngest.ScanMatches | server/news-ingest.ts:44-86 | one while loop over a pattern's matches extends the state exactly as the fold does |
| NewsIngest.KeepQuote | server/news-ingest.ts:46-62 | one match is kept as the next quote unless its 50-character key was seen |
| NewsIngest.StepInvariant | server/news-ingest.ts:46-62 | one step keeps the seen set equal to the kept keys, keys distinct and ids sequential, adding at most one quote |
| NewsIngest.FoldInvariant | server/news-ingest.ts:44-86 | after any run the seen set is the kept keys and all candidate keys; keys distinct; ids sequential; quotes ≤ matches |
| NewsIngest.ExtractQuotesShape | server/news-ingest.ts:37-89 | ids are quote_1..quote_n in order, no two quotes share a 50-character key, every key of a match is kept once, contexts are at most 100 characters |
| NewsIngest.ContextsBounded | server/news-ingest.ts:50-81 | every kept quote's contexts are at most 100 characters |
| NewsIngest.FoundIn | server/news-ingest.ts:95-99 | never more markers than the list has |
| NewsIngest.DetectMarkers | server/news-ingest.ts:91-116 | the marker loop computes exactly the found list for the lowercased text |
| NewsIngest.FoundInMeaning | server/news-ingest.ts:91-102 | exactly the markers contained in the text, without duplicates, in list order |
| NewsIngest.MarkerListsDistinct | server/news-ingest.ts:25-35 | both marker lists are free of duplicates |
| NewsIngest.DetectEmotionalLoading | server/news-ingest.ts:104-116 | the method computes the markers and the score |
| NewsIngest.EmotionalScore | server/news-ingest.ts:114 | the score `min(1, markers/5)` lies in [0, 1], is 0 iff no markers, 1 from five markers, and above 0.5 iff at least three |
| NewsIngest.FirstContainedMeaning | server/news-ingest.ts:143-155 | a partisan term is found iff some term occurs, and it is the first such term in list order |
| NewsIngest.AnalyzeHeadline | server/news-ingest.ts:118-158 | the accumulating method computes exactly the specification analysis |
| NewsIngest.FindPartisanTerm | server/news-ingest.ts:144-155 | the loop with its early break finds the first term in list order |
| NewsIngest.CountKindPushIf | server/news-ingest.ts:125-147 | a conditional push adds one flag of its kind exactly when the condition holds |
| NewsIngest.HeadlineFlagRules | server/news-ingest.ts:122-155 | an emotional flag iff score > 0, high iff score > 0.5; a sensational flag iff "!" or all caps; at most one partisan flag; at most three flags |
| NewsIngest.HeadlineSpinBounds | server/news-ingest.ts:120-157 | spin lies in [0, 1] and is the raw sum whenever that is at most 1 |
| NewsIngest.LetterlessIsSensational | server/news-ingest.ts:133 | a headline without lowercase letters equals its uppercase and is flagged |
| NewsIngest.QuoteScore | server/news-ingest.ts:166-180 | one quote's integrity lies in [0.4, 1] |
| NewsIngest.AnalyzeQuoteIntegrity | server/news-ingest.ts:160-184 | the loop computes exactly the specification integrity |
| NewsIngest.IntegritySumBounds | server/news-ingest.ts:163-181 | the sum lies between 0.4 and 1 per quote |
| NewsIngest.QuoteIntegrityBounds | server/news-ingest.ts:160-184 | integrity is 1 with no quotes and always lies in [0.4, 1] |
| NewsIngest.Speakers | server/news-ingest.ts:226-230 | the quotes' speakers, in quote order |
| NewsIngest.TopOfIn | server/news-ingest.ts:233-234 | the chosen speaker is one of the keys and no key has more quotes |
| NewsIngest.TopOfFirst | server/news-ingest.ts:233-234 | every key before the chosen one has strictly fewer quotes, as the stable descending sort keeps the first maximum |
| NewsIngest.TopSpeakerRule | server/news-ingest.ts:226-234 | "Unknown" with no quotes; otherwise the first speaker, in first-appearance order, with the most quotes |
| NewsIngest.ProcessNewsContentOf | server/news-ingest.ts:186-260 | the news record built from the content; its fields, markers, role and distortion are stated by ProcessNewsFields, ProcessNewsMarkers, ProcessNewsRole and ProcessNewsDistortion |
| NewsIngest.ProcessNewsFields | server/news-ingest.ts:193-260 | transcript iff hasTranscript, verbatim quote iff quotes without transcript, else summary; quote_count = quotes; outlet as carrier; publishDate or now |
| NewsIngest.ProcessNewsMarkers | server/news-ingest.ts:194-258 | the markers are exactly those contained in the content, without duplicates; anonymous count ≤ markers |
| NewsIngest.AnonymousBound | server/news-ingest.ts:255-257 | the anonymous count never exceeds the number of markers |
| NewsIngest.ProcessNewsRole | server/news-ingest.ts:198-242 | primary speech needs transcript or video and at most two markers or three quotes; transcript or video without markers is always primary |
| NewsIngest.ProcessNewsDistortion | server/news-ingest.ts:213-224 | the score is `(1 − integrity)·0.25 + spin·0.3` and lies in [0, 0.45] |
| NewsIngest.LevelMonotone | server/news-ingest.ts:268-269 | a larger score never gets a lower level |
| NewsIngest.DistortionSummary | server/news-ingest.ts:263-272 | the one-line summary; its opening is stated by SummaryKind and its percentage by PercentBounds |
| NewsIngest.ToFixed0 | server/news-ingest.ts:271 | `toFixed(0)`: non-empty, a leading minus iff the value is negative, digits otherwise |
| NewsIngest.ToFixed0Symmetric | server/news-ingest.ts:271 | the magnitude is rounded, so a negated positive value prints as the same digits after a minus sign |
| NewsIngest.ToFixed0NegativeZero | server/news-ingest.ts:271 | a value in (−0.5, 0) prints as "-0" |
| NewsIngest.PercentBounds | server/news-ingest.ts:271 | a score in [0, 1] shows as a percentage between 0 and 100 |
| NewsIngest.SummaryKind | server/news-ingest.ts:263-272 | the summary starts "Primary source: " iff primary speech and "Media narrative with " iff media narrative |
| NewsIngest.ProcessedNeverHigh | server/news-ingest.ts:213-269 | a processed record's distortion never reaches the "high" level |
| EdcmLite.WordRunMaximal | EDCMlite.py:21 | the run one `\w+` token takes is maximal: word characters throughout, and no word character right after it |
| EdcmLite.TokensCover | EDCMlite.py:21-27 | every token is a word run or one punctuation character, and the tokens, concatenated, are the text without its whitespace |
| EdcmLite.TokensOfLowered | EDCMlite.py:27 | tokens of lowercased text are lowercase |
| EdcmLite.Tokenize | EDCMlite.py:23-27 | the lowercased `\w+` tokens; stated by TokenizeShape and TokensCover |
| EdcmLite.TokenizeShape | EDCMlite.py:23-27 | no tokens for empty text; every token is lowercase and free of whitespace; together they are the lowercased text without whitespace |
| EdcmLite.CountsPartition | EDCMlite.py:43-44 | B's tokens split into those absent from A and those present; none absent iff all present, and vice versa |
| EdcmLite.Novelty | EDCMlite.py:39-44 | the share of B tokens absent from A; stated by NoveltyBounds and CountsPartition |
| EdcmLite.NoveltyBounds | EDCMlite.py:39-44 | novelty lies in [0, 1]; for non-empty B it is 0 iff every B token is in A and 1 iff none is; novelty(B, B) = 0 |
| EdcmLite.TypeCountBounds | EDCMlite.py:50 | the number of distinct tokens is between 1 and the token count, and equals it iff no token repeats |
| EdcmLite.Ttr | EDCMlite.py:46-50 | distinct tokens over tokens; stated by TtrBounds and TypeCountBounds |
| EdcmLite.RepetitionRatio | EDCMlite.py:52-54 | one minus the type-token ratio; stated by TtrBounds |
| EdcmLite.TtrBounds | EDCMlite.py:46-54 | ttr is 0 and repetition 1 for no tokens; otherwise ttr in (0, 1], repetition in [0, 1), ttr = 1 and repetition = 0 iff no token repeats |
| EdcmLite.CountOfContains | EDCMlite.py:61 | a non-empty pattern's non-overlapping count is positive iff the text contains it |
| EdcmLite.CountOfBound | EDCMlite.py:61 | the non-overlapping occurrences fit inside the text |
| EdcmLite.SumCountsZero | EDCMlite.py:61 | the summed count is 0 iff no pattern occurs |
| EdcmLite.CountPatterns | EDCMlite.py:56-61 | the summed non-overlapping counts in the lowercased text; stated by CountPatternsZero, CountOfContains and CountOfBound |
| EdcmLite.CountPatternsZero | EDCMlite.py:56-61 | the count is 0 iff the text is empty or no pattern occurs in the lowercased text |
| EdcmLite.CorrOverlapBounds | EDCMlite.py:86-89 | the overlap lies in [0, 1] and is 0 unless correction and B both have tokens |
| EdcmLite.MobileAnalyze | EDCMlite.py:63-101 | the mobile metrics of one exchange; stated by MobileAnalyzeBounds, RisksAntitone and FixationOfFullNovelty |
| EdcmLite.MobileAnalyzeBounds | EDCMlite.py:63-101 | novelty, repetition, overlap and both risks lie in [0, 1]; the densities are non-negative |
| EdcmLite.RisksAntitone | EDCMlite.py:93-101 | more novelty or more correction overlap never raises a risk |
| EdcmLite.FixationOfFullNovelty | EDCMlite.py:93 | with full novelty, fixation is 0.55 times the repetition |
| EdcmLite.Repeat | EDCMlite.py:130 | `c * n` has max(n, 0) copies of c |
| EdcmLite.SimpleBar | EDCMlite.py:127-130 | the text bar; its shape is stated by SimpleBarShape and its fill by FilledMonotone |
| EdcmLite.SimpleBarShape | EDCMlite.py:127-130 | the bar has exactly `width` characters: floor(clamped value × width) full blocks, then light shades |
| EdcmLite.SimpleBarDefault | EDCMlite.py:127-130 | without a width the bar is ten characters: floor(clamped value × 10) full blocks, then light shades |
| EdcmLite.FilledMonotone | EDCMlite.py:128-129 | a larger value never fills fewer blocks; values ≤ 0 fill none and values ≥ 1 fill all |
| SyncStorage.Find | client/src/storage/sync.ts:55 | a lookup finds a record iff the id is stored, and the record found carries that id |
| SyncStorage.Put | client/src/storage/sync.ts:53-57 | `Map.set` on the local list; stated by PutFacts, PutIds, PutFind and PutUnique |
| SyncStorage.PutFacts | client/src/storage/sync.ts:53-57 | `set` adds the id, makes the new record the one found under it, leaves every other id's record alone and keeps ids unique |
| SyncStorage.PutIds | client/src/storage/sync.ts:53-57 | after `set` the stored ids are the old ids plus the new one |
| SyncStorage.PutFind | client/src/storage/sync.ts:53-57 | after `set` the new record is found under its id and other ids are unaffected |
| SyncStorage.PutUnique | client/src/storage/sync.ts:53-57 | `set` keeps one record per id |
| SyncStorage.Remove | client/src/storage/sync.ts:81-86 | `Map.delete` on the local list; stated by RemoveFacts |
| SyncStorage.RemoveFacts | client/src/storage/sync.ts:81-86 | deleting an id removes exactly that id, leaves every other record alone and keeps ids unique |
| SyncStorage.MergeSessions | client/src/storage/sync.ts:51-70 | the two loops compute the merge: local records loaded into the map, then cloud records applied in order |
| SyncStorage.LoadAllUnique | client/src/storage/sync.ts:53 | loading a local list with unique ids into an empty map gives that list back in order |
| SyncStorage.FoldCloudIds | client/src/storage/sync.ts:54-68 | the merged ids are the loaded ids plus the cloud ids |
| SyncStorage.FoldCloudUnique | client/src/storage/sync.ts:54-68 | the merge keeps one record per id |
| SyncStorage.FoldCloudWinner | client/src/storage/sync.ts:55-57 | per id, the merged record is the starting or a cloud record, at least as recent as all of them, and the starting one when no cloud record is strictly newer |
| SyncStorage.MergeOf | client/src/storage/sync.ts:50-70 | the local list loaded, then each cloud record folded in; stated by MergeLastWriterWins and MergeWithoutCloud |
| SyncStorage.MergeLastWriterWins | client/src/storage/sync.ts:50-70 | the merge has the union of the ids, one record per id, and each id holds its last writer, a tie keeping the local record |
| SyncStorage.MergeWithoutCloud | client/src/storage/sync.ts:51-70 | with no cloud records the merge is the local list unchanged |
| SyncStorage.SessionStore.constructor | client/src/storage/sync.ts:17 | the store starts from given local and cloud lists |
| SyncStorage.SessionStore.SaveSession | client/src/storage/sync.ts:18-37 | always saved locally by id; sent to the cloud only when synced, and a failed cloud call loses nothing locally |
| SyncStorage.SessionStore.GetAllSessions | client/src/storage/sync.ts:40-78 | the last-writer-wins merge when synced and the cloud answers; otherwise the local sessions |
| SyncStorage.SessionStore.DeleteSession | client/src/storage/sync.ts:80-91 | always deleted locally; deleted from the cloud only when synced and the call succeeds |
| SyncStorage.SaveThenDelete | client/src/storage/sync.ts:18-81 | saving then deleting one id leaves no record for it and every other record as before |
| Analytics.Patched | client/src/lib/analytics.ts:59-62 | the settings after a patch; stated by PatchedRules |
| Analytics.PatchedRules | client/src/lib/analytics.ts:59-62 | patched fields override the current ones; text upload is allowed exactly in include-text mode, whatever the patch says about it |
| Analytics.DefaultsConsistent | client/src/lib/analytics.ts:49-54 | the defaults have sync off and text upload off, which agree |
| Analytics.CharCountZero | client/src/lib/analytics.ts:77-78 | the character count is 0 iff every turn text is empty |
| Analytics.AllTagsMembers | client/src/lib/analytics.ts:81 | a tag is in the flattened list iff some item carries it |
| Analytics.EventOf | client/src/lib/analytics.ts:73-98 | the stored event built from a result; stated by EventOfRules and RawTextOnlyWhenIncludeText |
| Analytics.EventOfRules | client/src/lib/analytics.ts:73-98 | the event counts turns and items; the tags are those of the items, without duplicates, in first-seen order; raw text is present iff upload is allowed, "" when none was given |
| Analytics.RawTextOnlyWhenIncludeText | client/src/lib/analytics.ts:62-97 | with consistent settings, raw text is stored iff sync is include-text |
| Analytics.EventLeqTotal | client/src/lib/analytics.ts:23 | the created-at index order is total |
| Analytics.EventLeqTransitive | client/src/lib/analytics.ts:23 | the created-at index order is transitive |
| Analytics.InsertMultiset | client/src/lib/analytics.ts:101 | putting an event adds exactly that event |
| Analytics.InsertFacts | client/src/lib/analytics.ts:101 | putting an event keeps the index sorted and adds exactly that event |
| Analytics.Newest | client/src/lib/analytics.ts:105-121 | the listing of a sorted index; stated by NewestRules |
| Analytics.NewestRules | client/src/lib/analytics.ts:105-121 | the listing has min(limit, count) events (none for limit ≤ 0), drawn from the store, newest first, and none left out is newer than one listed |
| Analytics.Reversed | client/src/lib/analytics.ts:111 | the backward walk visits the events in reverse |
| Analytics.ReversedMultiset | client/src/lib/analytics.ts:111 | the backward walk visits every event once |
| Analytics.AnalyticsStore.constructor | client/src/lib/analytics.ts:16-32 | an empty database: no settings, no events |
| Analytics.AnalyticsStore.GetSettings | client/src/lib/analytics.ts:44-57 | the stored settings, or the defaults, which are then stored; the result is consistent |
| Analytics.AnalyticsStore.SetSettings | client/src/lib/analytics.ts:59-66 | the current settings patched, upload forced to match include-text, stored and returned |
| Analytics.AnalyticsStore.AddAnalyticsEvent | client/src/lib/analytics.ts:68-103 | the event built from the current settings is stored, and the store grows by exactly it; the settings are left stored (the defaults when there were none) |
| Analytics.AnalyticsStore.ListAnalyticsEvents | client/src/lib/analytics.ts:105-121 | the cursor walk returns the newest `limit` events, newest first |
| Analytics.AnalyticsStore.ListAnalyticsEventsDefault | client/src/lib/analytics.ts:105 | without a limit the walk returns the newest 300 events, or all of them when there are fewer |
| Clipboard.Check | client/src/components/shared/ClipboardListener.tsx:29-52 | the listener state after one clipboard poll; stated by CheckRules, CheckBounded and NoRepeatCapture |
| Clipboard.CheckRules | client/src/components/shared/ClipboardListener.tsx:29-52 | nothing changes unless listening and the text is non-empty, new and over 10 characters trimmed; then it becomes the last text and its capture (2000-character prefix, not analyzed) goes first, before at most 49 older ones |
| Clipboard.CheckBounded | client/src/components/shared/ClipboardListener.tsx:41-47 | a poll keeps at most 50 captures of at most 2000 characters each |
| Clipboard.NoRepeatCapture | client/src/components/shared/ClipboardListener.tsx:34-35 | the same text read twice in a row is captured at most once |
| Clipboard.MarkAnalyzed | client/src/components/shared/ClipboardListener.tsx:92-95 | the captures after analysing one; stated by MarkAnalyzedRules |
| Clipboard.MarkAnalyzedRules | client/src/components/shared/ClipboardListener.tsx:92-95 | the same captures in the same order; exactly those with the id become analyzed, the rest are untouched |
| Clipboard.Toggle | client/src/components/shared/ClipboardListener.tsx:61-90 | the listener state after a toggle; stated by ToggleRules |
| Clipboard.ToggleRules | client/src/components/shared/ClipboardListener.tsx:61-90 | listening always stops; a paused listener with a known permission starts; with unknown permission it settles it and listens iff granted |
| Clipboard.ClipboardListener.constructor | client/src/components/shared/ClipboardListener.tsx:24-27 | not listening, no captures, empty last text, permission unknown |
| Clipboard.ClipboardListener.CheckClipboard | client/src/components/shared/ClipboardListener.tsx:29-52 | the poll changes the state as Check says and keeps the bounds |
| Clipboard.ClipboardListener.ToggleListening | client/src/components/shared/ClipboardListener.tsx:84-90 | the switch changes the state as Toggle says and keeps the bounds |
| Clipboard.ClipboardListener.RequestPermissionNow | client/src/components/shared/ClipboardListener.tsx:61-82 | granted: listen; denied: refused; prompt: granted if a read succeeds; a failed query falls back to a read |
| Clipboard.ClipboardListener.HandleAnalyze | client/src/components/shared/ClipboardListener.tsx:92-95 | marks the capture's id analyzed, nothing else changes, bounds kept |
| Clipboard.ClipboardListener.ClearCaptures | client/src/components/shared/ClipboardListener.tsx:99-101 | empties the captures, nothing else changes |
| Subscription.Apply | client/src/auth/subscription.ts:14-17 | one setter call on the flags; the flags after any sequence of calls are stated by RunMeaning |
| Subscription.RunMeaning | client/src/auth/subscription.ts:14-17 | after any calls, sync is the status of the last call of either setter and the subscription that of the last subscription call, both off initially |
| Subscription.SyncWithoutSubscription | client/src/auth/subscription.ts:16-17 | sync is on without a subscription only when the last call switched sync on; after a subscription call the two agree |
| Subscription.AuthStore.constructor | client/src/auth/subscription.ts:14-15 | both flags start off |
| Subscription.AuthStore.SetSubscribed | client/src/auth/subscription.ts:16 | sets the subscription and sync together |
| Subscription.AuthStore.SetSyncEnabled | client/src/auth/subscription.ts:17 | sets sync alone, the subscription unchanged |
| Text.TrimEnds | client/src/edcm/engine.ts:23-26 | a trimmed string neither starts nor ends with whitespace |
| Text.TrimEmptyIff | server/edcm-assistant.ts:180 | trimming gives the empty string exactly for whitespace-only input, the test `filter(l => l.trim())` makes |
| Text.DistinctMeaning | shared/canonical-schema.ts:65 | `Array.from(new Set(xs))` holds each value of xs once, in first-appearance order |

## Left out

- The audio client (`detectAudioFormat`, `ensureCompatibleFormat`, `speechToText`) lives outside the code modelled here; its reply is a parameter that may carry a failed transcription.
- `Math.random`, `crypto.randomUUID`, `Date.now` and `new Date()` are not modelled as effects: their values are parameters (a stream of draws in [0, 1), supplied ids and timestamps).
- Regular expressions are not interpreted. The sentence splitter, speaker prefixes and news patterns use explicit recognisers or the list of matches a scan produces; `heuristicMetrics` takes its match counts as inputs.
- Upper- and lowercasing are ASCII only, and Python's `\w` is approximated by ASCII letters, digits and `_`. Unicode case mapping and Unicode word characters are not modelled.
- JavaScript strings count UTF-16 code units; the model counts characters, so `slice(0, 2000)` and `length` agree with the source only outside surrogate pairs.
- EdcmEngine.Clamp01: the NaN case of `clamp01` is not modelled, because ratios are exact reals.
- Projections.WeightedScore: requires every weight key to be a known metric, trend or modifier key; the source reads `undefined` for an unknown key and the score becomes NaN.
- Floating-point representation is not modelled: ratios are exact reals. `Math.round` is written out as round-half-up on those exact reals, and the `toFixed(0)` of the news distortion summary as a sign followed by the magnitude rounded half up, so only the differences that binary floating point introduces are left out. The f-string formatting of the `mobile_analyze` report and the `round(…, 3)` that its JSON output applies to every number are left out: the MobileMetrics fields are the values before that rounding.
- `basic_entropy` (a base-2 logarithm) is left out; `mobile_analyze` keeps its token statistics and risk arithmetic.
- `analyzeText` and its `pseudoRandom` generator, and `processAssistantRequest` (a language-model call) are left out.
- The emotional-loading analysis of the full content inside `processNewsContent` is computed in the source but unused; the model does not compute it.
- IndexedDB plumbing (`openDB`, `tx`) and `exportAnalyticsJSON` (JSON serialisation of settings and events) are left out; the stores are sequences held by a class.
- The cloud server assigns its own ids and timestamps to saved sessions; the model appends the session as given. The local listing's index order is the insertion order of the model.
- SyncStorage.SessionStore.SaveSession: whether a user is signed in is folded into the `synced` parameter. `sync.ts` reads `user` from the subscription store, which does not define it, so with the store as written the cloud branch is never taken.
- Analytics.AnalyticsStore.AddAnalyticsEvent: requires the new event's id to be fresh, which `crypto.randomUUID` provides in practice.
- The clipboard polling timer (`setInterval` every 2 seconds), the `onAnalyze` callback and the React rendering are left out; each poll is one call of `CheckClipboard`.
- The Kivy screens of `EDCMlite.py` and all other UI components are left out.

## Notes on the source

- A whitespace-only transcript gives zero segments, so `single_speaker` is not raised; the model follows the code here.
- The parser's uncertainty item is only ever produced for the first non-blank line, so it always reads "Line 1".
- The news quote patterns always capture a speaker, so the "Unknown" speaker and its 0.5 confidence never arise (NewsIngest); processed news records never reach the "high" distortion band (NewsIngest.ProcessedNeverHigh).
- In the canonical record an empty speaker becomes "unknown" but keeps confidence 0.9, because the confidence test looks at the raw speaker.
- A live pace of exactly 180 words per minute is labelled "Rapid", while the `too_fast` flag needs more than 180 (LiveAudio.RapidWithoutTooFast).
