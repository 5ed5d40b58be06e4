/**
  processAudioDiscernment of server/audio-discernment.ts: the stages run in
  order over one buffer and assemble the result record, ending with the
  readiness gate `edcm_input_ready = turns ≠ [] ∧ ¬hmm`.

  The audio client (format detection, conversion and speech-to-text) is not
  part of this model: its answers are a parameter, with a failed
  transcription as `None`. The random draws are a parameter stream; the
  identifier and the timestamp are parameters.
 */
module AudioDiscernment {
  import opened Text
  import opened Optional
  import opened AudioTypes
  import opened AudioSegmenter
  import opened TurnBuilder
  import opened FeatureExtractor
  import opened QualityAssessor

  /** The caller's options; an absent field takes its default. */
  datatype DiscernmentOptions = DiscernmentOptions(diarize: Option<bool>, language: Option<string>, model: Option<ModelChoice>)

  /** What the audio client answers for one buffer; `transcription` is `None` when speech-to-text throws. */
  datatype AudioClientReply = AudioClientReply(
    detectedFormat: string,
    compatibleLength: nat,
    compatibleFormat: string,
    transcription: Option<string>)

  /** The words of the sentence used in place of a failed transcription. */
  const FAILURE_WORDS: seq<string> := ["Transcription", "failed.", "Please", "try", "again", "with", "clearer", "audio."]

  /** "Transcription failed. Please try again with clearer audio." */
  const TRANSCRIPTION_FAILED: string := JoinSpace(FAILURE_WORDS)

  /** The transcript: the client's text, or the fixed sentence when transcription failed. */
  function TranscriptOf(reply: AudioClientReply): (t: string)
    ensures reply.transcription.None? ==> t == TRANSCRIPTION_FAILED
    ensures reply.transcription.Some? ==> t == reply.transcription.value
  {
    match reply.transcription
    case Some(text) => text
    case None => TRANSCRIPTION_FAILED
  }

  /** `diarize` defaults to true. */
  function Diarize(options: DiscernmentOptions): bool
  {
    match options.diarize
    case Some(d) => d
    case None => true
  }

  /** The speaker labels: the word-count heuristic when diarizing, otherwise Speaker A alone. */
  function SpeakersFor(diarize: bool, transcript: string): (r: seq<string>)
    ensures 1 <= |r| <= 2 && r[0] == SPEAKER_A
    ensures |r| == 2 <==> diarize && WordCount(transcript) >= 20
    ensures |r| == 2 ==> r[1] == SPEAKER_B && r[0] != r[1]
  {
    if diarize then DetectSpeakers(transcript) else [SPEAKER_A]
  }

  /** The result record for one buffer; segment k draws confidence k, then pause and volume draw in turn. */
  function Discern(options: DiscernmentOptions, reply: AudioClientReply, artifactId: string, createdAt: string,
                   draws: nat -> real): DiscernmentResult
  {
    var durationMs := EstimateDuration(reply.compatibleLength, reply.compatibleFormat);
    var transcript := TranscriptOf(reply);
    var speakers := SpeakersFor(Diarize(options), transcript);
    var segments := Segments(transcript, durationMs, speakers, draws);
    Downstream(artifactId, createdAt, reply.detectedFormat, durationMs, transcript, segments, draws)
  }

  /** The stages after segmentation: turns, features, flags, details and the record. */
  function Downstream(artifactId: string, createdAt: string, format: string, durationMs: nat, transcript: string,
                      segments: seq<Segment>, draws: nat -> real): DiscernmentResult
  {
    var turns := TurnsOf(segments);
    var features := FeaturesOf(segments, durationMs, transcript, draws(|segments|), draws(|segments| + 1));
    var flags := QualityFlagsOf(segments, features, durationMs);
    var details := HmmDetailsOf(flags, segments);
    Assemble(artifactId, createdAt, format, durationMs, transcript, segments, turns, features,
      flags, |details| > 0, details)
  }

  /** The result record of the stage outputs, with the readiness gate. */
  function Assemble(artifactId: string, createdAt: string, format: string, durationMs: nat, transcript: string,
                    segments: seq<Segment>, turns: seq<Turn>, features: Features, flags: seq<QualityFlag>,
                    hmm: bool, details: seq<HmmDetail>): (r: DiscernmentResult)
    ensures r.edcm_input_ready <==> turns != [] && !hmm
    ensures r.audio.stored == StoredNone && r.audio.duration_ms == durationMs && r.audio.format == format
  {
    DiscernmentResult(
      artifact_id := artifactId,
      created_at := createdAt,
      audio := AudioInfo(format, durationMs, StoredNone),
      transcript_full := transcript,
      segments := segments,
      conversation_turns := turns,
      features := features,
      quality_flags := flags,
      hmm := hmm,
      hmm_details := details,
      edcm_input_ready := |turns| > 0 && !hmm)
  }

  /** processAudioDiscernment: the stages called one after the other. */
  method ProcessAudioDiscernment(options: DiscernmentOptions, reply: AudioClientReply, artifactId: string,
                                 createdAt: string, draws: nat -> real)
    returns (result: DiscernmentResult)
    ensures result == Discern(options, reply, artifactId, createdAt, draws)
  {
    var diarize := Diarize(options);
    var durationMs := EstimateDuration(reply.compatibleLength, reply.compatibleFormat);
    var transcript := TranscriptOf(reply);
    var speakers := SpeakersFor(diarize, transcript);
    var segments := SplitIntoSegments(transcript, durationMs, speakers, draws);
    result := RunDownstream(artifactId, createdAt, reply.detectedFormat, durationMs, transcript, segments, draws);
  }

  /** The second half of processAudioDiscernment, from the segments on. */
  method RunDownstream(artifactId: string, createdAt: string, format: string, durationMs: nat, transcript: string,
                       segments: seq<Segment>, draws: nat -> real)
    returns (result: DiscernmentResult)
    ensures result == Downstream(artifactId, createdAt, format, durationMs, transcript, segments, draws)
  {
    var conversationTurns := BuildConversationTurns(segments);
    var features := CalculateFeatures(segments, durationMs, transcript, draws(|segments|), draws(|segments| + 1));
    var qualityFlags := DetectQualityFlags(segments, features, durationMs);
    var hmm, hmmDetails := BuildHmmDetails(qualityFlags, segments);
    result := Assemble(artifactId, createdAt, format, durationMs, transcript, segments,
      conversationTurns, features, qualityFlags, hmm, hmmDetails);
  }

  /** Options left out behave as the client's DEFAULT_SETTINGS values for the same fields. */
  lemma DefaultsAgree(reply: AudioClientReply, artifactId: string, createdAt: string, draws: nat -> real)
    ensures var given := DiscernmentOptions(
        Some(DEFAULT_SETTINGS.diarize), Some(DEFAULT_SETTINGS.language), Some(DEFAULT_SETTINGS.model));
      Discern(DiscernmentOptions(None, None, None), reply, artifactId, createdAt, draws)
        == Discern(given, reply, artifactId, createdAt, draws)
  {
  }

  /** With every confidence at least 0.75, so is the mean. */
  lemma {:induction false} ConfidenceFloor(segs: seq<Segment>)
    requires forall i :: 0 <= i < |segs| ==> 0.75 <= segs[i].confidence
    ensures SumConfidence(segs) >= 0.75 * |segs| as real
    ensures AvgConfidence(segs) >= 0.75
    decreases |segs|
  {
    if segs != [] {
      var init := segs[..|segs| - 1];
      ConfidenceFloor(init);
      assert segs[|segs| - 1].confidence >= 0.75;
      MeanFloor(SumConfidence(segs), |segs|);
    }
  }

  lemma MeanFloor(sum: real, n: nat)
    requires n > 0 && sum >= 0.75 * n as real
    ensures sum / n as real >= 0.75
  {
  }

  /** The batch segments carry confidence at least 0.75 and never overlap. */
  lemma BatchSegmentsClean(text: string, durationMs: nat, speakers: seq<string>, draws: nat -> real)
    requires |speakers| > 0
    requires forall k :: 0.0 <= draws(k) < 1.0
    ensures var segs := Segments(text, durationMs, speakers, draws);
      AvgConfidence(segs) >= 0.75 && !HasOverlap(segs)
  {
    var segs := Segments(text, durationMs, speakers, draws);
    SegmentsTileDuration(text, durationMs, speakers, draws);
    ConfidenceFloor(segs);
  }

  /**
    The readiness gate in terms of the input: the result is ready for EDCM
    exactly when the transcript is not all whitespace, at least two distinct
    speakers were assigned and the rate is at most 180 words per minute; the
    confidence and overlap rules cannot fire on batch segments.
   */
  lemma ReadyIff(options: DiscernmentOptions, reply: AudioClientReply, artifactId: string, createdAt: string,
                 draws: nat -> real)
    requires forall k :: 0.0 <= draws(k) < 1.0
    ensures var r := Discern(options, reply, artifactId, createdAt, draws);
      r.edcm_input_ready <==>
        (!AllSpace(r.transcript_full) && |SpeakerSet(r.segments)| >= 2 && r.features.speech_rate_wpm <= 180)
  {
    var r := Discern(options, reply, artifactId, createdAt, draws);
    var durationMs := EstimateDuration(reply.compatibleLength, reply.compatibleFormat);
    var transcript := TranscriptOf(reply);
    var speakers := SpeakersFor(Diarize(options), transcript);
    var segs := r.segments;
    assert segs == Segments(transcript, durationMs, speakers, draws);
    SegmentsCount(transcript, durationMs, speakers, draws);
    BatchSegmentsClean(transcript, durationMs, speakers, draws);
    DiagnosticsOfRuleTable(segs, r.features, durationMs);
    if segs != [] {
      assert segs[0].speaker_id in SpeakerSet(segs);
    }
  }

  /** With the single label every segment goes to Speaker A. */
  lemma OneLabelSpeakers(text: string, durationMs: nat, draws: nat -> real)
    requires forall k :: 0.0 <= draws(k) < 1.0
    ensures |SpeakerSet(Segments(text, durationMs, [SPEAKER_A], draws))| <= 1
  {
    var segs := Segments(text, durationMs, [SPEAKER_A], draws);
    SegmentsTileDuration(text, durationMs, [SPEAKER_A], draws);
    assert SpeakerSet(segs) <= {SPEAKER_A} by {
      forall sp | sp in SpeakerSet(segs) ensures sp == SPEAKER_A {
        var i :| 0 <= i < |segs| && segs[i].speaker_id == sp;
        assert i % 1 == 0;
      }
    }
    if SPEAKER_A in SpeakerSet(segs) {
      assert SpeakerSet(segs) == {SPEAKER_A};
    } else {
      assert SpeakerSet(segs) == {};
    }
  }

  /** A single speaker label can never give a ready result: every segment goes to Speaker A. */
  lemma OneLabelNeverReady(options: DiscernmentOptions, reply: AudioClientReply, artifactId: string,
                           createdAt: string, draws: nat -> real)
    requires forall k :: 0.0 <= draws(k) < 1.0
    requires !Diarize(options) || WordCount(TranscriptOf(reply)) < 20
    ensures !Discern(options, reply, artifactId, createdAt, draws).edcm_input_ready
  {
    var durationMs := EstimateDuration(reply.compatibleLength, reply.compatibleFormat);
    var transcript := TranscriptOf(reply);
    assert SpeakersFor(Diarize(options), transcript) == [SPEAKER_A];
    OneLabelSpeakers(transcript, durationMs, draws);
    ReadyIff(options, reply, artifactId, createdAt, draws);
  }

  /** Words without whitespace joined by single spaces count as themselves. */
  lemma {:induction false} WordCountJoin(words: seq<string>)
    requires words != []
    requires forall k :: 0 <= k < |words| ==> words[k] != [] && NoSpace(words[k])
    ensures WordCount(JoinSpace(words)) == |words|
    ensures JoinSpace(words) != [] && !IsSpace(JoinSpace(words)[|JoinSpace(words)| - 1])
    decreases |words|
  {
    if |words| == 1 {
      WordCountNoSpace(words[0]);
    } else {
      var init := words[..|words| - 1];
      var w := words[|words| - 1];
      WordCountJoin(init);
      WordCountAppendWord(JoinSpace(init), w);
    }
  }

  predicate NoSpace(w: string)
  {
    forall i :: 0 <= i < |w| ==> !IsSpace(w[i])
  }

  /** The fixed failure sentence has eight words. */
  lemma FailureSentenceWords()
    ensures WordCount(TRANSCRIPTION_FAILED) == 8
  {
    WordCountJoin(FAILURE_WORDS);
  }

  /**
    A failed transcription does not throw: the result carries the fixed
    failure sentence, and since it is too short for two speakers the result
    is never ready.
   */
  lemma FailedTranscription(options: DiscernmentOptions, reply: AudioClientReply, artifactId: string,
                            createdAt: string, draws: nat -> real)
    requires forall k :: 0.0 <= draws(k) < 1.0
    requires reply.transcription.None?
    ensures var r := Discern(options, reply, artifactId, createdAt, draws);
      r.transcript_full == TRANSCRIPTION_FAILED && !r.edcm_input_ready
  {
    FailureSentenceWords();
    OneLabelNeverReady(options, reply, artifactId, createdAt, draws);
  }

  /**
    The turns of a result cover the estimated duration: the first starts at
    0, the last ends at the duration, each ends where the next starts, no
    two adjacent turns share a speaker, and there are no more turns than
    segments.
   */
  lemma TurnsCoverDuration(options: DiscernmentOptions, reply: AudioClientReply, artifactId: string,
                           createdAt: string, draws: nat -> real)
    requires forall k :: 0.0 <= draws(k) < 1.0
    ensures var r := Discern(options, reply, artifactId, createdAt, draws);
      var turns := r.conversation_turns;
      && |turns| <= |r.segments|
      && (turns != [] ==> turns[0].start_ms == 0 && turns[|turns| - 1].end_ms == r.audio.duration_ms)
      && TurnsContiguous(turns)
      && Alternating(turns)
  {
    var r := Discern(options, reply, artifactId, createdAt, draws);
    var durationMs := EstimateDuration(reply.compatibleLength, reply.compatibleFormat);
    var transcript := TranscriptOf(reply);
    var speakers := SpeakersFor(Diarize(options), transcript);
    var segs := r.segments;
    assert segs == Segments(transcript, durationMs, speakers, draws);
    SegmentsTileDuration(transcript, durationMs, speakers, draws);
    assert Contiguous(segs);
    TurnsKeepContiguity(segs);
    TurnsAlternate(segs);
    if segs != [] {
      TurnsKeepStart(segs);
    }
  }

  /** Two distinct labels used round-robin over at least two segments give two speakers, and only then. */
  lemma TwoLabelSpeakers(text: string, durationMs: nat, draws: nat -> real)
    requires forall k :: 0.0 <= draws(k) < 1.0
    ensures var segs := Segments(text, durationMs, [SPEAKER_A, SPEAKER_B], draws);
      |SpeakerSet(segs)| >= 2 <==> |segs| >= 2
  {
    var speakers := [SPEAKER_A, SPEAKER_B];
    var segs := Segments(text, durationMs, speakers, draws);
    SegmentsTileDuration(text, durationMs, speakers, draws);
    var set_ := SpeakerSet(segs);
    if |segs| >= 2 {
      assert segs[0].speaker_id == SPEAKER_A && segs[1].speaker_id == SPEAKER_B;
      assert SPEAKER_A in set_ && SPEAKER_B in set_;
      assert SPEAKER_A != SPEAKER_B by { assert SPEAKER_A[8] == 'A' && SPEAKER_B[8] == 'B'; }
      assert SPEAKER_B in set_ - {SPEAKER_A};
      assert |set_ - {SPEAKER_A}| >= 1;
    } else if |segs| == 1 {
      assert set_ == {segs[0].speaker_id};
    } else {
      assert set_ == {};
    }
  }

  /**
    The readiness gate, fully in terms of the input: ready exactly when
    diarizing, the transcript has at least 20 words and at least two
    segments, and the rate is at most 180 words per minute.
   */
  lemma ReadyExactly(options: DiscernmentOptions, reply: AudioClientReply, artifactId: string, createdAt: string,
                     draws: nat -> real)
    requires forall k :: 0.0 <= draws(k) < 1.0
    ensures var r := Discern(options, reply, artifactId, createdAt, draws);
      r.edcm_input_ready <==>
        (Diarize(options) && WordCount(r.transcript_full) >= 20 && |r.segments| >= 2
         && r.features.speech_rate_wpm <= 180)
  {
    var r := Discern(options, reply, artifactId, createdAt, draws);
    var durationMs := EstimateDuration(reply.compatibleLength, reply.compatibleFormat);
    var transcript := TranscriptOf(reply);
    ReadyIff(options, reply, artifactId, createdAt, draws);
    if Diarize(options) && WordCount(transcript) >= 20 {
      assert SpeakersFor(Diarize(options), transcript) == [SPEAKER_A, SPEAKER_B];
      TwoLabelSpeakers(transcript, durationMs, draws);
      SegmentsCount(transcript, durationMs, [SPEAKER_A, SPEAKER_B], draws);
    } else {
      OneLabelNeverReady(options, reply, artifactId, createdAt, draws);
    }
  }
}
