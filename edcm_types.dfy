/**
  The records of the EDCM request/response schema: modes, speaker-tagged
  turns, the parse quality flags, hmm items, the metrics block, the request
  body, the result envelope and the cloud-sync modes.
 */
module EdcmTypes {
  import opened Optional

  datatype Mode = Dating | Political | Consciousness | General

  datatype Speaker = A | B | C | Unknown

  datatype ConversationTurn = ConversationTurn(speaker: Speaker, text: string, ts: Option<string>)

  datatype EdcmFlag =
    | LowConfidenceParse
    | InsufficientContext
    | PossibleIntentInferenceRisk
    | ModelDriftRisk
    | NonEdcmRequest
    | MissingSpeakerTags
    | OverShortSample

  datatype ItemSeverity = Low | Medium | High

  datatype HmmItem = HmmItem(
    id: string,
    issue: string,
    evidence: seq<string>,
    suggested_fix: seq<string>,
    severity: ItemSeverity,
    tags: seq<string>)

  datatype ProgressVector = ProgressVector(decisions: int, commitments: int, artifacts: int, followthrough_score: real)

  /** The metrics block; the optional fixation and integration-failure entries are never filled here. */
  datatype Metrics = Metrics(
    constraint_strain_C: real,
    refusal_density_R: real,
    deflection_D: real,
    noise_N: real,
    escalation_E: real,
    progress_vector: ProgressVector)

  const SPEC_VERSION: string := "edcm-app-v0"

  datatype VersionedMetrics = VersionedMetrics(version: string, metrics: Metrics)

  datatype EdcmResult = EdcmResult(
    mode: Mode,
    conversation_turns: seq<ConversationTurn>,
    metrics: Metrics,
    quality_flags: seq<EdcmFlag>,
    hmmm_items: seq<HmmItem>,
    edcm_summary: string,
    fix_actions: seq<string>,
    edcm_result: Option<VersionedMetrics>)

  /** The request body; every field is optional. */
  datatype RequestBody = RequestBody(
    mode: Option<Mode>,
    text: Option<string>,
    turns: Option<seq<ConversationTurn>>,
    enable_analysis: Option<bool>)

  datatype SyncMode = Off | MetricsOnly | IncludeText
}
