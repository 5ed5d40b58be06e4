/**
  The client-side EDCM engine (client/src/edcm/engine.ts): clamping into
  [0,1], normalising a request into speaker-tagged turns, the keyword
  heuristic metrics (over given keyword match counts) and the analysis
  envelope with its parse quality flags and hmm items.
 */
module EdcmEngine {
  import opened Text
  import opened Optional
  import opened EdcmTypes

  /** clamp01 on numbers that are not NaN. */
  function Clamp01(x: real): (r: real)
    ensures 0.0 <= r <= 1.0
    ensures 0.0 <= x <= 1.0 ==> r == x
  {
    if x < 0.0 then 0.0 else if x > 1.0 then 1.0 else x
  }

  /** Clamping never reverses an order and is idempotent. */
  lemma Clamp01Monotone(x: real, y: real)
    requires x <= y
    ensures Clamp01(x) <= Clamp01(y)
    ensures Clamp01(Clamp01(x)) == Clamp01(x)
  {
  }

  /** The speaker a tag letter `[ABC]` names, case-insensitively. */
  function TagSpeaker(c: char): Option<Speaker>
  {
    if c == 'A' || c == 'a' then Some(A)
    else if c == 'B' || c == 'b' then Some(B)
    else if c == 'C' || c == 'c' then Some(C)
    else None
  }

  /** `/^([ABC]):\s*(.+)$/i`: the upper-cased tag and the remainder group. */
  function MatchTagLine(line: string): Option<(Speaker, string)>
  {
    if |line| < 2 || line[1] != ':' then None
    else
      match TagSpeaker(line[0])
      case None => None
      case Some(sp) =>
        match SpacedRest(line[2..])
        case Some(body) => Some((sp, body))
        case None => None
  }

  /** A tag match splits the line into a tag letter, a colon, whitespace and the group. */
  lemma MatchTagLineSound(line: string)
    ensures MatchTagLine(line).Some? ==>
      var (sp, body) := MatchTagLine(line).value;
      |body| + 2 <= |line| && TagSpeaker(line[0]) == Some(sp) && line[1] == ':'
      && AllSpace(line[2..|line| - |body|]) && body == line[|line| - |body|..]
      && body != [] && NoLineTerminator(body)
  {
    if |line| >= 2 {
      var rest := line[2..];
      SpacedRestSound(rest);
      if SpacedRest(rest).Some? {
        var v := SpacedRest(rest).value;
        assert line[2..|line| - |v|] == rest[..|rest| - |v|];
      }
    }
  }

  /** Every line of the shape `X:` whitespace text, with X one of a/b/c in either case, matches. */
  lemma MatchTagLineComplete(c: char, ws: string, body: string)
    requires TagSpeaker(c).Some? && AllSpace(ws) && body != [] && NoLineTerminator(body)
    ensures var r := MatchTagLine([c] + ":" + ws + body);
      r.Some? && r.value.0 == TagSpeaker(c).value
  {
    var line := [c] + ":" + ws + body;
    assert line[2..] == ws + body;
    SpacedRestComplete(ws, body);
  }

  /** `raw.split("\n").map(l => l.trim()).filter(Boolean)`. */
  function TrimmedLines(pieces: seq<string>): (r: seq<string>)
    ensures |r| <= |pieces|
    decreases |pieces|
  {
    if pieces == [] then []
    else
      var n := |pieces| - 1;
      TrimmedLines(pieces[..n]) + (if Trim(pieces[n]) != [] then [Trim(pieces[n])] else [])
  }

  /** Every kept line is non-empty and trimmed. */
  lemma {:induction false} TrimmedLinesNonEmpty(pieces: seq<string>)
    ensures forall j :: 0 <= j < |TrimmedLines(pieces)| ==> TrimmedLines(pieces)[j] != []
    decreases |pieces|
  {
    if pieces != [] {
      TrimmedLinesNonEmpty(pieces[..|pieces| - 1]);
    }
  }

  /** The turn one text line becomes. */
  function TurnOfLine(line: string): ConversationTurn
  {
    match MatchTagLine(line)
    case Some((sp, body)) => ConversationTurn(sp, body, None)
    case None => ConversationTurn(Unknown, line, None)
  }

  function GivenTurns(body: RequestBody): bool
  {
    body.turns.Some? && body.turns.value != []
  }

  /** The text of the body, trimmed; absent text counts as empty. */
  function RawText(body: RequestBody): string
  {
    Trim(if body.text.Some? then body.text.value else "")
  }

  /** The lines normalizeTurns reads from the text of the body. */
  function TextLines(body: RequestBody): seq<string>
  {
    var raw := RawText(body);
    if raw == [] then [] else TrimmedLines(SplitOn(raw, '\n'))
  }

  /** normalizeTurns as a function of the body. */
  function NormalizeTurnsOf(body: RequestBody): seq<ConversationTurn>
  {
    if GivenTurns(body) then body.turns.value
    else
      var lines := TextLines(body);
      seq(|lines|, i requires 0 <= i < |lines| => TurnOfLine(lines[i]))
  }

  /** normalizeTurns: given turns pass through; otherwise one turn per non-blank line. */
  method NormalizeTurns(body: RequestBody) returns (turns: seq<ConversationTurn>)
    ensures turns == NormalizeTurnsOf(body)
  {
    if body.turns.Some? && |body.turns.value| > 0 {
      return body.turns.value;
    }
    var raw := Trim(if body.text.Some? then body.text.value else "");
    if raw == [] {
      return [];
    }
    var lines := TrimmedLines(SplitOn(raw, '\n'));
    turns := [];
    for i := 0 to |lines|
      invariant |turns| == i
      invariant forall j :: 0 <= j < i ==> turns[j] == TurnOfLine(lines[j])
    {
      var m := MatchTagLine(lines[i]);
      if m.Some? {
        turns := turns + [ConversationTurn(m.value.0, m.value.1, None)];
      } else {
        turns := turns + [ConversationTurn(Unknown, lines[i], None)];
      }
    }
  }

  /** A text whose first character is not whitespace is not blank after trimming. */
  lemma TrimKeepsNonSpace(s: string)
    requires s != [] && !IsSpace(s[0])
    ensures Trim(s) != []
  {
    TrimEmptyIff(s);
  }

  /** Text that is not blank yields at least one line. */
  lemma {:induction false} TextLinesNonEmpty(body: RequestBody)
    requires RawText(body) != []
    ensures TextLines(body) != []
  {
    var raw := RawText(body);
    var text := if body.text.Some? then body.text.value else "";
    TrimEnds(text);
    var pieces := SplitOn(raw, '\n');
    var k := FirstIndex(raw, '\n');
    assert raw[0] != '\n';
    assert k > 0;
    assert pieces[0] == raw[..k];
    TrimKeepsNonSpace(pieces[0]);
    TrimmedLinesHasFirst(pieces);
  }

  /** If the first piece is not blank, some line is kept. */
  lemma {:induction false} TrimmedLinesHasFirst(pieces: seq<string>)
    requires pieces != [] && Trim(pieces[0]) != []
    ensures TrimmedLines(pieces) != []
    decreases |pieces|
  {
    if |pieces| > 1 {
      var n := |pieces| - 1;
      assert pieces[..n][0] == pieces[0];
      TrimmedLinesHasFirst(pieces[..n]);
    }
  }

  /**
    normalizeTurns: a non-empty list of given turns is returned unchanged;
    otherwise the result is empty exactly when the text is absent or blank,
    there is one turn per non-blank line, no turn has empty text, and a
    turn is "unknown" exactly when its line carries no A/B/C tag, whose
    text is then the whole line.
   */
  lemma NormalizeTurnsShape(body: RequestBody)
    ensures GivenTurns(body) ==> NormalizeTurnsOf(body) == body.turns.value
    ensures !GivenTurns(body) ==>
      var r := NormalizeTurnsOf(body);
      var lines := TextLines(body);
      (r == [] <==> AllSpace(if body.text.Some? then body.text.value else ""))
      && |r| == |lines|
      && forall i :: 0 <= i < |r| ==>
        r[i].text != []
        && (r[i].speaker == Unknown <==> MatchTagLine(lines[i]).None?)
        && (r[i].speaker == Unknown ==> r[i].text == lines[i])
  {
    if !GivenTurns(body) {
      var text := if body.text.Some? then body.text.value else "";
      TrimEmptyIff(text);
      var raw := RawText(body);
      if raw != [] {
        TextLinesNonEmpty(body);
        TrimmedLinesNonEmpty(SplitOn(raw, '\n'));
      }
      var lines := TextLines(body);
      forall i | 0 <= i < |lines| ensures TurnOfLine(lines[i]).text != [] {
        MatchTagLineSound(lines[i]);
      }
    }
  }

  /** The keyword match counts that the metrics are computed from. */
  datatype MatchCounts = MatchCounts(refusal: nat, escalation: nat, deflection: nat, uncertainty: nat)

  /** The weighted strain before clamping. */
  function Strain(r: real, d: real, n: real, e: real): real
  {
    r * 0.35 + d * 0.25 + n * 0.25 + e * 0.15
  }

  /** heuristicMetrics over the match counts; the progress vector is all zeros. */
  function HeuristicMetrics(m: MatchCounts): (r: Metrics)
    ensures 0.0 <= r.constraint_strain_C <= 1.0 && 0.0 <= r.refusal_density_R <= 1.0
    ensures 0.0 <= r.deflection_D <= 1.0 && 0.0 <= r.noise_N <= 1.0 && 0.0 <= r.escalation_E <= 1.0
    ensures r.progress_vector == ProgressVector(0, 0, 0, 0.0)
  {
    var R := Clamp01(m.refusal as real / 10.0);
    var E := Clamp01(m.escalation as real / 16.0);
    var D := Clamp01(m.deflection as real / 8.0);
    var N := Clamp01(m.uncertainty as real / 22.0);
    Metrics(Clamp01(Strain(R, D, N, E)), R, D, N, E, ProgressVector(0, 0, 0, 0.0))
  }

  /**
    The weights sum to 1, so the final clamp never bites: the strain is the
    weighted sum itself, and each density saturates at its divisor.
   */
  lemma StrainIsWeightedSum(m: MatchCounts)
    ensures var r := HeuristicMetrics(m);
      r.constraint_strain_C == Strain(r.refusal_density_R, r.deflection_D, r.noise_N, r.escalation_E)
    ensures HeuristicMetrics(m).refusal_density_R == (if m.refusal >= 10 then 1.0 else m.refusal as real / 10.0)
    ensures HeuristicMetrics(m).noise_N == (if m.uncertainty >= 22 then 1.0 else m.uncertainty as real / 22.0)
  {
  }

  /** More refusals never lower the refusal density or the strain. */
  lemma StrainMonotone(m: MatchCounts, extra: nat)
    ensures var m2 := m.(refusal := m.refusal + extra);
      HeuristicMetrics(m).refusal_density_R <= HeuristicMetrics(m2).refusal_density_R
      && HeuristicMetrics(m).constraint_strain_C <= HeuristicMetrics(m2).constraint_strain_C
  {
    var m2 := m.(refusal := m.refusal + extra);
    Clamp01Monotone(m.refusal as real / 10.0, m2.refusal as real / 10.0);
    StrainIsWeightedSum(m);
    StrainIsWeightedSum(m2);
  }

  const DISABLED_ISSUE: string := "Analysis disabled; cannot compute EDCM metrics."
  const DISABLED_FIXES: seq<string> := ["Enable analysis", "Provide 6–12 turns", "Use A:/B: speaker tags"]
  const DISABLED_SUMMARY: string := "Analysis is disabled. Enable analysis and provide dialogue turns to compute EDCM metrics."
  const MISSING_INPUT_ISSUE: string := "Missing conversation input."
  const SPEAKER_TAGS_ISSUE: string := "Speaker tags missing or ambiguous; attribution confidence is reduced."
  const EMPTY_SUMMARY: string := "No dialogue provided; EDCM requires conversation turns to measure constraint dynamics."
  const METRICS_SUMMARY: string := "EDCM produced instrument-only metrics. Values describe observable pattern measurements (not intent, diagnosis, or truth claims). Increase turn count and add speaker tags for higher-confidence attribution."

  function DisabledItem(id: string): HmmItem
  {
    HmmItem(id, DISABLED_ISSUE, [], ["Set enable_analysis=true."], Medium, ["ANALYSIS_DISABLED"])
  }

  function MissingInputItem(id: string): HmmItem
  {
    HmmItem(id, MISSING_INPUT_ISSUE, [],
      ["Provide text or turns[]", "Use one utterance per line with A:/B: speaker tags", "Provide 6–12 turns for stability"],
      High, ["MISSING_INPUT"])
  }

  function SpeakerTagsItem(id: string, evidence: seq<string>): HmmItem
  {
    HmmItem(id, SPEAKER_TAGS_ISSUE, evidence,
      ["Prefix each line with A:, B:, (optional C:)", "Keep one utterance per line",
       "Include ~10 lines before/after the key moment"],
      Medium, ["SPEAKER_TAGS"])
  }

  function FixActions(empty: bool): seq<string>
  {
    if empty then ["Paste a conversation excerpt", "Use speaker tags (A:/B:)", "Provide 6–12 turns"]
    else ["Provide 6–12 turns for stability", "Use consistent speaker tags (A:, B:, C:)",
          "Include context around any spike (10 lines before/after)"]
  }

  predicate HasUnknown(turns: seq<ConversationTurn>)
  {
    exists i :: 0 <= i < |turns| && turns[i].speaker == Unknown
  }

  /** `turns.slice(0, 4).map(t => t.text)`. */
  function Evidence(turns: seq<ConversationTurn>): seq<string>
  {
    var n := if |turns| < 4 then |turns| else 4;
    seq(n, i requires 0 <= i < n => turns[i].text)
  }

  function ModeOf(body: RequestBody): Mode
  {
    if body.mode.Some? then body.mode.value else General
  }

  /** The flags and items of the enabled path; the n-th item takes id `ids(n)`. */
  function EnabledChecks(turns: seq<ConversationTurn>, ids: nat -> string): (seq<EdcmFlag>, seq<HmmItem>)
  {
    var flags0 := if turns == [] then [InsufficientContext] else [];
    var items0 := if turns == [] then [MissingInputItem(ids(0))] else [];
    var flags1 := if HasUnknown(turns) then flags0 + [MissingSpeakerTags] else flags0;
    var items1 := if HasUnknown(turns) then items0 + [SpeakerTagsItem(ids(|items0|), Evidence(turns))] else items0;
    var flags2 := if 0 < |turns| < 3 then flags1 + [OverShortSample] else flags1;
    (flags2, items1)
  }

  /** analyzeEDCM over the keyword match counts of the normalised turns. */
  function AnalyzeOf(body: RequestBody, counts: MatchCounts, ids: nat -> string): EdcmResult
  {
    var turns := NormalizeTurnsOf(body);
    var metrics := HeuristicMetrics(counts);
    if body.enable_analysis == Some(false) then
      EdcmResult(ModeOf(body), turns, metrics, [LowConfidenceParse], [DisabledItem(ids(0))], DISABLED_SUMMARY,
        DISABLED_FIXES, None)
    else
      var (flags, items) := EnabledChecks(turns, ids);
      EdcmResult(ModeOf(body), turns, metrics, flags, items,
        if turns == [] then EMPTY_SUMMARY else METRICS_SUMMARY, FixActions(turns == []),
        Some(VersionedMetrics(SPEC_VERSION, metrics)))
  }

  /** analyzeEDCM: the disabled envelope, or the checks pushed in order. */
  method AnalyzeEDCM(body: RequestBody, counts: MatchCounts, ids: nat -> string) returns (res: EdcmResult)
    ensures res == AnalyzeOf(body, counts, ids)
  {
    var mode := if body.mode.Some? then body.mode.value else General;
    var turns := NormalizeTurns(body);
    var metrics := HeuristicMetrics(counts);
    assert mode == ModeOf(body);
    if body.enable_analysis == Some(false) {
      return EdcmResult(mode, turns, metrics, [LowConfidenceParse], [DisabledItem(ids(0))], DISABLED_SUMMARY,
        DISABLED_FIXES, None);
    }
    var flags, items := RunChecks(turns, ids);
    var summary := if turns == [] then EMPTY_SUMMARY else METRICS_SUMMARY;
    res := EdcmResult(mode, turns, metrics, flags, items, summary, FixActions(turns == []),
      Some(VersionedMetrics(SPEC_VERSION, metrics)));
  }

  /** The three checks of the enabled path, each pushing its flag and item. */
  method RunChecks(turns: seq<ConversationTurn>, ids: nat -> string) returns (flags: seq<EdcmFlag>, items: seq<HmmItem>)
    ensures (flags, items) == EnabledChecks(turns, ids)
  {
    flags := [];
    items := [];
    if |turns| == 0 {
      flags := [InsufficientContext];
      items := [MissingInputItem(ids(0))];
    }
    if HasUnknown(turns) {
      flags := flags + [MissingSpeakerTags];
      items := items + [SpeakerTagsItem(ids(|items|), Evidence(turns))];
    }
    if |turns| > 0 && |turns| < 3 {
      flags := flags + [OverShortSample];
    }
  }

  /** The position of a flag in the order the checks run. */
  function CheckRank(f: EdcmFlag): nat
  {
    match f
    case InsufficientContext => 0
    case MissingSpeakerTags => 1
    case OverShortSample => 2
    case _ => 3
  }

  /** With analysis disabled: the one low-confidence flag, the one medium item, and no versioned result. */
  lemma DisabledResult(body: RequestBody, counts: MatchCounts, ids: nat -> string)
    requires body.enable_analysis == Some(false)
    ensures var r := AnalyzeOf(body, counts, ids);
      r.quality_flags == [LowConfidenceParse] && |r.hmmm_items| == 1
      && r.hmmm_items[0].severity == Medium && r.hmmm_items[0].tags == ["ANALYSIS_DISABLED"]
      && r.edcm_result.None? && r.conversation_turns == NormalizeTurnsOf(body)
  {
  }

  /**
    The checks: each flag is raised exactly when its condition holds, in
    check order without repeats.
   */
  lemma EnabledFlagsMeaning(turns: seq<ConversationTurn>, ids: nat -> string)
    ensures var (flags, items) := EnabledChecks(turns, ids);
      (InsufficientContext in flags <==> turns == [])
      && (MissingSpeakerTags in flags <==> HasUnknown(turns))
      && (OverShortSample in flags <==> 1 <= |turns| <= 2)
      && (forall i, j :: 0 <= i < j < |flags| ==> CheckRank(flags[i]) < CheckRank(flags[j]))
      && (forall i :: 0 <= i < |flags| ==> CheckRank(flags[i]) < 3)
  {
    var flags := EnabledChecks(turns, ids).0;
    var u := HasUnknown(turns);
    if turns == [] {
      assert flags == [InsufficientContext];
    } else if u && |turns| < 3 {
      assert flags == [MissingSpeakerTags, OverShortSample];
    } else if u {
      assert flags == [MissingSpeakerTags];
    } else if |turns| < 3 {
      assert flags == [OverShortSample];
    } else {
      assert flags == [];
    }
    RankedFlags(flags);
  }

  /** The flag lists the checks can produce are in check order. */
  lemma RankedFlags(flags: seq<EdcmFlag>)
    requires flags == [] || flags == [InsufficientContext] || flags == [MissingSpeakerTags]
      || flags == [OverShortSample] || flags == [MissingSpeakerTags, OverShortSample]
    ensures forall i, j :: 0 <= i < j < |flags| ==> CheckRank(flags[i]) < CheckRank(flags[j])
    ensures forall i :: 0 <= i < |flags| ==> CheckRank(flags[i]) < 3
  {
  }

  /** An item accompanies each of the first two flags, the speaker-tag item citing the first four turn texts. */
  lemma EnabledItemsMeaning(turns: seq<ConversationTurn>, ids: nat -> string)
    ensures var items := EnabledChecks(turns, ids).1;
      |items| == (if turns == [] then 1 else 0) + (if HasUnknown(turns) then 1 else 0)
      && (HasUnknown(turns) ==> items[|items| - 1].evidence == Evidence(turns))
  {
  }

  /**
    With analysis enabled the envelope carries the normalised turns, the
    checks' flags and items, and a versioned result with the same metrics.
   */
  lemma EnabledResult(body: RequestBody, counts: MatchCounts, ids: nat -> string)
    requires body.enable_analysis != Some(false)
    ensures var r := AnalyzeOf(body, counts, ids);
      r.conversation_turns == NormalizeTurnsOf(body)
      && (r.quality_flags, r.hmmm_items) == EnabledChecks(r.conversation_turns, ids)
      && r.edcm_result == Some(VersionedMetrics(SPEC_VERSION, r.metrics))
      && r.metrics == HeuristicMetrics(counts)
  {
  }

  /** Missing input excludes the other two checks. */
  lemma InsufficientContextAlone(body: RequestBody, counts: MatchCounts, ids: nat -> string)
    requires body.enable_analysis != Some(false)
    requires InsufficientContext in AnalyzeOf(body, counts, ids).quality_flags
    ensures AnalyzeOf(body, counts, ids).quality_flags == [InsufficientContext]
    ensures |AnalyzeOf(body, counts, ids).hmmm_items| == 1
  {
    EnabledResult(body, counts, ids);
    EnabledFlagsMeaning(NormalizeTurnsOf(body), ids);
    EnabledItemsMeaning(NormalizeTurnsOf(body), ids);
  }

  /** The evidence is the first at most four turn texts, in order. */
  lemma EvidenceIsPrefix(turns: seq<ConversationTurn>)
    ensures |Evidence(turns)| == (if |turns| < 4 then |turns| else 4)
    ensures forall i :: 0 <= i < |Evidence(turns)| ==> Evidence(turns)[i] == turns[i].text
  {
  }

  /** The mode defaults to general, on both paths. */
  lemma ModeDefaultsToGeneral(body: RequestBody, counts: MatchCounts, ids: nat -> string)
    requires body.mode.None?
    ensures AnalyzeOf(body, counts, ids).mode == General
  {
  }
}
