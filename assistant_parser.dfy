/**
  parseTextToTurns of server/edcm-assistant.ts: pasted text is cut into
  non-blank lines; a line of the form `Speaker: text` opens a timed turn of
  five seconds, any other line continues the last turn, or, before the first
  turn, opens an "Unknown" turn with an uncertainty item. Afterwards the
  parser flags an empty result and an all-"Unknown" result.
 */
module AssistantParser {
  import opened Text
  import opened Optional
  import opened AudioTypes

  datatype HmmCategory = Assumption | Uncertainty | QualityFlagItem | NextAction

  /** HmmmItem; the fix action is never set by the parser and is not modelled. */
  datatype HmmmItem = HmmmItem(
    id: string,
    category: HmmCategory,
    severity: Severity,
    message: string,
    source: string,
    suggested_fix: Option<string>,
    resolved: bool)

  /** The length of the run of newlines that starts `s`. */
  function NewlineRun(s: string): (k: nat)
    ensures k <= |s|
    ensures forall j :: 0 <= j < k ==> s[j] == '\n'
  {
    if s != [] && s[0] == '\n' then 1 + NewlineRun(s[1..]) else 0
  }

  /** `s.split(/\n+/)`: the pieces between maximal runs of newlines. */
  function SplitNewlines(s: string): (r: seq<string>)
    ensures |r| >= 1
    ensures forall j :: 0 <= j < |r| ==> '\n' !in r[j]
    decreases |s|
  {
    var k := FirstIndex(s, '\n');
    if k == |s| then [s]
    else
      var run := NewlineRun(s[k..]);
      assert run >= 1;
      [s[..k]] + SplitNewlines(s[k + run..])
  }

  /** `filter(l => l.trim())`: the pieces that are not blank, in order. */
  function NonBlank(pieces: seq<string>): (r: seq<string>)
    ensures |r| <= |pieces|
    ensures forall j :: 0 <= j < |r| ==> Trim(r[j]) != []
    decreases |pieces|
  {
    if pieces == [] then []
    else
      var n := |pieces| - 1;
      NonBlank(pieces[..n]) + (if Trim(pieces[n]) != [] then [pieces[n]] else [])
  }

  function NonBlankLines(text: string): seq<string>
  {
    NonBlank(SplitNewlines(text))
  }

  /** A whitespace-only text has no non-blank line. */
  lemma {:induction false} NonBlankOfBlank(pieces: seq<string>)
    requires forall j :: 0 <= j < |pieces| ==> AllSpace(pieces[j])
    ensures NonBlank(pieces) == []
    decreases |pieces|
  {
    if pieces != [] {
      var n := |pieces| - 1;
      NonBlankOfBlank(pieces[..n]);
      TrimEmptyIff(pieces[n]);
    }
  }

  lemma {:induction false} SplitOfBlank(s: string)
    requires AllSpace(s)
    ensures forall j :: 0 <= j < |SplitNewlines(s)| ==> AllSpace(SplitNewlines(s)[j])
    decreases |s|
  {
    var k := FirstIndex(s, '\n');
    if k < |s| {
      var run := NewlineRun(s[k..]);
      SplitOfBlank(s[k + run..]);
    }
  }

  /** Blank text, the empty string included, has no lines to parse. */
  lemma BlankTextHasNoLines(text: string)
    requires AllSpace(text)
    ensures NonBlankLines(text) == []
  {
    SplitOfBlank(text);
    NonBlankOfBlank(SplitNewlines(text));
  }

  /** The characters of `[A-Za-z0-9_\s]`. */
  predicate IsNameChar(c: char)
  {
    ('A' <= c <= 'Z') || ('a' <= c <= 'z') || ('0' <= c <= '9') || c == '_' || IsSpace(c)
  }

  /** The length of the run of name characters that starts `s`. */
  function NameRun(s: string): (k: nat)
    ensures k <= |s|
  {
    if s != [] && IsNameChar(s[0]) then 1 + NameRun(s[1..]) else 0
  }

  /**
    `/^([A-Za-z0-9_\s]+):\s*(.+)$/` with its two groups. The name group is
    the whole run of name characters, which must be followed by a colon; the
    greedy `\s*` leaves the shortest non-empty remainder that `.+` can take,
    and that remainder may contain no line terminator.
   */
  function MatchSpeakerLine(line: string): Option<(string, string)>
  {
    var k := NameRun(line);
    if k == 0 || k == |line| || line[k] != ':' then None
    else
      match SpacedRest(line[k + 1..])
      case Some(body) => Some((line[..k], body))
      case None => None
  }

  const TURN_MS: int := 5000
  const UNKNOWN_SPEAKER: string := "Unknown"

  /** The parser's running state: the turns so far, the items so far and the clock. */
  datatype ParseState = ParseState(turns: seq<Turn>, items: seq<HmmmItem>, currentMs: int)

  function UnattributedItem(id: string, i: nat): HmmmItem
  {
    HmmmItem(id, Uncertainty, Med, "Line " + NatToString(i + 1) + " has no speaker attribution", "parser",
      Some("Add speaker prefix like 'Speaker A: ...'"), false)
  }

  /** One trimmed line, at index `i` among the non-blank lines; the n-th item takes id `ids(n)`. */
  function StepLine(st: ParseState, i: nat, line: string, ids: nat -> string): ParseState
  {
    match MatchSpeakerLine(line)
    case Some((speaker, text)) =>
      ParseState(st.turns + [Turn(Trim(speaker), st.currentMs, st.currentMs + TURN_MS, Trim(text))],
        st.items, st.currentMs + TURN_MS)
    case None =>
      if |st.turns| > 0 then
        var last := st.turns[|st.turns| - 1];
        ParseState(st.turns[|st.turns| - 1 := last.(text := last.text + " " + line)], st.items, st.currentMs)
      else
        ParseState([Turn(UNKNOWN_SPEAKER, st.currentMs, st.currentMs + TURN_MS, line)],
          st.items + [UnattributedItem(ids(|st.items|), i)], st.currentMs + TURN_MS)
  }

  /** The state after the loop over `lines`. */
  function ParseLines(lines: seq<string>, ids: nat -> string): ParseState
    decreases |lines|
  {
    if lines == [] then ParseState([], [], 0)
    else
      var n := |lines| - 1;
      StepLine(ParseLines(lines[..n], ids), n, Trim(lines[n]), ids)
  }

  const NO_TURNS_MESSAGE: string := "No conversation turns could be parsed"
  const ALL_UNKNOWN_MESSAGE: string := "All turns assigned to 'Unknown' speaker"

  function NoTurnsItem(id: string): HmmmItem
  {
    HmmmItem(id, QualityFlagItem, High, NO_TURNS_MESSAGE, "parser",
      Some("Format text as 'Speaker: message' on each line"), false)
  }

  function AllUnknownItem(id: string): HmmmItem
  {
    HmmmItem(id, Assumption, Med, ALL_UNKNOWN_MESSAGE, "parser", Some("Manually rename speakers in the editor"), false)
  }

  /** The two checks after the loop. */
  function Finish(st: ParseState, ids: nat -> string): (seq<Turn>, seq<HmmmItem>)
  {
    var items1 := if |st.turns| == 0 then st.items + [NoTurnsItem(ids(|st.items|))] else st.items;
    var items2 := if TurnSpeakerSet(st.turns) == {UNKNOWN_SPEAKER} then items1 + [AllUnknownItem(ids(|items1|))]
      else items1;
    (st.turns, items2)
  }

  /** parseTextToTurns as a function of the text and the id source. */
  function Parse(text: string, ids: nat -> string): (seq<Turn>, seq<HmmmItem>)
  {
    Finish(ParseLines(NonBlankLines(text), ids), ids)
  }

  /** parseTextToTurns: the loop over the lines, then the two checks. */
  method ParseTextToTurns(text: string, ids: nat -> string) returns (turns: seq<Turn>, hmmItems: seq<HmmmItem>)
    ensures (turns, hmmItems) == Parse(text, ids)
  {
    var lines := NonBlankLines(text);
    turns := [];
    hmmItems := [];
    var currentMs := 0;
    for i := 0 to |lines|
      invariant ParseState(turns, hmmItems, currentMs) == ParseLines(lines[..i], ids)
    {
      assert lines[..i + 1][..i] == lines[..i];
      turns, hmmItems, currentMs := ParseLine(turns, hmmItems, currentMs, i, Trim(lines[i]), ids);
    }
    assert lines[..|lines|] == lines;
    turns, hmmItems := FinishChecks(ParseState(turns, hmmItems, currentMs), ids);
  }

  /** The loop body for one trimmed line. */
  method ParseLine(turns0: seq<Turn>, items0: seq<HmmmItem>, ms0: int, i: nat, line: string, ids: nat -> string)
    returns (turns: seq<Turn>, hmmItems: seq<HmmmItem>, currentMs: int)
    ensures ParseState(turns, hmmItems, currentMs) == StepLine(ParseState(turns0, items0, ms0), i, line, ids)
  {
    turns, hmmItems, currentMs := turns0, items0, ms0;
    var m := MatchSpeakerLine(line);
    if m.Some? {
      var (speaker, text) := m.value;
      turns := turns + [Turn(Trim(speaker), currentMs, currentMs + TURN_MS, Trim(text))];
      currentMs := currentMs + TURN_MS;
    } else if |turns| > 0 {
      var last := turns[|turns| - 1];
      turns := turns[|turns| - 1 := last.(text := last.text + " " + line)];
    } else {
      hmmItems := hmmItems + [UnattributedItem(ids(|hmmItems|), i)];
      turns := turns + [Turn(UNKNOWN_SPEAKER, currentMs, currentMs + TURN_MS, line)];
      currentMs := currentMs + TURN_MS;
    }
  }

  /** The two checks after the loop, each pushing its item. */
  method FinishChecks(st: ParseState, ids: nat -> string) returns (turns: seq<Turn>, hmmItems: seq<HmmmItem>)
    ensures (turns, hmmItems) == Finish(st, ids)
  {
    turns := st.turns;
    hmmItems := st.items;
    if |turns| == 0 {
      hmmItems := hmmItems + [NoTurnsItem(ids(|hmmItems|))];
    }
    var speakers := TurnSpeakerSet(turns);
    if speakers == {UNKNOWN_SPEAKER} {
      hmmItems := hmmItems + [AllUnknownItem(ids(|hmmItems|))];
    }
  }
}

module AssistantParserFacts {
  import opened Text
  import opened Optional
  import opened AudioTypes
  import opened AssistantParser

  predicate AllNameChars(s: string)
  {
    forall j :: 0 <= j < |s| ==> IsNameChar(s[j])
  }

  /** The name run is the longest prefix of name characters. */
  lemma {:induction false} NameRunMaximal(s: string)
    ensures AllNameChars(s[..NameRun(s)])
    ensures NameRun(s) < |s| ==> !IsNameChar(s[NameRun(s)])
    decreases |s|
  {
    if s != [] && IsNameChar(s[0]) {
      NameRunMaximal(s[1..]);
      var k := NameRun(s);
      forall j | 0 <= j < k ensures IsNameChar(s[..k][j]) {
        if j > 0 {
          assert s[..k][j] == s[1..][..k - 1][j - 1];
        }
      }
    }
  }

  /** `line` is `name`, a colon, whitespace and `body`. */
  predicate SpeakerLineShape(line: string, name: string, body: string)
  {
    |name| + 1 + |body| <= |line|
    && line == name + ":" + line[|name| + 1..|line| - |body|] + body
    && AllNameChars(name) && name != []
    && AllSpace(line[|name| + 1..|line| - |body|])
    && body != [] && NoLineTerminator(body)
  }

  lemma ShapeOf(line: string, k: nat, body: string)
    requires 0 < k < |line| && line[k] == ':' && AllNameChars(line[..k])
    requires |body| <= |line| - k - 1 && body == line[|line| - |body|..]
    requires AllSpace(line[k + 1..|line| - |body|])
    requires body != [] && NoLineTerminator(body)
    ensures SpeakerLineShape(line, line[..k], body)
  {
    assert line == line[..k] + [line[k]] + line[k + 1..|line| - |body|] + line[|line| - |body|..];
  }

  /**
    Soundness of the speaker-line recogniser: a match splits the line into a
    non-empty run of name characters, a colon, whitespace and a non-empty
    remainder free of line terminators.
   */
  lemma MatchSpeakerLineSound(line: string)
    ensures MatchSpeakerLine(line).Some? ==>
      SpeakerLineShape(line, MatchSpeakerLine(line).value.0, MatchSpeakerLine(line).value.1)
  {
    var k := NameRun(line);
    if k != 0 && k != |line| && line[k] == ':' {
      NameRunMaximal(line);
      var rest := line[k + 1..];
      SpacedRestSound(rest);
      if SpacedRest(rest).Some? {
        var v := SpacedRest(rest).value;
        assert line[k + 1..|line| - |v|] == rest[..|rest| - |v|];
        ShapeOf(line, k, v);
      }
    }
  }

  /** Completeness: every line of that shape matches, and the name group is the whole name. */
  lemma MatchSpeakerLineComplete(name: string, ws: string, body: string)
    requires name != [] && AllNameChars(name) && AllSpace(ws)
    requires body != [] && NoLineTerminator(body)
    ensures var r := MatchSpeakerLine(name + ":" + ws + body);
      r.Some? && r.value.0 == name
  {
    var line := name + ":" + ws + body;
    NameRunOf(name, ":" + ws + body);
    assert line == name + (":" + ws + body);
    assert line[|name| + 1..] == ws + body;
    assert line[..|name|] == name;
    SpacedRestComplete(ws, body);
  }

  /** The name run stops exactly at the end of a name followed by a colon. */
  lemma {:induction false} NameRunOf(name: string, tail: string)
    requires AllNameChars(name) && tail != [] && !IsNameChar(tail[0])
    ensures NameRun(name + tail) == |name|
    decreases |name|
  {
    if name != [] {
      assert (name + tail)[1..] == name[1..] + tail;
      NameRunOf(name[1..], tail);
    } else {
      assert name + tail == tail;
    }
  }

  /** The loop's invariant, stated for the state after `lines`. */
  predicate Timed(turns: seq<Turn>, currentMs: int)
  {
    currentMs == TURN_MS * |turns|
    && forall k :: 0 <= k < |turns| ==> turns[k].start_ms == TURN_MS * k && turns[k].end_ms == TURN_MS * k + TURN_MS
  }

  /** After the loop there is at most one turn per non-blank line, and at least one when there is a line. */
  lemma {:induction false} ParseLinesCount(lines: seq<string>, ids: nat -> string)
    ensures |ParseLines(lines, ids).turns| <= |lines|
    ensures ParseLines(lines, ids).turns == [] <==> lines == []
    decreases |lines|
  {
    if lines != [] {
      ParseLinesCount(lines[..|lines| - 1], ids);
    }
  }

  /** The k-th turn spans [5000k, 5000k + 5000] and the clock stands at the end of the last turn. */
  lemma {:induction false} ParseLinesTimed(lines: seq<string>, ids: nat -> string)
    ensures Timed(ParseLines(lines, ids).turns, ParseLines(lines, ids).currentMs)
    decreases |lines|
  {
    if lines != [] {
      var n := |lines| - 1;
      ParseLinesTimed(lines[..n], ids);
      ParseLinesCount(lines[..n], ids);
    }
  }

  /**
    The only item the loop can raise is the uncertainty item of line 1,
    and it is raised exactly when the first non-blank line does not match.
   */
  lemma {:induction false} ParseLinesItems(lines: seq<string>, ids: nat -> string)
    ensures var items := ParseLines(lines, ids).items;
      (items == [] || items == [UnattributedItem(ids(0), 0)])
      && (items != [] <==> (lines != [] && MatchSpeakerLine(Trim(lines[0])).None?))
    decreases |lines|
  {
    if lines != [] {
      var n := |lines| - 1;
      ParseLinesItems(lines[..n], ids);
      ParseLinesCount(lines[..n], ids);
      if n > 0 {
        assert lines[..n][0] == lines[0];
      }
    }
  }

  /**
    An unmatched line after the first turn joins the last turn's text with
    one space; no turn is added, the clock does not move and no item is
    raised.
   */
  lemma UnmatchedLineContinues(st: ParseState, i: nat, line: string, ids: nat -> string)
    requires st.turns != [] && MatchSpeakerLine(line).None?
    ensures var r := StepLine(st, i, line, ids);
      var n := |st.turns| - 1;
      |r.turns| == |st.turns| && r.turns[..n] == st.turns[..n]
      && r.turns[n].text == st.turns[n].text + " " + line
      && r.turns[n].speaker == st.turns[n].speaker
      && r.turns[n].start_ms == st.turns[n].start_ms && r.turns[n].end_ms == st.turns[n].end_ms
      && r.currentMs == st.currentMs && r.items == st.items
  {
  }

  /** A matched line adds one five-second turn with the trimmed speaker and text. */
  lemma MatchedLineOpensTurn(st: ParseState, i: nat, line: string, ids: nat -> string)
    requires MatchSpeakerLine(line).Some?
    ensures var r := StepLine(st, i, line, ids);
      var (speaker, text) := MatchSpeakerLine(line).value;
      r.turns == st.turns + [Turn(Trim(speaker), st.currentMs, st.currentMs + TURN_MS, Trim(text))]
      && r.currentMs == st.currentMs + TURN_MS && r.items == st.items
  {
  }

  predicate HasMessage(items: seq<HmmmItem>, m: string)
  {
    exists j :: 0 <= j < |items| && items[j].message == m
  }

  predicate AllUnresolved(items: seq<HmmmItem>)
  {
    forall j :: 0 <= j < |items| ==> !items[j].resolved
  }

  /**
    The whole parse: turns are bounded by the non-blank lines, timed
    contiguously from 0, no item is resolved; the no-turns item is raised
    exactly for text without a non-blank line, and the all-"Unknown" item
    exactly when there are turns and every speaker is "Unknown".
   */
  /** The two checks after the loop, given what the loop leaves in the items. */
  lemma FinishItems(st: ParseState, ids: nat -> string)
    requires st.items == [] || st.items == [UnattributedItem(ids(0), 0)]
    requires st.turns == [] ==> st.items == []
    ensures var items := Finish(st, ids).1;
      AllUnresolved(items)
      && (st.turns == [] ==> items == [NoTurnsItem(ids(0))])
      && (st.turns != [] ==> (HasMessage(items, ALL_UNKNOWN_MESSAGE) <==> TurnSpeakerSet(st.turns) == {UNKNOWN_SPEAKER}))
      && |items| <= 2
  {
    var items := Finish(st, ids).1;
    if st.turns == [] {
      assert TurnSpeakerSet(st.turns) == {};
      assert UNKNOWN_SPEAKER in {UNKNOWN_SPEAKER};
    } else if TurnSpeakerSet(st.turns) != {UNKNOWN_SPEAKER} {
      assert items == st.items;
      forall j | 0 <= j < |items| ensures items[j].message != ALL_UNKNOWN_MESSAGE {
        assert items[j] == UnattributedItem(ids(0), 0);
        assert items[j].message[0] == 'L' && ALL_UNKNOWN_MESSAGE[0] == 'A';
      }
    } else {
      assert items[|items| - 1].message == ALL_UNKNOWN_MESSAGE;
    }
  }

  lemma ParseShape(text: string, ids: nat -> string)
    ensures var (turns, items) := Parse(text, ids);
      var lines := NonBlankLines(text);
      |turns| <= |lines|
      && (turns == [] <==> lines == [])
      && (forall k :: 0 <= k < |turns| ==> turns[k].start_ms == TURN_MS * k && turns[k].end_ms == TURN_MS * k + TURN_MS)
      && AllUnresolved(items)
      && (turns == [] ==> items == [NoTurnsItem(ids(0))])
      && (turns != [] ==> (HasMessage(items, ALL_UNKNOWN_MESSAGE) <==> TurnSpeakerSet(turns) == {UNKNOWN_SPEAKER}))
      && |items| <= 2
  {
    var lines := NonBlankLines(text);
    var st := ParseLines(lines, ids);
    ParseLinesCount(lines, ids);
    ParseLinesTimed(lines, ids);
    ParseLinesItems(lines, ids);
    FinishItems(st, ids);
  }

  /** Blank text, the empty string included, gives no turn and exactly the one high no-turns item. */
  lemma BlankTextParse(text: string, ids: nat -> string)
    requires AllSpace(text)
    ensures Parse(text, ids) == ([], [NoTurnsItem(ids(0))])
    ensures NoTurnsItem(ids(0)).severity == High && NoTurnsItem(ids(0)).category == QualityFlagItem
  {
    BlankTextHasNoLines(text);
    ParseShape(text, ids);
  }
}
