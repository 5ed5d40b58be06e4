/**
  buildConversationTurns of server/audio-discernment.ts: consecutive segments
  of the same speaker merge into one turn that keeps the first segment's
  start, takes the last segment's end and joins the texts with a space.
 */
module TurnBuilder {
  import opened Text
  import opened Optional
  import opened AudioTypes

  /** A fresh turn made from one segment. */
  function StartTurn(x: Segment): Turn
  {
    Turn(x.speaker_id, x.start_ms, x.end_ms, x.text)
  }

  /** The current turn absorbing a segment of the same speaker. */
  function Extend(t: Turn, x: Segment): Turn
  {
    t.(end_ms := x.end_ms, text := t.text + " " + x.text)
  }

  /** One step of the merge: extend the open turn when the speaker is unchanged, otherwise open a new one. */
  function AddSegment(turns: seq<Turn>, x: Segment): (r: seq<Turn>)
    ensures r != [] && r[|r| - 1].speaker == x.speaker_id && r[|r| - 1].end_ms == x.end_ms
    ensures |turns| <= |r| <= |turns| + 1
    ensures r[..|r| - 1] == turns[..|r| - 1]
  {
    if turns != [] && turns[|turns| - 1].speaker == x.speaker_id then
      turns[..|turns| - 1] + [Extend(turns[|turns| - 1], x)]
    else
      turns + [StartTurn(x)]
  }

  /** The turns of a segment list: the merge applied to each segment in order. */
  function TurnsOf(segs: seq<Segment>): (r: seq<Turn>)
    ensures |r| <= |segs|
    ensures r == [] <==> segs == []
    ensures segs != [] ==> r[|r| - 1].speaker == segs[|segs| - 1].speaker_id
    ensures segs != [] ==> r[|r| - 1].end_ms == segs[|segs| - 1].end_ms
    decreases |segs|
  {
    if segs == [] then [] else AddSegment(TurnsOf(segs[..|segs| - 1]), segs[|segs| - 1])
  }

  lemma TurnsOfSnoc(segs: seq<Segment>, i: nat)
    requires i < |segs|
    ensures TurnsOf(segs[..i + 1]) == AddSegment(TurnsOf(segs[..i]), segs[i])
  {
    assert segs[..i + 1][..i] == segs[..i];
  }

  /** buildConversationTurns, with the open turn held apart until the speaker changes. */
  method BuildConversationTurns(segments: seq<Segment>) returns (turns: seq<Turn>)
    ensures turns == TurnsOf(segments)
  {
    if |segments| == 0 {
      return [];
    }
    turns := [];
    var currentTurn: Option<Turn> := None;
    for i := 0 to |segments|
      invariant currentTurn.None? <==> i == 0
      invariant currentTurn.None? ==> turns == []
      invariant currentTurn.Some? ==> turns + [currentTurn.value] == TurnsOf(segments[..i])
    {
      TurnsOfSnoc(segments, i);
      var segment := segments[i];
      if currentTurn.None? || currentTurn.value.speaker != segment.speaker_id {
        if currentTurn.Some? {
          turns := turns + [currentTurn.value];
        }
        currentTurn := Some(Turn(
          speaker := segment.speaker_id,
          start_ms := segment.start_ms,
          end_ms := segment.end_ms,
          text := segment.text));
      } else {
        var t := currentTurn.value;
        assert (turns + [t])[..|turns|] == turns;
        currentTurn := Some(t.(end_ms := segment.end_ms, text := t.text + " " + segment.text));
      }
    }
    if currentTurn.Some? {
      turns := turns + [currentTurn.value];
    }
    assert segments[..|segments|] == segments;
  }

  /** No two adjacent turns have the same speaker. */
  ghost predicate Alternating(turns: seq<Turn>)
  {
    forall i :: 0 <= i < |turns| - 1 ==> turns[i].speaker != turns[i + 1].speaker
  }

  lemma {:induction false} TurnsAlternate(segs: seq<Segment>)
    ensures Alternating(TurnsOf(segs))
    decreases |segs|
  {
    if segs != [] {
      var init := segs[..|segs| - 1];
      TurnsAlternate(init);
      var p := TurnsOf(init);
      var r := TurnsOf(segs);
      forall i | 0 <= i < |r| - 1 ensures r[i].speaker != r[i + 1].speaker {
        assert r[i] == p[i];
        if i + 1 < |r| - 1 {
          assert r[i + 1] == p[i + 1];
        } else if |r| == |p| {
          assert r[i + 1].speaker == p[i + 1].speaker;
        }
      }
    }
  }

  /** The speakers of a turn list, in a form that follows the merge. */
  lemma TurnSpeakersSnoc(turns: seq<Turn>, t: Turn)
    ensures TurnSpeakerSet(turns + [t]) == TurnSpeakerSet(turns) + {t.speaker}
  {
    var r := turns + [t];
    forall sp | sp in TurnSpeakerSet(r) ensures sp in TurnSpeakerSet(turns) + {t.speaker} {
      var i :| 0 <= i < |r| && r[i].speaker == sp;
      if i < |turns| {
        assert turns[i] == r[i];
      }
    }
    forall sp | sp in TurnSpeakerSet(turns) ensures sp in TurnSpeakerSet(r) {
      var i :| 0 <= i < |turns| && turns[i].speaker == sp;
      assert r[i] == turns[i];
    }
    assert r[|turns|] == t;
  }

  /** Merging never invents or loses a speaker. */
  lemma {:induction false} TurnsKeepSpeakers(segs: seq<Segment>)
    ensures TurnSpeakerSet(TurnsOf(segs)) == SpeakerSet(segs)
    decreases |segs|
  {
    if segs != [] {
      var init := segs[..|segs| - 1];
      var x := segs[|segs| - 1];
      TurnsKeepSpeakers(init);
      SegmentSpeakersSnoc(init, x);
      assert init + [x] == segs;
      var p := TurnsOf(init);
      assert SpeakerSet(segs) == TurnSpeakerSet(p) + {x.speaker_id};
      if p != [] && p[|p| - 1].speaker == x.speaker_id {
        var q := p[..|p| - 1];
        var t := p[|p| - 1];
        TurnSpeakersSnoc(q, t);
        TurnSpeakersSnoc(q, Extend(t, x));
        assert q + [t] == p;
        assert TurnsOf(segs) == q + [Extend(t, x)];
        assert TurnSpeakerSet(p) == TurnSpeakerSet(q) + {x.speaker_id};
      } else {
        assert TurnsOf(segs) == p + [StartTurn(x)];
        TurnSpeakersSnoc(p, StartTurn(x));
      }
    }
  }

  function SegmentTexts(segs: seq<Segment>): (r: seq<string>)
    ensures |r| == |segs|
    decreases |segs|
  {
    if segs == [] then [] else SegmentTexts(segs[..|segs| - 1]) + [segs[|segs| - 1].text]
  }

  function TurnTexts(turns: seq<Turn>): (r: seq<string>)
    ensures |r| == |turns|
    decreases |turns|
  {
    if turns == [] then [] else TurnTexts(turns[..|turns| - 1]) + [turns[|turns| - 1].text]
  }

  lemma JoinSpaceSnoc(parts: seq<string>, a: string)
    ensures JoinSpace(parts + [a]) == if parts == [] then a else JoinSpace(parts) + " " + a
  {
    assert (parts + [a])[..|parts|] == parts;
  }

  lemma TurnTextsSnoc(turns: seq<Turn>, t: Turn)
    ensures TurnTexts(turns + [t]) == TurnTexts(turns) + [t.text]
  {
    assert (turns + [t])[..|turns|] == turns;
  }

  lemma SegmentTextsSnoc(segs: seq<Segment>, x: Segment)
    ensures SegmentTexts(segs + [x]) == SegmentTexts(segs) + [x.text]
  {
    assert (segs + [x])[..|segs|] == segs;
  }

  /** Extending the last turn appends the segment's text to the joined turn texts. */
  lemma JoinExtend(q: seq<Turn>, last: Turn, x: Segment)
    ensures JoinSpace(TurnTexts(q + [Extend(last, x)])) == JoinSpace(TurnTexts(q + [last])) + " " + x.text
  {
    TurnTextsSnoc(q, Extend(last, x));
    TurnTextsSnoc(q, last);
    JoinSpaceSnoc(TurnTexts(q), last.text + " " + x.text);
    JoinSpaceSnoc(TurnTexts(q), last.text);
  }

  /** Opening a new turn appends the segment's text to the joined turn texts. */
  lemma JoinStart(p: seq<Turn>, x: Segment)
    ensures JoinSpace(TurnTexts(p + [StartTurn(x)])) == if p == [] then x.text else JoinSpace(TurnTexts(p)) + " " + x.text
  {
    TurnTextsSnoc(p, StartTurn(x));
    JoinSpaceSnoc(TurnTexts(p), x.text);
  }

  /**
    Merging keeps every word: the turn texts joined with spaces are the
    segment texts joined with spaces.
   */
  lemma {:induction false} TurnsKeepText(segs: seq<Segment>)
    ensures JoinSpace(TurnTexts(TurnsOf(segs))) == JoinSpace(SegmentTexts(segs))
    decreases |segs|
  {
    if segs != [] {
      var init := segs[..|segs| - 1];
      var x := segs[|segs| - 1];
      assert init + [x] == segs;
      TurnsKeepText(init);
      SegmentTextsSnoc(init, x);
      JoinSpaceSnoc(SegmentTexts(init), x.text);
      var p := TurnsOf(init);
      if p != [] && p[|p| - 1].speaker == x.speaker_id {
        var q := p[..|p| - 1];
        var last := p[|p| - 1];
        assert q + [last] == p;
        assert TurnsOf(segs) == q + [Extend(last, x)];
        JoinExtend(q, last, x);
      } else {
        assert TurnsOf(segs) == p + [StartTurn(x)];
        JoinStart(p, x);
      }
    }
  }

  /** No two adjacent segments share a speaker. */
  ghost predicate SpeakerChangesEverySegment(segs: seq<Segment>)
  {
    forall i :: 0 <= i < |segs| - 1 ==> segs[i].speaker_id != segs[i + 1].speaker_id
  }

  /** When the speaker changes at every segment, each segment becomes its own turn. */
  lemma {:induction false} TurnsOfAlternatingSegments(segs: seq<Segment>)
    requires SpeakerChangesEverySegment(segs)
    ensures |TurnsOf(segs)| == |segs|
    ensures forall i :: 0 <= i < |segs| ==> TurnsOf(segs)[i] == StartTurn(segs[i])
    decreases |segs|
  {
    if segs != [] {
      var n := |segs| - 1;
      var init := segs[..n];
      assert SpeakerChangesEverySegment(init) by {
        forall i | 0 <= i < |init| - 1 ensures init[i].speaker_id != init[i + 1].speaker_id {
          assert init[i] == segs[i] && init[i + 1] == segs[i + 1];
        }
      }
      TurnsOfAlternatingSegments(init);
      var p := TurnsOf(init);
      if n > 0 {
        assert p[n - 1] == StartTurn(segs[n - 1]);
      }
      assert TurnsOf(segs) == p + [StartTurn(segs[n])];
    }
  }

  /** A turn read back as a segment, as when the merge is fed its own output. */
  function TurnAsSegment(t: Turn, confidence: real): (x: Segment)
    ensures StartTurn(x) == t
  {
    Segment(t.start_ms, t.end_ms, t.speaker, t.text, confidence, false)
  }

  function TurnsAsSegments(turns: seq<Turn>, confidence: real): (r: seq<Segment>)
    ensures |r| == |turns|
    ensures forall i :: 0 <= i < |turns| ==> r[i] == TurnAsSegment(turns[i], confidence)
  {
    seq(|turns|, i requires 0 <= i < |turns| => TurnAsSegment(turns[i], confidence))
  }

  /** Merging is idempotent: the turns, read back as segments, merge into themselves. */
  lemma MergeIdempotent(segs: seq<Segment>, confidence: real)
    ensures TurnsOf(TurnsAsSegments(TurnsOf(segs), confidence)) == TurnsOf(segs)
  {
    var turns := TurnsOf(segs);
    var again := TurnsAsSegments(turns, confidence);
    TurnsAlternate(segs);
    assert SpeakerChangesEverySegment(again) by {
      forall i | 0 <= i < |again| - 1 ensures again[i].speaker_id != again[i + 1].speaker_id {
        assert again[i].speaker_id == turns[i].speaker;
        assert again[i + 1].speaker_id == turns[i + 1].speaker;
      }
    }
    TurnsOfAlternatingSegments(again);
  }

  /** Segments laid end to end. */
  ghost predicate Contiguous(segs: seq<Segment>)
  {
    forall i :: 0 <= i < |segs| - 1 ==> segs[i].end_ms == segs[i + 1].start_ms
  }

  /** Turns laid end to end. */
  ghost predicate TurnsContiguous(turns: seq<Turn>)
  {
    forall i :: 0 <= i < |turns| - 1 ==> turns[i].end_ms == turns[i + 1].start_ms
  }

  /** The first turn starts where the first segment starts. */
  lemma {:induction false} TurnsKeepStart(segs: seq<Segment>)
    requires segs != []
    ensures TurnsOf(segs)[0].start_ms == segs[0].start_ms
    decreases |segs|
  {
    var n := |segs| - 1;
    if n > 0 {
      var init := segs[..n];
      TurnsKeepStart(init);
      assert init[0] == segs[0];
      assert TurnsOf(segs)[0] == TurnsOf(init)[0] || |TurnsOf(init)| == 1;
    }
  }

  /** One merge step keeps turns contiguous when the segment starts where the last turn ends. */
  lemma AddSegmentContiguous(p: seq<Turn>, x: Segment)
    requires TurnsContiguous(p)
    requires p != [] ==> p[|p| - 1].end_ms == x.start_ms
    ensures TurnsContiguous(AddSegment(p, x))
  {
    var r := AddSegment(p, x);
    forall i | 0 <= i < |r| - 1 ensures r[i].end_ms == r[i + 1].start_ms {
      assert r[i] == p[i];
      if i + 1 < |r| - 1 {
        assert r[i + 1] == p[i + 1];
      }
    }
  }

  /** Contiguous segments give contiguous turns. */
  lemma {:induction false} TurnsKeepContiguity(segs: seq<Segment>)
    requires Contiguous(segs)
    ensures TurnsContiguous(TurnsOf(segs))
    decreases |segs|
  {
    if segs != [] {
      var n := |segs| - 1;
      var init := segs[..n];
      ContiguousInit(segs);
      TurnsKeepContiguity(init);
      var p := TurnsOf(init);
      if n > 0 {
        assert p[|p| - 1].end_ms == init[n - 1].end_ms;
        assert init[n - 1] == segs[n - 1];
        assert segs[n - 1].end_ms == segs[n].start_ms;
      }
      assert TurnsOf(segs) == AddSegment(p, segs[n]);
      AddSegmentContiguous(p, segs[n]);
    }
  }

  lemma ContiguousInit(segs: seq<Segment>)
    requires segs != [] && Contiguous(segs)
    ensures Contiguous(segs[..|segs| - 1])
  {
    var init := segs[..|segs| - 1];
    forall i | 0 <= i < |init| - 1 ensures init[i].end_ms == init[i + 1].start_ms {
      assert init[i] == segs[i] && init[i + 1] == segs[i + 1];
    }
  }

  // ---------------------------------------------------------------------
  // Turns are the maximal same-speaker runs
  // ---------------------------------------------------------------------

  /**
    The positions where the runs of one speaker begin, followed by the
    length: a new run begins at 0 and wherever the speaker changes.
   */
  function RunBounds(segs: seq<Segment>): (b: seq<nat>)
    ensures |b| >= 1
    decreases |segs|
  {
    if segs == [] then [0]
    else
      var n := |segs| - 1;
      var c := RunBounds(segs[..n]);
      if n > 0 && segs[n - 1].speaker_id == segs[n].speaker_id then c[..|c| - 1] + [n + 1] else c + [n + 1]
  }

  /**
    Turn `t` is the merge of the run `segs[lo..hi]`: one speaker
    throughout, from the run's first start to its last end, carrying the
    run's texts joined with spaces.
   */
  ghost predicate IsRun(segs: seq<Segment>, t: Turn, lo: nat, hi: nat)
  {
    lo < hi <= |segs|
    && (forall k :: lo <= k < hi ==> segs[k].speaker_id == t.speaker)
    && t.start_ms == segs[lo].start_ms && t.end_ms == segs[hi - 1].end_ms
    && t.text == JoinSpace(SegmentTexts(segs[lo..hi]))
  }

  /** The speaker changes between segment `k - 1` and segment `k`. */
  ghost predicate SpeakerChangesAt(segs: seq<Segment>, k: nat)
  {
    0 < k < |segs| && segs[k - 1].speaker_id != segs[k].speaker_id
  }

  /**
    `b` cuts `segs` into the runs that make `turns`: `0 = b[0] < b[1] < ...
    < b[|turns|] = |segs|`, turn `j` is the merge of `segs[b[j]..b[j + 1]]`,
    and the speaker changes at every inner cut, so each run is maximal.
   */
  ghost predicate RunsOf(segs: seq<Segment>, turns: seq<Turn>, b: seq<nat>)
  {
    |b| == |turns| + 1 && b[0] == 0 && b[|turns|] == |segs|
    && (forall j :: 0 <= j < |turns| ==> IsRun(segs, turns[j], b[j], b[j + 1]))
    && (forall j :: 0 < j < |turns| ==> SpeakerChangesAt(segs, b[j]))
  }

  /**
    Each turn is exactly one maximal run of same-speaker segments: it keeps
    the run's first start, takes its last end and joins its texts.
   */
  lemma {:induction false} TurnsAreRuns(segs: seq<Segment>)
    ensures RunsOf(segs, TurnsOf(segs), RunBounds(segs))
    decreases |segs|
  {
    if segs != [] {
      var n := |segs| - 1;
      TurnsAreRuns(segs[..n]);
      if n > 0 && segs[n - 1].speaker_id == segs[n].speaker_id {
        ExtendRunStep(segs);
      } else {
        OpenRunStep(segs);
      }
    }
  }

  /** A run of the prefix is a run of the whole list. */
  lemma IsRunPrefix(segs: seq<Segment>, n: nat, t: Turn, lo: nat, hi: nat)
    requires n <= |segs| && IsRun(segs[..n], t, lo, hi)
    ensures IsRun(segs, t, lo, hi)
  {
    assert segs[lo..hi] == segs[..n][lo..hi];
    forall k | lo <= k < hi ensures segs[k].speaker_id == t.speaker {
      assert segs[k] == segs[..n][k];
    }
  }

  /** The texts of a run one segment longer. */
  lemma RunTextSnoc(segs: seq<Segment>, lo: nat, n: nat)
    requires lo < n < |segs|
    ensures JoinSpace(SegmentTexts(segs[lo..n + 1])) == JoinSpace(SegmentTexts(segs[lo..n])) + " " + segs[n].text
  {
    assert segs[lo..n + 1] == segs[lo..n] + [segs[n]];
    SegmentTextsSnoc(segs[lo..n], segs[n]);
    JoinSpaceSnoc(SegmentTexts(segs[lo..n]), segs[n].text);
  }

  /** A segment of the same speaker as the one before it lengthens the last run. */
  lemma ExtendRunStep(segs: seq<Segment>)
    requires |segs| > 1
    requires segs[|segs| - 2].speaker_id == segs[|segs| - 1].speaker_id
    requires RunsOf(segs[..|segs| - 1], TurnsOf(segs[..|segs| - 1]), RunBounds(segs[..|segs| - 1]))
    ensures RunsOf(segs, TurnsOf(segs), RunBounds(segs))
  {
    var n := |segs| - 1;
    var init := segs[..n];
    var p, c := TurnsOf(init), RunBounds(init);
    var m := |p| - 1;
    assert init[n - 1] == segs[n - 1];
    assert TurnsOf(segs) == p[..m] + [Extend(p[m], segs[n])];
    assert RunBounds(segs) == c[..m + 1] + [n + 1];
    PrefixRuns(segs, n, p, c);
    ExtendedRun(segs, p[m], c[m]);
    RunsOfReplaceLast(segs, p, c, Extend(p[m], segs[n]));
  }

  /** A run ending just before the last segment, extended by it when the speaker is the same. */
  lemma ExtendedRun(segs: seq<Segment>, t: Turn, lo: nat)
    requires |segs| > 1 && IsRun(segs, t, lo, |segs| - 1)
    requires segs[|segs| - 2].speaker_id == segs[|segs| - 1].speaker_id
    ensures IsRun(segs, Extend(t, segs[|segs| - 1]), lo, |segs|)
  {
    RunTextSnoc(segs, lo, |segs| - 1);
  }

  /** Runs of the prefix with the last one lengthened to the end of the list. */
  lemma RunsOfReplaceLast(segs: seq<Segment>, p: seq<Turn>, c: seq<nat>, x: Turn)
    requires |p| > 0 && |c| == |p| + 1 && c[0] == 0
    requires forall j :: 0 <= j < |p| ==> IsRun(segs, p[j], c[j], c[j + 1])
    requires forall j :: 0 < j < |p| ==> SpeakerChangesAt(segs, c[j])
    requires IsRun(segs, x, c[|p| - 1], |segs|)
    ensures RunsOf(segs, p[..|p| - 1] + [x], c[..|p|] + [|segs|])
  {
    var m := |p| - 1;
    var t, b := p[..m] + [x], c[..m + 1] + [|segs|];
    forall j | 0 <= j < |t| ensures IsRun(segs, t[j], b[j], b[j + 1]) {
      if j < m {
        assert t[j] == p[j] && b[j] == c[j] && b[j + 1] == c[j + 1];
      } else {
        assert t[j] == x && b[j] == c[m];
      }
    }
    forall j | 0 < j < |t| ensures SpeakerChangesAt(segs, b[j]) {
      assert b[j] == c[j];
    }
  }

  /** A segment of a new speaker (or the first segment) opens a run of its own. */
  lemma OpenRunStep(segs: seq<Segment>)
    requires segs != []
    requires |segs| > 1 ==> segs[|segs| - 2].speaker_id != segs[|segs| - 1].speaker_id
    requires RunsOf(segs[..|segs| - 1], TurnsOf(segs[..|segs| - 1]), RunBounds(segs[..|segs| - 1]))
    ensures RunsOf(segs, TurnsOf(segs), RunBounds(segs))
  {
    var n := |segs| - 1;
    var init := segs[..n];
    var p, c := TurnsOf(init), RunBounds(init);
    if n > 0 {
      assert init[n - 1] == segs[n - 1];
    }
    assert TurnsOf(segs) == p + [StartTurn(segs[n])];
    assert RunBounds(segs) == c + [n + 1];
    PrefixRuns(segs, n, p, c);
    SingleRun(segs, n);
    RunsOfAppend(segs, p, c, StartTurn(segs[n]));
  }

  /** The runs of the prefix stay runs of the whole list. */
  lemma PrefixRuns(segs: seq<Segment>, n: nat, p: seq<Turn>, c: seq<nat>)
    requires n <= |segs| && RunsOf(segs[..n], p, c)
    ensures forall j :: 0 <= j < |p| ==> IsRun(segs, p[j], c[j], c[j + 1])
    ensures forall j :: 0 < j < |p| ==> SpeakerChangesAt(segs, c[j])
  {
    forall j | 0 <= j < |p| ensures IsRun(segs, p[j], c[j], c[j + 1]) {
      IsRunPrefix(segs, n, p[j], c[j], c[j + 1]);
    }
    forall j | 0 < j < |p| ensures SpeakerChangesAt(segs, c[j]) {
      assert SpeakerChangesAt(segs[..n], c[j]);
      assert segs[c[j] - 1] == segs[..n][c[j] - 1] && segs[c[j]] == segs[..n][c[j]];
    }
  }

  /** The last segment alone is a run. */
  lemma SingleRun(segs: seq<Segment>, n: nat)
    requires n == |segs| - 1
    ensures IsRun(segs, StartTurn(segs[n]), n, n + 1)
  {
    assert segs[n..n + 1] == [segs[n]];
    assert SegmentTexts([segs[n]]) == [segs[n].text];
  }

  /** Runs of the prefix, followed by a run of the last segment after a speaker change. */
  lemma RunsOfAppend(segs: seq<Segment>, p: seq<Turn>, c: seq<nat>, x: Turn)
    requires segs != [] && |c| == |p| + 1 && c[0] == 0 && c[|p|] == |segs| - 1
    requires p == [] <==> |segs| == 1
    requires forall j :: 0 <= j < |p| ==> IsRun(segs, p[j], c[j], c[j + 1])
    requires forall j :: 0 < j < |p| ==> SpeakerChangesAt(segs, c[j])
    requires |segs| > 1 ==> segs[|segs| - 2].speaker_id != segs[|segs| - 1].speaker_id
    requires IsRun(segs, x, |segs| - 1, |segs|)
    ensures RunsOf(segs, p + [x], c + [|segs|])
  {
    var t, b := p + [x], c + [|segs|];
    forall j | 0 <= j < |t| ensures IsRun(segs, t[j], b[j], b[j + 1]) {
      if j < |p| {
        assert t[j] == p[j] && b[j] == c[j] && b[j + 1] == c[j + 1];
      }
    }
    forall j | 0 < j < |t| ensures SpeakerChangesAt(segs, b[j]) {
      if j < |p| {
        assert b[j] == c[j];
      }
    }
  }
}
