/**
  The deterministic front stages of server/audio-discernment.ts: the byte-rate
  duration estimate, the word-count speaker heuristic and the segmenter that
  cuts the transcript into sentence units, lays them out contiguously over the
  duration and tags them round-robin with the speaker labels.
 */
module AudioSegmenter {
  import opened Text
  import opened AudioTypes

  /** `Math.round`: the nearest integer, halves rounded up. */
  function Round(x: real): (r: int)
    ensures x - 0.5 < r as real <= x + 0.5
  {
    (x + 0.5).Floor
  }

  lemma RoundMonotone(x: real, y: real)
    requires x <= y
    ensures Round(x) <= Round(y)
  {
  }

  lemma RoundOfInt(n: int)
    ensures Round(n as real) == n
  {
  }

  function BytesPerSecond(format: string): (bps: nat)
    ensures bps == (if format == "wav" then 32000 else 16000)
  {
    if format == "wav" then 32000 else 16000
  }

  /**
    estimateDuration: the byte length read at the format's assumed byte rate,
    in milliseconds, rounded to the nearest integer.
   */
  function EstimateDuration(byteLength: nat, format: string): (d: nat)
    ensures byteLength == 0 ==> d == 0
    ensures var exact := byteLength as real * 1000.0 / BytesPerSecond(format) as real;
      exact - 0.5 < d as real <= exact + 0.5
  {
    var r := Round((byteLength as real / BytesPerSecond(format) as real) * 1000.0);
    assert r >= 0;
    r
  }

  /** A longer buffer never has a shorter estimated duration. */
  lemma EstimateDurationMonotone(a: nat, b: nat, format: string)
    requires a <= b
    ensures EstimateDuration(a, format) <= EstimateDuration(b, format)
  {
    var bps := BytesPerSecond(format) as real;
    assert (a as real / bps) * 1000.0 <= (b as real / bps) * 1000.0;
    RoundMonotone((a as real / bps) * 1000.0, (b as real / bps) * 1000.0);
  }

  /**
    The number of maximal whitespace runs in `s`: `s.split(/\s+/)` returns one
    more piece than that (an empty string is one piece).
   */
  function SpaceRuns(s: string): nat
    decreases |s|
  {
    if s == [] then 0
    else
      var n := |s| - 1;
      SpaceRuns(s[..n]) + (if IsSpace(s[n]) && (n == 0 || !IsSpace(s[n - 1])) then 1 else 0)
  }

  /** `text.split(/\s+/).length`. */
  function WordCount(s: string): (n: nat)
    ensures n >= 1
  {
    SpaceRuns(s) + 1
  }

  /** A string without whitespace counts as one word, the empty string included. */
  lemma {:induction false} WordCountNoSpace(s: string)
    requires forall i :: 0 <= i < |s| ==> !IsSpace(s[i])
    ensures WordCount(s) == 1
    decreases |s|
  {
    if s != [] {
      WordCountNoSpace(s[..|s| - 1]);
    }
  }

  /** Appending one word after a single space adds exactly one to the count. */
  lemma WordCountAppendWord(s: string, w: string)
    requires s != [] && !IsSpace(s[|s| - 1])
    requires w != [] && forall i :: 0 <= i < |w| ==> !IsSpace(w[i])
    ensures WordCount(s + " " + w) == WordCount(s) + 1
  {
    WordCountAppendPlain(s + " ", w);
    var t := s + " ";
    assert t[..|t| - 1] == s;
  }

  lemma {:induction false} WordCountAppendPlain(s: string, w: string)
    requires forall i :: 0 <= i < |w| ==> !IsSpace(w[i])
    ensures SpaceRuns(s + w) == SpaceRuns(s)
    decreases |w|
  {
    if w != [] {
      var t := s + w;
      assert t[..|t| - 1] == s + w[..|w| - 1];
      assert t[|t| - 1] == w[|w| - 1] && !IsSpace(t[|t| - 1]);
      assert SpaceRuns(t) == SpaceRuns(t[..|t| - 1]);
      WordCountAppendPlain(s, w[..|w| - 1]);
    } else {
      assert s + w == s;
    }
  }

  const SPEAKER_A: string := "Speaker A"
  const SPEAKER_B: string := "Speaker B"

  /**
    detectSpeakers: one label below 20 words, otherwise the two labels
    (both branches for 20 words and more return the same list).
   */
  function DetectSpeakers(text: string): (r: seq<string>)
    ensures 1 <= |r| <= 2 && r[0] == SPEAKER_A
    ensures |r| == 1 <==> WordCount(text) < 20
    ensures |r| == 2 ==> r[1] == SPEAKER_B && r[0] != r[1]
  {
    var wordCount := WordCount(text);
    if wordCount < 20 then [SPEAKER_A]
    else if wordCount < 50 then [SPEAKER_A, SPEAKER_B]
    else [SPEAKER_A, SPEAKER_B]
  }

  predicate IsTerminal(c: char)
  {
    c == '.' || c == '!' || c == '?'
  }

  /** Length of the leading run of non-terminal characters. */
  function PlainRun(s: string): (k: nat)
    ensures k <= |s|
    decreases |s|
  {
    if s == [] || IsTerminal(s[0]) then 0 else 1 + PlainRun(s[1..])
  }

  /** The leading plain run is maximal: no terminal inside it, a terminal right after it. */
  lemma {:induction false} PlainRunShape(s: string)
    ensures forall i :: 0 <= i < PlainRun(s) ==> !IsTerminal(s[i])
    ensures PlainRun(s) < |s| ==> IsTerminal(s[PlainRun(s)])
    decreases |s|
  {
    if s != [] && !IsTerminal(s[0]) {
      PlainRunShape(s[1..]);
    }
  }

  /** Length of the leading run of terminal characters. */
  function TerminalRun(s: string): (k: nat)
    ensures k <= |s|
    decreases |s|
  {
    if s == [] || !IsTerminal(s[0]) then 0 else 1 + TerminalRun(s[1..])
  }

  /** The leading terminal run holds only terminals... */
  lemma {:induction false} TerminalRunAt(s: string, i: nat)
    requires i < TerminalRun(s)
    ensures IsTerminal(s[i])
    decreases |s|
  {
    if i > 0 {
      TerminalRunAt(s[1..], i - 1);
    }
  }

  /** ...and is followed by a non-terminal, when anything follows. */
  lemma {:induction false} TerminalRunStops(s: string)
    ensures TerminalRun(s) < |s| ==> !IsTerminal(s[TerminalRun(s)])
    decreases |s|
  {
    if s != [] && IsTerminal(s[0]) {
      TerminalRunStops(s[1..]);
    }
  }

  /** The leading plain run is followed by a terminal, when anything follows. */
  lemma {:induction false} PlainRunStops(s: string)
    ensures PlainRun(s) < |s| ==> IsTerminal(s[PlainRun(s)])
    decreases |s|
  {
    if s != [] && !IsTerminal(s[0]) {
      PlainRunStops(s[1..]);
    }
  }
  /**
    The matches of `/[^.!?]+[.!?]+/g`, left to right: each is a maximal run of
    non-terminal characters together with the terminal run after it. A
    terminal character with no text before it matches nothing and is skipped;
    a non-terminal tail with no terminal after it matches nothing and is lost.
   */
  function Units(s: string): (u: seq<string>)
    decreases |s|
  {
    if s == [] then []
    else if IsTerminal(s[0]) then Units(s[1..])
    else
      var k := PlainRun(s);
      if k == |s| then []
      else
        var m := k + TerminalRun(s[k..]);
        [s[..m]] + Units(s[m..])
  }

  /** A unit: some text followed by terminal punctuation. */
  predicate IsUnit(u: string)
  {
    |u| >= 2 && !IsTerminal(u[0]) && IsTerminal(u[|u| - 1])
  }

  /** Every match of the sentence pattern is a unit. */
  lemma {:induction false} UnitsShape(s: string)
    ensures forall i :: 0 <= i < |Units(s)| ==> IsUnit(Units(s)[i])
    decreases |s|
  {
    if s == [] {
    } else if IsTerminal(s[0]) {
      UnitsShape(s[1..]);
    } else if PlainRun(s) < |s| {
      var m := PlainRun(s) + TerminalRun(s[PlainRun(s)..]);
      UnitBoundary(s, m);
      var rest := Units(s[m..]);
      UnitsShape(s[m..]);
      assert Units(s) == [s[..m]] + rest;
      assert IsUnit(s[..m]);
      forall i | 0 <= i < |Units(s)| ensures IsUnit(Units(s)[i]) {
        if i > 0 {
          assert Units(s)[i] == rest[i - 1];
        }
      }
    }
  }

  /** Length of the trailing run of non-terminal characters, which no unit covers. */
  function TrailingPlain(s: string): (k: nat)
    ensures k <= |s|
    decreases |s|
  {
    if s == [] || IsTerminal(s[|s| - 1]) then 0 else 1 + TrailingPlain(s[..|s| - 1])
  }

  function Concat(parts: seq<string>): string
    decreases |parts|
  {
    if parts == [] then "" else parts[0] + Concat(parts[1..])
  }

  /** Cutting a string just after a terminal leaves its unterminated tail unchanged. */
  lemma {:induction false} TrailingPlainAfterTerminal(s: string, m: nat)
    requires 0 < m <= |s| && IsTerminal(s[m - 1])
    ensures TrailingPlain(s) == TrailingPlain(s[m..])
    decreases |s|
  {
    if !IsTerminal(s[|s| - 1]) {
      var t := s[..|s| - 1];
      assert s[m..][..|s[m..]| - 1] == t[m..];
      assert s[m..][|s[m..]| - 1] == s[|s| - 1];
      TrailingPlainAfterTerminal(t, m);
    }
  }

  /** A string with no terminal character is entirely unterminated tail. */
  lemma {:induction false} TrailingPlainOfPlain(s: string)
    requires forall i :: 0 <= i < |s| ==> !IsTerminal(s[i])
    ensures TrailingPlain(s) == |s|
    decreases |s|
  {
    if s != [] {
      TrailingPlainOfPlain(s[..|s| - 1]);
    }
  }

  /**
    The units, followed by the unterminated tail, give back the transcript
    without its leading terminal run.
   */
  ghost predicate Covered(s: string)
  {
    TerminalRun(s) + TrailingPlain(s) <= |s|
    && Concat(Units(s)) + s[|s| - TrailingPlain(s)..] == s[TerminalRun(s)..]
  }

  lemma CoveredSkipTerminal(s: string)
    requires s != [] && IsTerminal(s[0]) && Covered(s[1..])
    ensures Covered(s)
  {
    var t := s[1..];
    var u, tr, tp := Concat(Units(t)), TerminalRun(t), TrailingPlain(t);
    assert tr + tp <= |t| && u + t[|t| - tp..] == t[tr..];
    SkipFacts(s);
    ShiftCover(s, u, tr, tp);
    CoveredOf(s, u, tr + 1, tp);
  }

  lemma CoveredOf(s: string, u: string, tr: nat, tp: nat)
    requires Concat(Units(s)) == u && TerminalRun(s) == tr && TrailingPlain(s) == tp
    requires tr + tp <= |s| && u + s[|s| - tp..] == s[tr..]
    ensures Covered(s)
  {
  }

  /** A leading terminal character matches nothing and only lengthens the leading terminal run. */
  lemma SkipFacts(s: string)
    requires s != [] && IsTerminal(s[0])
    ensures Units(s) == Units(s[1..])
    ensures TerminalRun(s) == TerminalRun(s[1..]) + 1
    ensures TrailingPlain(s) == TrailingPlain(s[1..])
  {
    TrailingPlainAfterTerminal(s, 1);
  }

  /** A cover of `s[1..]` is a cover of `s` with the leading run one longer. */
  lemma ShiftCover(s: string, u: string, tr: nat, tp: nat)
    requires 1 <= |s| && tr + tp <= |s| - 1
    requires u + s[1..][|s| - 1 - tp..] == s[1..][tr..]
    ensures u + s[|s| - tp..] == s[tr + 1..]
  {
    assert s[1..][|s| - 1 - tp..] == s[|s| - tp..];
    assert s[1..][tr..] == s[tr + 1..];
  }

  lemma CoveredUnit(s: string, m: nat)
    requires s != [] && !IsTerminal(s[0])
    requires PlainRun(s) < |s| && m == PlainRun(s) + TerminalRun(s[PlainRun(s)..])
    requires Covered(s[m..])
    ensures Covered(s)
  {
    var rest := s[m..];
    UnitsStep(s, m);
    TrailingPlainAfterTerminal(s, m);
    var tp := TrailingPlain(s);
    var tail := s[|s| - tp..];
    assert rest[|rest| - tp..] == tail;
    var cr := Concat(Units(rest));
    Glue(s, m, cr, tail);
    assert Concat(Units(s)) + tail == s[..m] + cr + tail;
    assert s[TerminalRun(s)..] == s[0..];
  }

  /** One unit peeled off the front of a string that starts with text. */
  lemma UnitsStep(s: string, m: nat)
    requires s != [] && !IsTerminal(s[0])
    requires PlainRun(s) < |s| && m == PlainRun(s) + TerminalRun(s[PlainRun(s)..])
    ensures 0 < m <= |s| && IsTerminal(s[m - 1])
    ensures TerminalRun(s) == 0 && TerminalRun(s[m..]) == 0
    ensures Concat(Units(s)) == s[..m] + Concat(Units(s[m..]))
  {
    UnitBoundary(s, m);
    assert Units(s) == [s[..m]] + Units(s[m..]);
    ConcatCons(s[..m], Units(s[m..]));
  }

  lemma UnitBoundary(s: string, m: nat)
    requires s != [] && !IsTerminal(s[0])
    requires PlainRun(s) < |s| && m == PlainRun(s) + TerminalRun(s[PlainRun(s)..])
    ensures 2 <= m <= |s| && IsTerminal(s[m - 1])
    ensures TerminalRun(s) == 0 && TerminalRun(s[m..]) == 0
  {
    var k := PlainRun(s);
    PlainRunStops(s);
    assert k >= 1;
    var r := s[k..];
    var tr := TerminalRun(r);
    assert IsTerminal(r[0]);
    assert tr >= 1;
    TerminalRunAt(r, tr - 1);
    TerminalRunStops(r);
    assert s[m - 1] == r[tr - 1];
    if m < |s| {
      assert s[m..][0] == r[tr];
    }
  }

  lemma ConcatCons(x: string, parts: seq<string>)
    ensures Concat([x] + parts) == x + Concat(parts)
  {
    assert ([x] + parts)[1..] == parts;
  }

  /** Gluing a prefix back onto a split of the rest of a string gives the string. */
  lemma Glue(s: string, m: nat, cr: string, tail: string)
    requires m <= |s| && cr + tail == s[m..]
    ensures s[..m] + cr + tail == s[0..]
  {
    calc {
      s[..m] + cr + tail;
      s[..m] + (cr + tail);
      s[..m] + s[m..];
      s[0..];
    }
  }

  /**
    Nothing between the first sentence and the last terminal punctuation is
    lost or reordered by the unit matcher.
   */
  lemma {:induction false} UnitsCover(s: string)
    ensures Covered(s)
    decreases |s|
  {
    if s == [] {
    } else if IsTerminal(s[0]) {
      UnitsCover(s[1..]);
      CoveredSkipTerminal(s);
    } else if PlainRun(s) == |s| {
      PlainRunShape(s);
      TrailingPlainOfPlain(s);
      assert TerminalRun(s) == 0;
    } else {
      var m := PlainRun(s) + TerminalRun(s[PlainRun(s)..]);
      UnitsCover(s[m..]);
      CoveredUnit(s, m);
    }
  }

  /** The sentence list: the units, or the whole transcript when there are none. */
  function Sentences(text: string): (r: seq<string>)
    ensures |r| >= 1
    ensures Units(text) == [] ==> r == [text]
    ensures Units(text) != [] ==> r == Units(text)
  {
    var u := Units(text);
    if u == [] then [text] else u
  }

  /** The clock after `k` kept sentences: `per` added `k` times, from zero. */
  function SpanStart(k: nat, per: real): real
  {
    if k == 0 then 0.0 else SpanStart(k - 1, per) + per
  }

  lemma SpanStartNext(k: nat, per: real)
    ensures SpanStart(k + 1, per) == SpanStart(k, per) + per
    ensures SpanStart(0, per) == 0.0
  {
  }

  /** The accumulated clock is the product `k·per`. */
  lemma {:induction false} SpanStartProduct(k: nat, per: real)
    ensures SpanStart(k, per) == k as real * per
  {
    if k > 0 {
      SpanStartProduct(k - 1, per);
      assert (k - 1) as real * per + per == k as real * per;
    }
  }

  /** The segment for the `k`-th kept sentence, sentence `i` of the list, each span `per` long. */
  function SegmentAt(sentence: string, i: nat, k: nat, currentTime: real, per: real,
                     speakers: seq<string>, draws: nat -> real): Segment
    requires |speakers| > 0
  {
    Segment(
      start_ms := Round(currentTime),
      end_ms := Round(currentTime + per),
      speaker_id := speakers[i % |speakers|],
      text := Trim(sentence),
      confidence := 0.75 + draws(k) * 0.2,
      overlap := false)
  }

  /**
    The segments built from the sentences `sents`: a sentence that trims to
    nothing is skipped without advancing the clock, every other one takes the
    next span of length `per`.
   */
  function SegmentsOf(sents: seq<string>, per: real, speakers: seq<string>, draws: nat -> real): (r: seq<Segment>)
    requires |speakers| > 0
    ensures |r| <= |sents|
    decreases |sents|
  {
    if sents == [] then []
    else
      var i := |sents| - 1;
      var prev := SegmentsOf(sents[..i], per, speakers, draws);
      if Trim(sents[i]) == "" then prev
      else prev + [SegmentAt(sents[i], i, |prev|, SpanStart(|prev|, per), per, speakers, draws)]
  }

  /** One more sentence: a blank one leaves the segments alone, another adds the next span. */
  lemma SegmentsOfStep(sents: seq<string>, i: nat, per: real, speakers: seq<string>, draws: nat -> real)
    requires |speakers| > 0 && i < |sents|
    ensures var prev := SegmentsOf(sents[..i], per, speakers, draws);
      SegmentsOf(sents[..i + 1], per, speakers, draws)
      == if Trim(sents[i]) == "" then prev else prev + [SegmentAt(sents[i], i, |prev|, SpanStart(|prev|, per), per, speakers, draws)]
  {
    assert sents[..i + 1][..i] == sents[..i];
  }

  /** The segmenter's output for a transcript: `durationMs` is shared equally by the sentences. */
  function Segments(text: string, durationMs: nat, speakers: seq<string>, draws: nat -> real): seq<Segment>
    requires |speakers| > 0
  {
    var sents := Sentences(text);
    SegmentsOf(sents, durationMs as real / |sents| as real, speakers, draws)
  }

  /**
    splitIntoSegments: match the sentences, share the duration equally among
    them, and lay them out.
   */
  method SplitIntoSegments(text: string, durationMs: nat, speakers: seq<string>, draws: nat -> real)
    returns (segments: seq<Segment>)
    requires |speakers| > 0
    ensures segments == Segments(text, durationMs, speakers, draws)
  {
    var sentences := Sentences(text);
    var timePerSentence := durationMs as real / |sentences| as real;
    segments := LayOutSentences(sentences, timePerSentence, speakers, draws);
  }

  /**
    The loop of splitIntoSegments: one segment per non-blank sentence, each
    starting where the clock stands and advancing it by `timePerSentence`;
    a blank sentence is skipped with the clock left where it was.
   */
  method LayOutSentences(sentences: seq<string>, timePerSentence: real, speakers: seq<string>, draws: nat -> real)
    returns (segments: seq<Segment>)
    requires |speakers| > 0
    ensures segments == SegmentsOf(sentences, timePerSentence, speakers, draws)
  {
    segments := [];
    var currentTime := 0.0;
    for i := 0 to |sentences|
      invariant segments == SegmentsOf(sentences[..i], timePerSentence, speakers, draws)
      invariant currentTime == SpanStart(|segments|, timePerSentence)
    {
      segments, currentTime := LayOutSentence(sentences, i, timePerSentence, speakers, draws, segments, currentTime);
    }
    assert sentences[..|sentences|] == sentences;
  }

  /** One turn of that loop: a blank sentence is skipped, another is laid out at the clock, which then advances. */
  method LayOutSentence(sentences: seq<string>, i: nat, timePerSentence: real, speakers: seq<string>, draws: nat -> real,
                        segments: seq<Segment>, currentTime: real)
    returns (segments': seq<Segment>, currentTime': real)
    requires |speakers| > 0 && i < |sentences|
    requires segments == SegmentsOf(sentences[..i], timePerSentence, speakers, draws)
    requires currentTime == SpanStart(|segments|, timePerSentence)
    ensures segments' == SegmentsOf(sentences[..i + 1], timePerSentence, speakers, draws)
    ensures currentTime' == SpanStart(|segments'|, timePerSentence)
  {
    SegmentsOfStep(sentences, i, timePerSentence, speakers, draws);
    var sentence := Trim(sentences[i]);
    if sentence == "" {
      return segments, currentTime;
    }
    var k := |segments|;
    segments' := segments + [SegmentAt(sentences[i], i, k, currentTime, timePerSentence, speakers, draws)];
    SpanStartNext(k, timePerSentence);
    assert |segments'| == k + 1;
    currentTime' := currentTime + timePerSentence;
  }

  /** The segment for sentence `i` when no earlier sentence was blank. */
  function NthSegment(sents: seq<string>, i: nat, per: real, speakers: seq<string>, draws: nat -> real): Segment
    requires |speakers| > 0 && i < |sents|
  {
    SegmentAt(sents[i], i, i, SpanStart(i, per), per, speakers, draws)
  }

  /** When no sentence is blank, segment `i` is made from sentence `i` and the `i`-th span. */
  lemma {:induction false} SegmentsOfClosedForm(sents: seq<string>, per: real, speakers: seq<string>, draws: nat -> real)
    requires |speakers| > 0
    requires forall i :: 0 <= i < |sents| ==> Trim(sents[i]) != ""
    ensures |SegmentsOf(sents, per, speakers, draws)| == |sents|
    ensures forall i :: 0 <= i < |sents| ==> SegmentsOf(sents, per, speakers, draws)[i] == NthSegment(sents, i, per, speakers, draws)
    decreases |sents|
  {
    if sents != [] {
      var n := |sents| - 1;
      var init := sents[..n];
      assert forall i :: 0 <= i < n ==> init[i] == sents[i];
      SegmentsOfClosedForm(init, per, speakers, draws);
      ClosedFormStep(sents, per, speakers, draws);
    }
  }

  /** The closed form survives one more non-blank sentence. */
  lemma ClosedFormStep(sents: seq<string>, per: real, speakers: seq<string>, draws: nat -> real)
    requires |speakers| > 0 && sents != [] && Trim(sents[|sents| - 1]) != ""
    requires var init := sents[..|sents| - 1];
      |SegmentsOf(init, per, speakers, draws)| == |init|
      && forall i :: 0 <= i < |init| ==> SegmentsOf(init, per, speakers, draws)[i] == NthSegment(init, i, per, speakers, draws)
    ensures |SegmentsOf(sents, per, speakers, draws)| == |sents|
    ensures forall i :: 0 <= i < |sents| ==> SegmentsOf(sents, per, speakers, draws)[i] == NthSegment(sents, i, per, speakers, draws)
  {
    var n := |sents| - 1;
    var init := sents[..n];
    var prev := SegmentsOf(init, per, speakers, draws);
    SegmentsOfStep(sents, n, per, speakers, draws);
    assert sents[..n + 1] == sents;
    var all := SegmentsOf(sents, per, speakers, draws);
    assert |prev| == n;
    assert all == prev + [NthSegment(sents, n, per, speakers, draws)];
    forall i | 0 <= i < |sents| ensures all[i] == NthSegment(sents, i, per, speakers, draws) {
      if i < n {
        assert all[i] == prev[i] == NthSegment(init, i, per, speakers, draws);
        assert init[i] == sents[i];
      }
    }
  }

  /** Segments whose spans tile `[0, durationMs]` in order, with no gap and no overlap. */
  ghost predicate Tiles(segs: seq<Segment>, durationMs: int)
  {
    && (|segs| > 0 ==> segs[0].start_ms == 0 && segs[|segs| - 1].end_ms == durationMs)
    && (forall i :: 0 <= i < |segs| ==> segs[i].start_ms <= segs[i].end_ms)
    && (forall i :: 0 <= i < |segs| - 1 ==> segs[i].end_ms == segs[i + 1].start_ms)
  }

  /** Consecutive spans of a non-negative length tile `[0, n·per]`. */
  lemma SpansTile(segs: seq<Segment>, per: real, n: nat)
    requires per >= 0.0 && |segs| == n
    requires forall i :: 0 <= i < n ==>
      segs[i].start_ms == Round(SpanStart(i, per)) && segs[i].end_ms == Round(SpanStart(i, per) + per)
    ensures |segs| > 0 ==> segs[0].start_ms == 0 && segs[|segs| - 1].end_ms == Round(SpanStart(n, per))
    ensures forall i :: 0 <= i < |segs| ==> segs[i].start_ms <= segs[i].end_ms
    ensures forall i :: 0 <= i < |segs| - 1 ==> segs[i].end_ms == segs[i + 1].start_ms
  {
    forall i | 0 <= i < n ensures segs[i].start_ms <= segs[i].end_ms {
      RoundMonotone(SpanStart(i, per), SpanStart(i, per) + per);
    }
    forall i | 0 <= i < n - 1 ensures segs[i].end_ms == segs[i + 1].start_ms {
      SpanStartNext(i, per);
    }
    if n > 0 {
      SpanStartNext(n - 1, per);
    }
  }

  /** A string with no terminal character is a single unterminated run. */
  lemma {:induction false} PlainRunOfPlain(s: string)
    requires forall i :: 0 <= i < |s| ==> !IsTerminal(s[i])
    ensures PlainRun(s) == |s|
    decreases |s|
  {
    if s != [] {
      PlainRunOfPlain(s[1..]);
    }
  }

  /**
    Only a whitespace-only transcript produces a blank sentence: such a
    transcript has no unit and is its own single sentence, and every unit ends
    with punctuation, which `trim` keeps.
   */
  lemma SentencesBlankIff(text: string)
    ensures AllSpace(text) ==> Sentences(text) == [text] && Trim(text) == ""
    ensures !AllSpace(text) ==> forall i :: 0 <= i < |Sentences(text)| ==> Trim(Sentences(text)[i]) != ""
  {
    TrimEmptyIff(text);
    var sents := Sentences(text);
    if AllSpace(text) {
      PlainRunOfPlain(text);
      assert Units(text) == [];
    } else if Units(text) != [] {
      UnitsShape(text);
      forall i | 0 <= i < |sents| ensures Trim(sents[i]) != "" {
        var u := sents[i];
        assert IsUnit(u);
        assert !IsSpace(u[|u| - 1]);
        TrimEmptyIff(u);
      }
    }
  }

  /** `n` shares of `d / n` are non-negative and add back up to `d`. */
  lemma SpanStartShare(d: nat, n: nat)
    requires n > 0
    ensures d as real / n as real >= 0.0
    ensures SpanStart(n, d as real / n as real) == d as real
  {
    var per := d as real / n as real;
    SpanStartProduct(n, per);
    assert n as real * per == d as real;
  }

  /** The fields of the segment for sentence `i`. */
  lemma NthSegmentFields(sents: seq<string>, i: nat, per: real, speakers: seq<string>, draws: nat -> real)
    requires |speakers| > 0 && i < |sents|
    requires 0.0 <= draws(i) < 1.0
    ensures var seg := NthSegment(sents, i, per, speakers, draws);
      && seg.start_ms == Round(SpanStart(i, per))
      && seg.end_ms == Round(SpanStart(i, per) + per)
      && seg.speaker_id == speakers[i % |speakers|]
      && !seg.overlap
      && 0.75 <= seg.confidence < 0.95
  {
  }

  /** A whitespace-only transcript yields no segments; any other yields one per sentence. */
  lemma SegmentsCount(text: string, durationMs: nat, speakers: seq<string>, draws: nat -> real)
    requires |speakers| > 0
    ensures var segs := Segments(text, durationMs, speakers, draws);
      && (segs == [] <==> AllSpace(text))
      && (!AllSpace(text) ==> |segs| == |Sentences(text)|)
  {
    var sents := Sentences(text);
    var per := durationMs as real / |sents| as real;
    SentencesBlankIff(text);
    if AllSpace(text) {
      SegmentsOfStep(sents, 0, per, speakers, draws);
      assert sents[..1] == sents;
    } else {
      SegmentsOfClosedForm(sents, per, speakers, draws);
    }
  }

  /** Segment `i` of sentences none of which is blank, field by field. */
  lemma SegmentsOfFields(sents: seq<string>, per: real, speakers: seq<string>, draws: nat -> real)
    requires |speakers| > 0
    requires forall i :: 0 <= i < |sents| ==> Trim(sents[i]) != ""
    requires forall k :: 0.0 <= draws(k) < 1.0
    ensures var segs := SegmentsOf(sents, per, speakers, draws);
      && |segs| == |sents|
      && (forall i :: 0 <= i < |segs| ==>
           segs[i].start_ms == Round(SpanStart(i, per)) && segs[i].end_ms == Round(SpanStart(i, per) + per))
      && (forall i :: 0 <= i < |segs| ==> segs[i].speaker_id == speakers[i % |speakers|] && !segs[i].overlap)
      && (forall i :: 0 <= i < |segs| ==> 0.75 <= segs[i].confidence < 0.95)
  {
    var segs := SegmentsOf(sents, per, speakers, draws);
    SegmentsOfClosedForm(sents, per, speakers, draws);
    forall i | 0 <= i < |sents|
      ensures segs[i].start_ms == Round(SpanStart(i, per)) && segs[i].end_ms == Round(SpanStart(i, per) + per)
      ensures segs[i].speaker_id == speakers[i % |speakers|] && !segs[i].overlap
      ensures 0.75 <= segs[i].confidence < 0.95
    {
      NthSegmentFields(sents, i, per, speakers, draws);
    }
  }

  /** Segment `i` of a transcript that is not all whitespace, field by field. */
  lemma SegmentsFields(text: string, durationMs: nat, speakers: seq<string>, draws: nat -> real)
    requires |speakers| > 0 && !AllSpace(text)
    requires forall k :: 0.0 <= draws(k) < 1.0
    ensures var segs := Segments(text, durationMs, speakers, draws);
      var per := durationMs as real / |Sentences(text)| as real;
      && |segs| == |Sentences(text)|
      && (forall i :: 0 <= i < |segs| ==>
           segs[i].start_ms == Round(SpanStart(i, per)) && segs[i].end_ms == Round(SpanStart(i, per) + per))
      && (forall i :: 0 <= i < |segs| ==> segs[i].speaker_id == speakers[i % |speakers|] && !segs[i].overlap)
      && (forall i :: 0 <= i < |segs| ==> 0.75 <= segs[i].confidence < 0.95)
  {
    SentencesBlankIff(text);
    SegmentsOfFields(Sentences(text), durationMs as real / |Sentences(text)| as real, speakers, draws);
  }

  /**
    The segmenter's coverage guarantee: the segments tile `[0, durationMs]`,
    take speaker `i mod |speakers|` round-robin, never overlap and have
    confidence in [0.75, 0.95).
   */
  lemma SegmentsTileDuration(text: string, durationMs: nat, speakers: seq<string>, draws: nat -> real)
    requires |speakers| > 0
    requires forall k :: 0.0 <= draws(k) < 1.0
    ensures var segs := Segments(text, durationMs, speakers, draws);
      && Tiles(segs, durationMs)
      && (forall i :: 0 <= i < |segs| ==> segs[i].speaker_id == speakers[i % |speakers|] && !segs[i].overlap)
      && (forall i :: 0 <= i < |segs| ==> 0.75 <= segs[i].confidence < 0.95)
  {
    var segs := Segments(text, durationMs, speakers, draws);
    SegmentsCount(text, durationMs, speakers, draws);
    if AllSpace(text) {
      assert segs == [];
    } else {
      SegmentsFields(text, durationMs, speakers, draws);
      FieldsTile(segs, durationMs, |Sentences(text)|);
    }
  }

  /** Spans of an equal share of the duration, one per sentence, tile the duration. */
  lemma FieldsTile(segs: seq<Segment>, d: nat, n: nat)
    requires n > 0 && |segs| == n
    requires forall i :: 0 <= i < n ==>
      segs[i].start_ms == Round(SpanStart(i, d as real / n as real))
      && segs[i].end_ms == Round(SpanStart(i, d as real / n as real) + d as real / n as real)
    ensures Tiles(segs, d)
  {
    var per := d as real / n as real;
    SpanStartShare(d, n);
    SpansTile(segs, per, n);
    RoundOfInt(d);
  }
}
