/**
  News ingestion (server/news-ingest.ts): quotes are extracted from regex
  matches with de-duplication on a 50-character key, marker lists are
  searched in the lower-cased text, the headline is scored for spin, quote
  integrity is averaged, and all of it is assembled into a news record.
  The two quote patterns are not modelled: their matches, in the order
  `exec` returns them, are inputs.
 */
module NewsIngest {
  import opened Text
  import opened Optional
  import opened NewsTypes

  /** One match of a quote pattern: where the whole match starts, its length, and its two groups. */
  datatype QuoteMatch = QuoteMatch(index: nat, length: nat, quoteText: string, speaker: string)

  /** A match together with the pattern it came from (`first` for the "quote, said X" pattern). */
  datatype Candidate = Candidate(m: QuoteMatch, first: bool)

  /** The de-duplication key: the first 50 characters of the quote. */
  function Key(quoteText: string): string
  {
    Slice(quoteText, 0, 50)
  }

  function Truncated(q: string): bool
  {
    IsSuffix("...", q) || IsPrefix("...", q)
  }

  /** The n-th kept quote, with up to 100 characters of trimmed context on each side. */
  function QuoteOf(text: string, c: Candidate, n: nat): (q: ExtractedQuote)
    ensures |q.context_before| <= 100 && |q.context_after| <= 100
  {
    var m := c.m;
    var endIdx := if |text| < m.index + m.length + 100 then |text| else m.index + m.length + 100;
    ExtractedQuote(
      "quote_" + NatToString(n),
      OrElse(m.speaker, "Unknown"),
      m.quoteText,
      Trim(Slice(text, if m.index < 100 then 0 else m.index - 100, m.index)),
      Trim(Slice(text, m.index + m.length, endIdx)),
      Truncated(m.quoteText),
      if c.first && m.speaker == "" then 0.5 else 0.8)
  }

  datatype ExtractState = ExtractState(quotes: seq<ExtractedQuote>, seen: set<string>)

  /** One match: kept as the next quote unless its key was seen. */
  function Step(text: string, st: ExtractState, c: Candidate): ExtractState
  {
    var key := Key(c.m.quoteText);
    if key in st.seen then st
    else ExtractState(st.quotes + [QuoteOf(text, c, |st.quotes| + 1)], st.seen + {key})
  }

  /** The state after the matches `cs`, starting from `st`. */
  function FoldFrom(text: string, st: ExtractState, cs: seq<Candidate>): ExtractState
    decreases |cs|
  {
    if cs == [] then st
    else Step(text, FoldFrom(text, st, cs[..|cs| - 1]), cs[|cs| - 1])
  }

  function Fold(text: string, cs: seq<Candidate>): ExtractState
  {
    FoldFrom(text, ExtractState([], {}), cs)
  }

  /** Running over `a + b` is running over `a`, then over `b`. */
  lemma {:induction false} FoldFromAppend(text: string, st: ExtractState, a: seq<Candidate>, b: seq<Candidate>)
    ensures FoldFrom(text, st, a + b) == FoldFrom(text, FoldFrom(text, st, a), b)
    decreases |b|
  {
    if b == [] {
      assert a + b == a;
    } else {
      var n := |b| - 1;
      FoldFromAppend(text, st, a, b[..n]);
      assert (a + b)[..|a + b| - 1] == a + b[..n];
    }
  }

  function Tag(ms: seq<QuoteMatch>, first: bool): (r: seq<Candidate>)
    ensures |r| == |ms|
  {
    seq(|ms|, i requires 0 <= i < |ms| => Candidate(ms[i], first))
  }

  /** extractQuotes as a function: the first pattern's matches, then the second's. */
  function ExtractQuotesOf(text: string, m1: seq<QuoteMatch>, m2: seq<QuoteMatch>): seq<ExtractedQuote>
  {
    Fold(text, Tag(m1, true) + Tag(m2, false)).quotes
  }

  /** extractQuotes: two exec loops sharing the `seen` set of keys. */
  method ExtractQuotes(text: string, m1: seq<QuoteMatch>, m2: seq<QuoteMatch>) returns (quotes: seq<ExtractedQuote>)
    ensures quotes == ExtractQuotesOf(text, m1, m2)
  {
    var seen: set<string>;
    quotes, seen := ScanMatches(text, [], {}, m1, true);
    quotes, seen := ScanMatches(text, quotes, seen, m2, false);
    FoldFromAppend(text, ExtractState([], {}), Tag(m1, true), Tag(m2, false));
  }

  /** One exec loop over the matches of one pattern. */
  method ScanMatches(text: string, quotes0: seq<ExtractedQuote>, seen0: set<string>, ms: seq<QuoteMatch>, first: bool)
    returns (quotes: seq<ExtractedQuote>, seen: set<string>)
    ensures ExtractState(quotes, seen) == FoldFrom(text, ExtractState(quotes0, seen0), Tag(ms, first))
  {
    quotes, seen := quotes0, seen0;
    var i := 0;
    while i < |ms|
      invariant i <= |ms|
      invariant ExtractState(quotes, seen) == FoldFrom(text, ExtractState(quotes0, seen0), Tag(ms[..i], first))
    {
      assert Tag(ms[..i + 1], first)[..i] == Tag(ms[..i], first);
      quotes, seen := KeepQuote(text, quotes, seen, Candidate(ms[i], first));
      i := i + 1;
    }
    assert ms[..|ms|] == ms;
  }

  /** The body of either exec loop. */
  method KeepQuote(text: string, quotes0: seq<ExtractedQuote>, seen0: set<string>, c: Candidate)
    returns (quotes: seq<ExtractedQuote>, seen: set<string>)
    ensures ExtractState(quotes, seen) == Step(text, ExtractState(quotes0, seen0), c)
  {
    quotes, seen := quotes0, seen0;
    var key := Key(c.m.quoteText);
    if key !in seen {
      seen := seen + {key};
      quotes := quotes + [QuoteOf(text, c, |quotes| + 1)];
    }
  }

  function KeySet(qs: seq<ExtractedQuote>): set<string>
  {
    set i | 0 <= i < |qs| :: Key(qs[i].text)
  }

  function CandidateKeys(cs: seq<Candidate>): set<string>
  {
    set i | 0 <= i < |cs| :: Key(cs[i].m.quoteText)
  }

  predicate SequentialIds(qs: seq<ExtractedQuote>)
  {
    forall i :: 0 <= i < |qs| ==> qs[i].id == "quote_" + NatToString(i + 1)
  }

  predicate DistinctKeys(qs: seq<ExtractedQuote>)
  {
    forall i, j :: 0 <= i < j < |qs| ==> Key(qs[i].text) != Key(qs[j].text)
  }

  lemma KeySetSnoc(qs: seq<ExtractedQuote>, q: ExtractedQuote)
    ensures KeySet(qs + [q]) == KeySet(qs) + {Key(q.text)}
  {
    var r := qs + [q];
    forall k | k in KeySet(r) ensures k in KeySet(qs) + {Key(q.text)} {
      var i :| 0 <= i < |r| && Key(r[i].text) == k;
      if i < |qs| {
        assert r[i] == qs[i];
      }
    }
    forall k | k in KeySet(qs) ensures k in KeySet(r) {
      var i :| 0 <= i < |qs| && Key(qs[i].text) == k;
      assert r[i] == qs[i];
    }
    assert r[|qs|] == q;
  }

  lemma CandidateKeysSnoc(cs: seq<Candidate>, c: Candidate)
    ensures CandidateKeys(cs + [c]) == CandidateKeys(cs) + {Key(c.m.quoteText)}
  {
    var r := cs + [c];
    forall k | k in CandidateKeys(r) ensures k in CandidateKeys(cs) + {Key(c.m.quoteText)} {
      var i :| 0 <= i < |r| && Key(r[i].m.quoteText) == k;
      if i < |cs| {
        assert r[i] == cs[i];
      }
    }
    forall k | k in CandidateKeys(cs) ensures k in CandidateKeys(r) {
      var i :| 0 <= i < |cs| && Key(cs[i].m.quoteText) == k;
      assert r[i] == cs[i];
    }
    assert r[|cs|] == c;
  }

  /**
    After any prefix of matches: the seen set is exactly the keys of the
    kept quotes and also exactly the keys of all matches so far (a match is
    dropped only as a repeat), no two kept quotes share a key, ids run
    quote_1 .. quote_n, and there are no more quotes than matches.
   */
  /** One step keeps the kept quotes keyed by `seen`, distinct and numbered in order. */
  lemma StepInvariant(text: string, st: ExtractState, c: Candidate)
    requires st.seen == KeySet(st.quotes) && DistinctKeys(st.quotes) && SequentialIds(st.quotes)
    ensures var st' := Step(text, st, c);
      st'.seen == KeySet(st'.quotes) && st'.seen == st.seen + {Key(c.m.quoteText)}
      && DistinctKeys(st'.quotes) && SequentialIds(st'.quotes) && |st'.quotes| <= |st.quotes| + 1
  {
    var key := Key(c.m.quoteText);
    if key !in st.seen {
      var q := QuoteOf(text, c, |st.quotes| + 1);
      assert q.text == c.m.quoteText && q.id == "quote_" + NatToString(|st.quotes| + 1);
      AppendFresh(st.quotes, q);
    }
  }

  /** Appending a quote with a new key and the next id keeps keys distinct and ids sequential. */
  lemma AppendFresh(qs: seq<ExtractedQuote>, q: ExtractedQuote)
    requires DistinctKeys(qs) && SequentialIds(qs)
    requires Key(q.text) !in KeySet(qs) && q.id == "quote_" + NatToString(|qs| + 1)
    ensures KeySet(qs + [q]) == KeySet(qs) + {Key(q.text)}
    ensures DistinctKeys(qs + [q]) && SequentialIds(qs + [q])
  {
    KeySetSnoc(qs, q);
    var r := qs + [q];
    forall i, j | 0 <= i < j < |r| ensures Key(r[i].text) != Key(r[j].text) {
      assert r[i] == qs[i];
      if j == |qs| {
        assert Key(qs[i].text) in KeySet(qs);
      } else {
        assert r[j] == qs[j];
      }
    }
    forall i | 0 <= i < |r| ensures r[i].id == "quote_" + NatToString(i + 1) {
      if i < |qs| {
        assert r[i] == qs[i];
      } else {
        assert i == |qs| && r[i] == q;
      }
    }
  }

  lemma {:induction false} FoldInvariant(text: string, cs: seq<Candidate>)
    ensures var st := Fold(text, cs);
      st.seen == KeySet(st.quotes) && st.seen == CandidateKeys(cs)
      && DistinctKeys(st.quotes) && SequentialIds(st.quotes) && |st.quotes| <= |cs|
    decreases |cs|
  {
    if cs != [] {
      var n := |cs| - 1;
      var p := cs[..n];
      FoldInvariant(text, p);
      assert cs == p + [cs[n]];
      CandidateKeysSnoc(p, cs[n]);
      StepInvariant(text, Fold(text, p), cs[n]);
    }
  }

  /**
    extractQuotes: ids run quote_1 .. quote_n, no two kept quotes share a
    50-character key, every key of a match is the key of a kept quote, each
    context is at most 100 characters, and there are no more quotes than
    matches.
   */
  lemma ExtractQuotesShape(text: string, m1: seq<QuoteMatch>, m2: seq<QuoteMatch>)
    ensures var qs := ExtractQuotesOf(text, m1, m2);
      SequentialIds(qs) && DistinctKeys(qs)
      && KeySet(qs) == CandidateKeys(Tag(m1, true) + Tag(m2, false))
      && |qs| <= |m1| + |m2|
      && forall i :: 0 <= i < |qs| ==> |qs[i].context_before| <= 100 && |qs[i].context_after| <= 100
  {
    var cs := Tag(m1, true) + Tag(m2, false);
    FoldInvariant(text, cs);
    ContextsBounded(text, cs);
  }

  lemma {:induction false} ContextsBounded(text: string, cs: seq<Candidate>)
    ensures var qs := Fold(text, cs).quotes;
      forall i :: 0 <= i < |qs| ==> |qs[i].context_before| <= 100 && |qs[i].context_after| <= 100
    decreases |cs|
  {
    if cs != [] {
      var n := |cs| - 1;
      ContextsBounded(text, cs[..n]);
      var st := Fold(text, cs[..n]);
      var q := QuoteOf(text, cs[n], |st.quotes| + 1);
      assert |q.context_before| <= 100 && |q.context_after| <= 100;
    }
  }

  const EDITORIAL_MARKERS: seq<string> := [
    "sources say", "reportedly", "allegedly", "according to sources",
    "it is believed", "critics argue", "some say", "many believe",
    "appears to", "seems to", "suggests that", "implies that"]

  const EMOTIONAL_MARKERS: seq<string> := [
    "shocking", "outrageous", "stunning", "explosive", "bombshell",
    "slams", "blasts", "destroys", "eviscerates", "torches",
    "controversial", "divisive", "polarizing"]

  /** The markers of the list that occur in `lower`, in list order. */
  function FoundIn(lower: string, markers: seq<string>): (r: seq<string>)
    ensures |r| <= |markers|
    decreases |markers|
  {
    if markers == [] then []
    else
      var n := |markers| - 1;
      FoundIn(lower, markers[..n]) + (if Contains(lower, markers[n]) then [markers[n]] else [])
  }

  /** The marker loop shared by detectEditorialMarkers and detectEmotionalLoading. */
  method DetectMarkers(text: string, markers: seq<string>) returns (found: seq<string>)
    ensures found == FoundIn(Lower(text), markers)
  {
    found := [];
    var lowerText := Lower(text);
    for i := 0 to |markers|
      invariant found == FoundIn(lowerText, markers[..i])
    {
      assert markers[..i + 1][..i] == markers[..i];
      if Contains(lowerText, markers[i]) {
        found := found + [markers[i]];
      }
    }
    assert markers[..|markers|] == markers;
  }

  /**
    The markers found are exactly the listed markers that occur in the
    text, without repeats and in list order, when the list has no repeats.
   */
  lemma {:induction false} FoundInMeaning(lower: string, markers: seq<string>)
    requires NoDuplicates(markers)
    ensures var r := FoundIn(lower, markers);
      (forall x :: x in r <==> x in markers && Contains(lower, x))
      && NoDuplicates(r)
      && forall i, j :: 0 <= i < j < |r| ==> FirstPos(markers, r[i]) < FirstPos(markers, r[j])
    decreases |markers|
  {
    FoundInMembers(lower, markers);
    if markers != [] {
      var n := |markers| - 1;
      var p := markers[..n];
      assert forall i, j :: 0 <= i < j < n ==> p[i] == markers[i] && p[j] == markers[j];
      FoundInMeaning(lower, p);
      FoundInOrderStep(lower, markers);
    }
  }

  /** A marker is found exactly when it is in the list and occurs in the text. */
  lemma {:induction false} FoundInMembers(lower: string, markers: seq<string>)
    ensures forall x :: x in FoundIn(lower, markers) <==> x in markers && Contains(lower, x)
    decreases |markers|
  {
    if markers != [] {
      var n := |markers| - 1;
      FoundInMembers(lower, markers[..n]);
      assert markers == markers[..n] + [markers[n]];
    }
  }

  /** The found markers stay distinct and in list order with one more marker. */
  lemma FoundInOrderStep(lower: string, markers: seq<string>)
    requires markers != [] && NoDuplicates(markers)
    requires forall x :: x in FoundIn(lower, markers) ==> x in markers
    requires var p := markers[..|markers| - 1]; var r := FoundIn(lower, p);
      (forall x :: x in r ==> x in p)
      && NoDuplicates(r)
      && forall i, j :: 0 <= i < j < |r| ==> FirstPos(p, r[i]) < FirstPos(p, r[j])
    ensures var r := FoundIn(lower, markers);
      NoDuplicates(r) && forall i, j :: 0 <= i < j < |r| ==> FirstPos(markers, r[i]) < FirstPos(markers, r[j])
  {
    var n := |markers| - 1;
    var p := markers[..n];
    var m := markers[n];
    var rp := FoundIn(lower, p);
    var r := FoundIn(lower, markers);
    assert markers == p + [m];
    assert m !in p;
    forall i | 0 <= i < |rp| ensures rp[i] in markers && FirstPos(markers, rp[i]) == FirstPos(p, rp[i]) < n {
      FirstPosSnoc(p, m, rp[i]);
    }
    var c := Contains(lower, m);
    assert r == rp + (if c then [m] else []);
    assert |r| <= |rp| + 1;
    forall i, j | 0 <= i < j < |r| ensures r[i] != r[j] && FirstPos(markers, r[i]) < FirstPos(markers, r[j]) {
      assert r[i] == rp[i];
      if j == |rp| {
        assert r[j] == m;
        assert FirstPos(markers, m) == n;
      } else {
        assert r[j] == rp[j];
      }
    }
  }

  lemma MarkerListsDistinct()
    ensures NoDuplicates(EDITORIAL_MARKERS) && NoDuplicates(EMOTIONAL_MARKERS)
  {
    EditorialMarkersDistinct();
    EmotionalMarkersDistinct();
  }

  lemma EditorialMarkersDistinct()
    ensures NoDuplicates(EDITORIAL_MARKERS)
  {
  }

  lemma EmotionalMarkersDistinct()
    ensures NoDuplicates(EMOTIONAL_MARKERS)
  {
  }

  datatype EmotionalLoadingResult = EmotionalLoadingResult(score: real, markers: seq<string>)

  function EmotionalOf(text: string): EmotionalLoadingResult
  {
    var found := FoundIn(Lower(text), EMOTIONAL_MARKERS);
    EmotionalLoadingResult(Min1(|found| as real / 5.0), found)
  }

  method DetectEmotionalLoading(text: string) returns (r: EmotionalLoadingResult)
    ensures r == EmotionalOf(text)
  {
    var found := DetectMarkers(text, EMOTIONAL_MARKERS);
    r := EmotionalLoadingResult(Min1(|found| as real / 5.0), found);
  }

  /** The score is min(1, markers/5): in [0,1], zero exactly without markers, and 1 from five markers on. */
  lemma EmotionalScore(text: string)
    ensures var r := EmotionalOf(text);
      0.0 <= r.score <= 1.0 && (r.score == 0.0 <==> r.markers == [])
      && (|r.markers| >= 5 ==> r.score == 1.0)
      && (r.score > 0.5 <==> |r.markers| >= 3)
  {
  }

  const PARTISAN_TERMS: seq<string> := ["left-wing", "right-wing", "liberal", "conservative", "radical", "extremist"]

  /** The first term of the list that occurs in `lower`. */
  function FirstContained(lower: string, terms: seq<string>): (r: Option<string>)
    decreases |terms|
  {
    if terms == [] then None
    else if Contains(lower, terms[0]) then Some(terms[0])
    else FirstContained(lower, terms[1..])
  }

  /** A term is found exactly when one occurs, and it is the earliest that does. */
  lemma {:induction false} FirstContainedMeaning(lower: string, terms: seq<string>)
    ensures FirstContained(lower, terms).Some? <==> exists i :: 0 <= i < |terms| && Contains(lower, terms[i])
    ensures FirstContained(lower, terms).Some? ==>
      exists i :: 0 <= i < |terms| && terms[i] == FirstContained(lower, terms).value && Contains(lower, terms[i])
        && forall j :: 0 <= j < i ==> !Contains(lower, terms[j])
    decreases |terms|
  {
    if terms != [] && !Contains(lower, terms[0]) {
      FirstContainedMeaning(lower, terms[1..]);
      if FirstContained(lower, terms).Some? {
        var i :| 0 <= i < |terms[1..]| && terms[1..][i] == FirstContained(lower, terms).value
          && Contains(lower, terms[1..][i]) && forall j :: 0 <= j < i ==> !Contains(lower, terms[1..][j]);
        assert terms[i + 1] == terms[1..][i];
        forall j | 0 <= j < i + 1 ensures !Contains(lower, terms[j]) {
          if j > 0 {
            assert terms[j] == terms[1..][j - 1];
          }
        }
      } else {
        forall i | 0 <= i < |terms| ensures !Contains(lower, terms[i]) {
          if i > 0 {
            assert terms[i] == terms[1..][i - 1];
          }
        }
      }
    } else if terms != [] {
      assert Contains(lower, terms[0]);
    }
  }

  datatype HeadlineAnalysis = HeadlineAnalysis(spin_score: real, flags: seq<DistortionFlag>)

  function EmotionalFlag(e: EmotionalLoadingResult): DistortionFlag
  {
    DistortionFlag(EmotionalLoading, if e.score > 0.5 then SevHigh else SevMedium,
      "Emotional markers: " + Join(e.markers, ", "), Some("headline"))
  }

  const SENSATIONAL_FLAG: DistortionFlag :=
    DistortionFlag(Sensationalization, SevMedium, "Exclamation or all-caps headline", Some("headline"))

  function PartisanFlag(term: string): DistortionFlag
  {
    DistortionFlag(PartisanFraming, SevMedium, "Partisan term: " + term, Some("headline"))
  }

  predicate Sensational(h: string)
  {
    Contains(h, "!") || h == Upper(h)
  }

  function PushIf(flags: seq<DistortionFlag>, cond: bool, f: DistortionFlag): seq<DistortionFlag>
  {
    if cond then flags + [f] else flags
  }

  /** The flags of the three headline rules, in rule order. */
  function HeadlineFlags(h: string): seq<DistortionFlag>
  {
    var e := EmotionalOf(h);
    var term := FirstContained(Lower(h), PARTISAN_TERMS);
    PushIf(PushIf(PushIf([], e.score > 0.0, EmotionalFlag(e)), Sensational(h), SENSATIONAL_FLAG),
      term.Some?, PartisanFlag(if term.Some? then term.value else ""))
  }

  /** The spin before the cap: 0.4 of the emotional score, 0.2 for sensationalism, 0.15 for a partisan term. */
  function RawSpin(h: string): real
  {
    EmotionalOf(h).score * 0.4 + (if Sensational(h) then 0.2 else 0.0)
    + (if FirstContained(Lower(h), PARTISAN_TERMS).Some? then 0.15 else 0.0)
  }

  /** analyzeHeadline as a function. */
  function HeadlineOf(h: string): HeadlineAnalysis
  {
    HeadlineAnalysis(Min1(RawSpin(h)), HeadlineFlags(h))
  }

  /** analyzeHeadline: the emotional and sensational rules, then the partisan loop that stops at the first term. */
  method AnalyzeHeadline(headline: string) returns (r: HeadlineAnalysis)
    ensures r == HeadlineOf(headline)
  {
    var flags: seq<DistortionFlag> := [];
    var spinScore := 0.0;
    var emotional := DetectEmotionalLoading(headline);
    if emotional.score > 0.0 {
      spinScore := spinScore + emotional.score * 0.4;
      flags := flags + [EmotionalFlag(emotional)];
    }
    if Contains(headline, "!") || headline == Upper(headline) {
      spinScore := spinScore + 0.2;
      flags := flags + [SENSATIONAL_FLAG];
    }
    var term := FindPartisanTerm(headline);
    if term.Some? {
      spinScore := spinScore + 0.15;
      flags := flags + [PartisanFlag(term.value)];
    }
    assert spinScore == RawSpin(headline);
    r := HeadlineAnalysis(Min1(spinScore), flags);
  }

  /** The partisan loop, which breaks at the first term found. */
  method FindPartisanTerm(headline: string) returns (term: Option<string>)
    ensures term == FirstContained(Lower(headline), PARTISAN_TERMS)
  {
    var lower := Lower(headline);
    var i := 0;
    while i < |PARTISAN_TERMS|
      invariant i <= |PARTISAN_TERMS|
      invariant FirstContained(lower, PARTISAN_TERMS) == FirstContained(lower, PARTISAN_TERMS[i..])
    {
      if Contains(lower, PARTISAN_TERMS[i]) {
        return Some(PARTISAN_TERMS[i]);
      }
      assert PARTISAN_TERMS[i..][1..] == PARTISAN_TERMS[i + 1..];
      i := i + 1;
    }
    return None;
  }

  function CountKind(flags: seq<DistortionFlag>, k: FlagType): nat
    decreases |flags|
  {
    if flags == [] then 0
    else CountKind(flags[..|flags| - 1], k) + (if flags[|flags| - 1].kind == k then 1 else 0)
  }

  lemma CountKindPushIf(flags: seq<DistortionFlag>, cond: bool, f: DistortionFlag)
    ensures forall k :: CountKind(PushIf(flags, cond, f), k) == CountKind(flags, k) + (if cond && f.kind == k then 1 else 0)
    ensures |PushIf(flags, cond, f)| == |flags| + (if cond then 1 else 0)
  {
    if cond {
      assert (flags + [f])[..|flags|] == flags;
    }
  }

  /**
    analyzeHeadline: an emotional-loading flag exactly when the emotional
    score is positive, high exactly above 0.5; a sensationalization flag
    exactly for a "!" or an all-caps headline; one partisan flag exactly
    when a partisan term occurs; hence at most three flags.
   */
  lemma HeadlineFlagRules(h: string)
    ensures var flags := HeadlineOf(h).flags;
      var e := EmotionalOf(h);
      CountKind(flags, EmotionalLoading) == (if e.score > 0.0 then 1 else 0)
      && (e.score > 0.0 ==> flags[0].severity == (if e.score > 0.5 then SevHigh else SevMedium))
      && CountKind(flags, Sensationalization) == (if Sensational(h) then 1 else 0)
      && CountKind(flags, PartisanFraming) == (if FirstContained(Lower(h), PARTISAN_TERMS).Some? then 1 else 0)
      && |flags| <= 3
  {
    var e := EmotionalOf(h);
    var term := FirstContained(Lower(h), PARTISAN_TERMS);
    ThreeRules(e.score > 0.0, Sensational(h), term.Some?,
      EmotionalFlag(e), SENSATIONAL_FLAG, PartisanFlag(if term.Some? then term.value else ""));
  }

  /** Three rules of three different kinds, each pushing its flag when it fires. */
  lemma ThreeRules(c0: bool, c1: bool, c2: bool, g0: DistortionFlag, g1: DistortionFlag, g2: DistortionFlag)
    requires g0.kind == EmotionalLoading && g1.kind == Sensationalization && g2.kind == PartisanFraming
    ensures var flags := PushIf(PushIf(PushIf([], c0, g0), c1, g1), c2, g2);
      CountKind(flags, EmotionalLoading) == (if c0 then 1 else 0)
      && CountKind(flags, Sensationalization) == (if c1 then 1 else 0)
      && CountKind(flags, PartisanFraming) == (if c2 then 1 else 0)
      && (c0 ==> flags[0] == g0)
      && |flags| <= 3
  {
    var f0 := PushIf([], c0, g0);
    var f1 := PushIf(f0, c1, g1);
    CountKindPushIf([], c0, g0);
    CountKindPushIf(f0, c1, g1);
    CountKindPushIf(f1, c2, g2);
  }

  /** The spin is the capped sum of the rules' shares, in [0,1]. */
  lemma HeadlineSpinBounds(h: string)
    ensures 0.0 <= HeadlineOf(h).spin_score <= 1.0
    ensures RawSpin(h) <= 1.0 ==> HeadlineOf(h).spin_score == RawSpin(h)
  {
    EmotionalScore(h);
  }

  /** A headline without lower-case letters is its own upper case, so it is flagged as sensational. */
  lemma LetterlessIsSensational(h: string)
    requires forall i :: 0 <= i < |h| ==> !('a' <= h[i] <= 'z')
    ensures Sensational(h)
  {
    assert Upper(h) == h;
  }

  function Max0(x: real): real
  {
    if x > 0.0 then x else 0.0
  }

  /** One quote's integrity: truncation, missing context and shortness each take their share off 1. */
  function QuoteScore(q: ExtractedQuote): (r: real)
    ensures 0.4 <= r <= 1.0
  {
    Max0(1.0 - (if q.is_truncated then 0.3 else 0.0)
      - (if q.context_before == "" && q.context_after == "" then 0.2 else 0.0)
      - (if |q.text| < 20 then 0.1 else 0.0))
  }

  function IntegritySum(qs: seq<ExtractedQuote>): real
    decreases |qs|
  {
    if qs == [] then 0.0 else IntegritySum(qs[..|qs| - 1]) + QuoteScore(qs[|qs| - 1])
  }

  function QuoteIntegrityOf(qs: seq<ExtractedQuote>): real
  {
    if |qs| == 0 then 1.0 else IntegritySum(qs) / |qs| as real
  }

  /** analyzeQuoteIntegrity: the mean of the per-quote scores, 1 without quotes. */
  method AnalyzeQuoteIntegrity(qs: seq<ExtractedQuote>) returns (r: real)
    ensures r == QuoteIntegrityOf(qs)
  {
    if |qs| == 0 {
      return 1.0;
    }
    var integritySum := 0.0;
    for i := 0 to |qs|
      invariant integritySum == IntegritySum(qs[..i])
    {
      assert qs[..i + 1][..i] == qs[..i];
      var quoteIntegrity := 1.0;
      if qs[i].is_truncated {
        quoteIntegrity := quoteIntegrity - 0.3;
      }
      if qs[i].context_before == "" && qs[i].context_after == "" {
        quoteIntegrity := quoteIntegrity - 0.2;
      }
      if |qs[i].text| < 20 {
        quoteIntegrity := quoteIntegrity - 0.1;
      }
      integritySum := integritySum + Max0(quoteIntegrity);
    }
    assert qs[..|qs|] == qs;
    r := integritySum / |qs| as real;
  }

  lemma {:induction false} IntegritySumBounds(qs: seq<ExtractedQuote>)
    ensures 0.4 * |qs| as real <= IntegritySum(qs) <= |qs| as real
    decreases |qs|
  {
    if qs != [] {
      IntegritySumBounds(qs[..|qs| - 1]);
    }
  }

  lemma MeanBounds(sum: real, n: real)
    requires n > 0.0 && 0.4 * n <= sum <= n
    ensures 0.4 <= sum / n <= 1.0
  {
    assert sum / n * n == sum;
  }

  /**
    Each quote scores in [0.4, 1] (the floor at 0 is never reached), so
    the integrity is in [0.4, 1], and exactly 1 without quotes.
   */
  lemma QuoteIntegrityBounds(qs: seq<ExtractedQuote>)
    ensures 0.4 <= QuoteIntegrityOf(qs) <= 1.0
    ensures qs == [] ==> QuoteIntegrityOf(qs) == 1.0
  {
    if qs != [] {
      IntegritySumBounds(qs);
      MeanBounds(IntegritySum(qs), |qs| as real);
    }
  }

  /** The parameters of processNewsContent; the publish date may be absent. */
  datatype NewsParams = NewsParams(url: string, title: string, outlet: string, content: string, publishDate: Option<string>)

  /** The word "transcript" in any case, or both "Q:" and "A:". */
  predicate HasTranscript(content: string)
  {
    Contains(Lower(content), "transcript") || (Contains(content, "Q:") && Contains(content, "A:"))
  }

  predicate HasVideo(content: string)
  {
    Contains(Lower(content), "video") || Contains(Lower(content), "watch:")
  }

  /** The editorial markers naming sources or hearsay. */
  function AnonymousCount(markers: seq<string>): nat
    decreases |markers|
  {
    if markers == [] then 0
    else
      var n := |markers| - 1;
      AnonymousCount(markers[..n]) + (if Contains(markers[n], "sources") || Contains(markers[n], "reportedly") then 1 else 0)
  }

  function Speakers(qs: seq<ExtractedQuote>): (r: seq<string>)
    ensures |r| == |qs| && forall i :: 0 <= i < |qs| ==> r[i] == qs[i].speaker
  {
    seq(|qs|, i requires 0 <= i < |qs| => qs[i].speaker)
  }

  function Occurrences(xs: seq<string>, x: string): nat
    decreases |xs|
  {
    if xs == [] then 0
    else Occurrences(xs[..|xs| - 1], x) + (if xs[|xs| - 1] == x then 1 else 0)
  }

  /**
    The first key with the largest count: the entry a stable sort by
    descending count puts first.
   */
  function TopOf(keys: seq<string>, xs: seq<string>): Option<string>
    decreases |keys|
  {
    if keys == [] then None
    else
      var n := |keys| - 1;
      var best := TopOf(keys[..n], xs);
      if best.None? || Occurrences(xs, keys[n]) > Occurrences(xs, best.value) then Some(keys[n]) else best
  }

  /** The speaker quoted most often, the first-quoted on a tie; "Unknown" without quotes. */
  function TopSpeaker(qs: seq<ExtractedQuote>): string
  {
    var names := Speakers(qs);
    var top := TopOf(Distinct(names), names);
    if top.Some? then OrElse(top.value, "Unknown") else "Unknown"
  }

  lemma {:induction false} TopOfIn(keys: seq<string>, xs: seq<string>)
    requires keys != []
    ensures TopOf(keys, xs).Some? && TopOf(keys, xs).value in keys
    ensures forall j :: 0 <= j < |keys| ==> Occurrences(xs, keys[j]) <= Occurrences(xs, TopOf(keys, xs).value)
    decreases |keys|
  {
    var n := |keys| - 1;
    if n > 0 {
      TopOfIn(keys[..n], xs);
    }
  }

  /** No key before the top one (by position) has as large a count. */
  lemma {:induction false} TopOfFirst(keys: seq<string>, xs: seq<string>)
    requires keys != []
    ensures TopOf(keys, xs).Some? && TopOf(keys, xs).value in keys
    ensures forall j :: 0 <= j < FirstPos(keys, TopOf(keys, xs).value) ==>
      Occurrences(xs, keys[j]) < Occurrences(xs, TopOf(keys, xs).value)
    decreases |keys|
  {
    TopOfIn(keys, xs);
    var n := |keys| - 1;
    var p := keys[..n];
    if p == [] {
      assert keys == [keys[n]];
      assert FirstPos(keys, keys[n]) == 0;
    } else {
      TopOfFirst(p, xs);
      TopOfIn(p, xs);
      var best := TopOf(p, xs).value;
      if Occurrences(xs, keys[n]) > Occurrences(xs, best) {
        NewTopStep(keys, xs, best);
      } else {
        assert keys == p + [keys[n]];
        OldTopStep(p, keys[n], xs, best);
      }
    }
  }

  /** A last key that beats the best of the earlier ones is first seen at the end. */
  lemma NewTopStep(keys: seq<string>, xs: seq<string>, best: string)
    requires |keys| > 1
    requires forall j :: 0 <= j < |keys| - 1 ==> Occurrences(xs, keys[j]) <= Occurrences(xs, best)
    requires Occurrences(xs, keys[|keys| - 1]) > Occurrences(xs, best)
    ensures forall j :: 0 <= j < FirstPos(keys, keys[|keys| - 1]) ==>
      Occurrences(xs, keys[j]) < Occurrences(xs, keys[|keys| - 1])
  {
    assert keys[|keys| - 1] in keys;
  }

  /** The best of the earlier keys keeps its first position once a key is appended. */
  lemma OldTopStep(p: seq<string>, y: string, xs: seq<string>, best: string)
    requires best in p
    requires forall j :: 0 <= j < FirstPos(p, best) ==> Occurrences(xs, p[j]) < Occurrences(xs, best)
    ensures best in p + [y]
    ensures forall j :: 0 <= j < FirstPos(p + [y], best) ==> Occurrences(xs, (p + [y])[j]) < Occurrences(xs, best)
  {
    FirstPosSnoc(p, y, best);
    forall j | 0 <= j < FirstPos(p + [y], best) ensures Occurrences(xs, (p + [y])[j]) < Occurrences(xs, best) {
      assert (p + [y])[j] == p[j];
    }
  }

  /**
    The record's speaker is quoted at least as often as every other
    speaker, strictly more often than every speaker first quoted before it,
    and is "Unknown" only without quotes or for an empty name.
   */
  lemma TopSpeakerRule(qs: seq<ExtractedQuote>)
    ensures qs == [] ==> TopSpeaker(qs) == "Unknown"
    ensures qs != [] ==>
      var names := Speakers(qs);
      var top := TopOf(Distinct(names), names).value;
      top in names && TopSpeaker(qs) == OrElse(top, "Unknown")
      && (forall s :: s in names ==> Occurrences(names, s) <= Occurrences(names, top))
      && (forall s :: s in names && FirstPos(names, s) < FirstPos(names, top) ==> Occurrences(names, s) < Occurrences(names, top))
  {
    if qs != [] {
      var names := Speakers(qs);
      var d := Distinct(names);
      DistinctMeaning(names);
      assert names[0] in d;
      TopOfIn(d, names);
      TopOfFirst(d, names);
      var top := TopOf(d, names).value;
      var b := FirstPos(d, top);
      forall s | s in names ensures Occurrences(names, s) <= Occurrences(names, top) {
        var a := FirstPos(d, s);
      }
      forall s | s in names && FirstPos(names, s) < FirstPos(names, top)
        ensures Occurrences(names, s) < Occurrences(names, top)
      {
        var a := FirstPos(d, s);
      }
    }
  }

  /** The classification signals processNewsContent derives from the content. */
  function SignalsOf(content: string, quotes: seq<ExtractedQuote>, editorial: seq<string>): SourceSignals
  {
    SourceSignals(
      Some(HasTranscript(content)),
      Some(|quotes| >= 3),
      Some(HasVideo(content)),
      Some(|editorial| > 2),
      Some("sources say" in editorial || "according to sources" in editorial),
      Some(|quotes|))
  }

  /** Only quote integrity and headline spin are measured; the other components are fixed at 0. */
  function DistortionOf(quotes: seq<ExtractedQuote>, title: string): DistortionAnalysis
  {
    DistortionAnalysis(Some(QuoteIntegrityOf(quotes)), Some(0.0), Some(HeadlineOf(title).spin_score), Some(0.0), Some(0.0))
  }

  /**
    processNewsContent. The quote-pattern matches over the content are
    parameters, as are the clock's milliseconds (for the id) and its ISO
    timestamp (the default publish date).
   */
  function ProcessNewsContentOf(p: NewsParams, m1: seq<QuoteMatch>, m2: seq<QuoteMatch>, nowMs: nat, nowIso: string): NewsRecord
  {
    var quotes := ExtractQuotesOf(p.content, m1, m2);
    var editorial := FoundIn(Lower(p.content), EDITORIAL_MARKERS);
    var transcript := HasTranscript(p.content);
    var classification := ClassifyNewsSource(SignalsOf(p.content, quotes, editorial));
    NewsRecord(
      "news_" + NatToString(nowMs), p.url, p.title, p.outlet,
      OrElse(if p.publishDate.Some? then p.publishDate.value else "", nowIso),
      classification.role,
      if transcript then Transcript else if |quotes| > 0 then VerbatimQuote else Summary,
      TopSpeaker(quotes), p.outlet,
      Join(seq(|quotes|, i requires 0 <= i < |quotes| => quotes[i].text), "\n\n"),
      p.content,
      DistortionScoreOf(DistortionOf(quotes, p.title)),
      quotes,
      NewsMetadata(transcript, HasVideo(p.content), false, |quotes|, AnonymousCount(editorial), editorial))
  }

  /**
    The record's source type is a transcript exactly when the content has
    transcript cues, otherwise verbatim quotes exactly when a quote was
    extracted; the metadata counts the extracted quotes, the carrier is the
    outlet, the narrative is the content, no audio is claimed, and the
    publish date falls back to the current time when absent or empty.
   */
  lemma ProcessNewsFields(p: NewsParams, m1: seq<QuoteMatch>, m2: seq<QuoteMatch>, nowMs: nat, nowIso: string)
    ensures var r := ProcessNewsContentOf(p, m1, m2, nowMs, nowIso);
      r.extracted_quotes == ExtractQuotesOf(p.content, m1, m2)
      && (r.source_type == Transcript <==> r.metadata.has_transcript)
      && (r.source_type == VerbatimQuote <==> !r.metadata.has_transcript && r.extracted_quotes != [])
      && (r.source_type == Summary <==> !r.metadata.has_transcript && r.extracted_quotes == [])
      && r.metadata.quote_count == |r.extracted_quotes| <= |m1| + |m2|
      && r.carrier == r.outlet == p.outlet && r.narrative_text == p.content && !r.metadata.has_audio
      && (p.publishDate.Some? && p.publishDate.value != "" ==> r.publishDate == p.publishDate.value)
      && (p.publishDate.None? || p.publishDate.value == "" ==> r.publishDate == nowIso)
  {
    ExtractQuotesShape(p.content, m1, m2);
  }

  /**
    The editorial markers are the listed markers the content holds, in list
    order and without repeats; the anonymous-source count never exceeds them.
   */
  lemma ProcessNewsMarkers(p: NewsParams, m1: seq<QuoteMatch>, m2: seq<QuoteMatch>, nowMs: nat, nowIso: string)
    ensures var md := ProcessNewsContentOf(p, m1, m2, nowMs, nowIso).metadata;
      (forall x :: x in md.editorial_markers <==> x in EDITORIAL_MARKERS && Contains(Lower(p.content), x))
      && NoDuplicates(md.editorial_markers)
      && md.anonymous_source_count <= |md.editorial_markers| <= |EDITORIAL_MARKERS|
  {
    MarkerListsDistinct();
    FoundInMeaning(Lower(p.content), EDITORIAL_MARKERS);
    AnonymousBound(FoundIn(Lower(p.content), EDITORIAL_MARKERS));
  }

  lemma {:induction false} AnonymousBound(markers: seq<string>)
    ensures AnonymousCount(markers) <= |markers|
    decreases |markers|
  {
    if markers != [] {
      AnonymousBound(markers[..|markers| - 1]);
    }
  }

  /**
    A record is primary speech only with a transcript or video cue, and
    always is when those cues come with no editorial marker at all.
   */
  lemma ProcessNewsRole(p: NewsParams, m1: seq<QuoteMatch>, m2: seq<QuoteMatch>, nowMs: nat, nowIso: string)
    ensures var r := ProcessNewsContentOf(p, m1, m2, nowMs, nowIso);
      (r.content_role == PrimarySpeech ==> r.metadata.has_transcript || r.metadata.has_video)
      && (r.content_role == PrimarySpeech ==> |r.metadata.editorial_markers| <= 2 || r.metadata.quote_count >= 3)
      && ((r.metadata.has_transcript || r.metadata.has_video) && r.metadata.editorial_markers == [] ==> r.content_role == PrimarySpeech)
  {
    var quotes := ExtractQuotesOf(p.content, m1, m2);
    var editorial := FoundIn(Lower(p.content), EDITORIAL_MARKERS);
    ClassificationRules(SignalsOf(p.content, quotes, editorial));
  }

  /**
    The distortion score of a processed record is a quarter of the quote
    integrity's shortfall plus three tenths of the headline spin, so it
    lies in [0, 0.45].
   */
  lemma ProcessNewsDistortion(p: NewsParams, m1: seq<QuoteMatch>, m2: seq<QuoteMatch>, nowMs: nat, nowIso: string)
    ensures var r := ProcessNewsContentOf(p, m1, m2, nowMs, nowIso);
      r.distortion_score == (1.0 - QuoteIntegrityOf(r.extracted_quotes)) * 0.25 + HeadlineOf(p.title).spin_score * 0.3
      && 0.0 <= r.distortion_score <= 0.45
  {
    var quotes := ExtractQuotesOf(p.content, m1, m2);
    QuoteIntegrityBounds(quotes);
    HeadlineSpinBounds(p.title);
    var a := DistortionOf(quotes, p.title);
    assert Factors(a) == 5;
    assert WeightedDistortion(a) == (1.0 - QuoteIntegrityOf(quotes)) * 0.25 + HeadlineOf(p.title).spin_score * 0.3;
  }

  /** The three distortion bands of getDistortionSummary. */
  function DistortionLevel(score: real): string
  {
    if score < 0.3 then "low" else if score < 0.6 then "moderate" else "high"
  }

  function LevelRank(level: string): nat
  {
    if level == "low" then 0 else if level == "moderate" then 1 else 2
  }

  /** The nearest integer, the larger one on a tie. */
  function RoundHalfUp(x: real): int
  {
    (x + 0.5).Floor
  }

  /**
    `toFixed(0)` on an exact value: a minus sign for a negative value, then
    its magnitude rounded half up, so a small negative value prints "-0".
   */
  function ToFixed0(x: real): (s: string)
    ensures |s| >= 1 && (s[0] == '-' <==> x < 0.0)
    ensures forall i :: (if x < 0.0 then 1 else 0) <= i < |s| ==> '0' <= s[i] <= '9'
  {
    var m := if x < 0.0 then -x else x;
    var digits := NatToString(RoundHalfUp(m));
    if x < 0.0 then "-" + digits else digits
  }

  /** `toFixed` rounds the magnitude, so negating a positive value only adds the sign. */
  lemma ToFixed0Symmetric(x: real)
    requires x > 0.0
    ensures ToFixed0(-x) == "-" + ToFixed0(x)
  {
  }

  /** A value within half a unit below zero prints as "-0", not "0". */
  lemma ToFixed0NegativeZero(x: real)
    requires -0.5 < x < 0.0
    ensures ToFixed0(x) == "-0"
  {
    assert RoundHalfUp(-x) == 0;
  }

  /** getDistortionSummary. */
  function DistortionSummary(r: NewsRecord): string
  {
    if r.content_role == PrimarySpeech then
      "Primary source: " + NatToString(|r.extracted_quotes|) + " verbatim quotes from " + r.speaker
      + ". Carrier: " + r.carrier + "."
    else
      "Media narrative with " + DistortionLevel(r.distortion_score) + " distortion ("
      + ToFixed0(r.distortion_score * 100.0) + "%). "
      + NatToString(|r.metadata.editorial_markers|) + " editorial markers detected."
  }

  /** A higher score never gets a lower band. */
  lemma LevelMonotone(a: real, b: real)
    requires a <= b
    ensures LevelRank(DistortionLevel(a)) <= LevelRank(DistortionLevel(b))
  {
  }

  /** Scores in [0,1] print, without a sign, as whole percentages in [0,100]. */
  lemma PercentBounds(score: real)
    requires 0.0 <= score <= 1.0
    ensures 0 <= RoundHalfUp(score * 100.0) <= 100
    ensures ToFixed0(score * 100.0) == NatToString(RoundHalfUp(score * 100.0))
  {
  }

  /**
    The summary opens "Primary source: " exactly for primary speech and
    "Media narrative with " exactly for a media narrative.
   */
  lemma SummaryKind(r: NewsRecord)
    ensures IsPrefix("Primary source: ", DistortionSummary(r)) <==> r.content_role == PrimarySpeech
    ensures IsPrefix("Media narrative with ", DistortionSummary(r)) <==> r.content_role == MediaNarrative
  {
    var s := DistortionSummary(r);
    if r.content_role == PrimarySpeech {
      assert s[..16] == "Primary source: ";
      assert s[0] == 'P';
    } else {
      assert s[..21] == "Media narrative with ";
      assert s[0] == 'M';
    }
  }

  /** A processed record's summary never reports high distortion. */
  lemma ProcessedNeverHigh(p: NewsParams, m1: seq<QuoteMatch>, m2: seq<QuoteMatch>, nowMs: nat, nowIso: string)
    ensures DistortionLevel(ProcessNewsContentOf(p, m1, m2, nowMs, nowIso).distortion_score) != "high"
  {
    ProcessNewsDistortion(p, m1, m2, nowMs, nowIso);
  }
}
