/**
  The arithmetic of the mobile EDCM build: tokenising, novelty, type-token
  ratio, literal pattern counts, the two risk scores and the text bar.
 */
module EdcmLite {
  import opened Text

  // ---------------------------------------------------------------------
  // Tokens: the pattern `\b\w+\b|[^\w\s]` over the lower-cased text
  // ---------------------------------------------------------------------

  /** `\s` on Python strings: the characters `str.isspace` accepts. */
  predicate IsPySpace(c: char)
  {
    c == ' ' || ('\t' <= c <= '\r') || ('\U{001C}' <= c <= '\U{001F}') || c == '\U{0085}'
    || c == '\U{00A0}' || c == '\U{1680}' || ('\U{2000}' <= c <= '\U{200A}')
    || c == '\U{2028}' || c == '\U{2029}' || c == '\U{202F}' || c == '\U{205F}' || c == '\U{3000}'
  }

  /** `\w`, restricted to the ASCII letters, digits and underscore. */
  predicate IsWordChar(c: char)
  {
    ('a' <= c <= 'z') || ('A' <= c <= 'Z') || ('0' <= c <= '9') || c == '_'
  }

  /** The length of the run of word characters that opens `s`. */
  function WordRun(s: string): (k: nat)
    ensures k <= |s|
  {
    if s != [] && IsWordChar(s[0]) then 1 + WordRun(s[1..]) else 0
  }

  /** The opening word run is maximal: word characters up to its end, none right after it. */
  lemma {:induction false} WordRunMaximal(s: string)
    ensures forall i :: 0 <= i < WordRun(s) ==> IsWordChar(s[i])
    ensures WordRun(s) < |s| ==> !IsWordChar(s[WordRun(s)])
    decreases |s|
  {
    if s != [] && IsWordChar(s[0]) {
      WordRunMaximal(s[1..]);
      assert forall i :: 1 <= i < WordRun(s) ==> s[i] == s[1..][i - 1];
    }
  }

  /**
    `findall` from left to right: a maximal run of word characters is one
    token, any other non-space character is a token of its own, and spaces
    separate tokens.
   */
  function Tokens(s: string): seq<string>
    decreases |s|
  {
    if s == [] then []
    else if IsWordChar(s[0]) then
      var k := WordRun(s);
      [s[..k]] + Tokens(s[k..])
    else if IsPySpace(s[0]) then Tokens(s[1..])
    else [[s[0]]] + Tokens(s[1..])
  }

  /** tokenize: no tokens for the empty text, otherwise the tokens of the lower-cased text. */
  function Tokenize(text: string): seq<string>
  {
    if text == "" then [] else Tokens(Lower(text))
  }

  /** A token is a non-empty run of word characters or one other non-space character. */
  predicate IsToken(t: string)
  {
    t != [] && (!IsWordChar(t[0]) ==> |t| == 1)
    && forall i :: 0 <= i < |t| ==> !IsPySpace(t[i]) && (IsWordChar(t[i]) <==> IsWordChar(t[0]))
  }

  predicate IsLowered(t: string)
  {
    forall i :: 0 <= i < |t| ==> !('A' <= t[i] <= 'Z')
  }

  function Concat(ts: seq<string>): string
    decreases |ts|
  {
    if ts == [] then [] else ts[0] + Concat(ts[1..])
  }

  /** The non-space characters of `s`, in order. */
  function NonSpace(s: string): string
    decreases |s|
  {
    if s == [] then [] else (if IsPySpace(s[0]) then [] else [s[0]]) + NonSpace(s[1..])
  }

  lemma WordCharNotSpace(c: char)
    requires IsWordChar(c)
    ensures !IsPySpace(c)
  {
  }

  lemma {:induction false} NonSpaceOfRun(s: string, k: nat)
    requires k <= WordRun(s)
    ensures NonSpace(s) == s[..k] + NonSpace(s[k..])
    decreases k
  {
    if k > 0 {
      NonSpaceOfRun(s[1..], k - 1);
      WordCharNotSpace(s[0]);
      assert NonSpace(s) == [s[0]] + NonSpace(s[1..]);
      assert s[1..][k - 1..] == s[k..];
      assert s[..k] == [s[0]] + s[1..][..k - 1];
    }
  }

  /**
    Every token is a well-formed token, and the tokens laid end to end give
    back the text without its spaces: nothing but spaces is dropped.
   */
  lemma {:induction false} TokensCover(s: string)
    ensures forall t :: t in Tokens(s) ==> IsToken(t)
    ensures Concat(Tokens(s)) == NonSpace(s)
    decreases |s|
  {
    if s != [] {
      if IsWordChar(s[0]) {
        TokensCover(s[WordRun(s)..]);
        WordTokenStep(s);
      } else {
        TokensCover(s[1..]);
        OtherTokenStep(s);
      }
    }
  }

  /** A word run followed by a covered rest is covered. */
  lemma WordTokenStep(s: string)
    requires s != [] && IsWordChar(s[0])
    requires var rest := s[WordRun(s)..];
      (forall t :: t in Tokens(rest) ==> IsToken(t)) && Concat(Tokens(rest)) == NonSpace(rest)
    ensures (forall t :: t in Tokens(s) ==> IsToken(t)) && Concat(Tokens(s)) == NonSpace(s)
  {
    var k := WordRun(s);
    WordRunMaximal(s);
    NonSpaceOfRun(s, k);
    var w := s[..k];
    var ts := Tokens(s[k..]);
    assert Tokens(s) == [w] + ts;
    assert ([w] + ts)[1..] == ts;
    forall i | 0 <= i < |w| ensures IsWordChar(w[i]) && !IsPySpace(w[i]) {
      WordCharNotSpace(s[i]);
    }
    assert IsToken(w);
  }

  /** A space or a single other character followed by a covered rest is covered. */
  lemma OtherTokenStep(s: string)
    requires s != [] && !IsWordChar(s[0])
    requires (forall t :: t in Tokens(s[1..]) ==> IsToken(t)) && Concat(Tokens(s[1..])) == NonSpace(s[1..])
    ensures (forall t :: t in Tokens(s) ==> IsToken(t)) && Concat(Tokens(s)) == NonSpace(s)
  {
    var ts := Tokens(s[1..]);
    if IsPySpace(s[0]) {
      assert Tokens(s) == ts;
      assert NonSpace(s) == NonSpace(s[1..]);
    } else {
      assert Tokens(s) == [[s[0]]] + ts;
      assert ([[s[0]]] + ts)[1..] == ts;
      assert IsToken([s[0]]);
    }
  }

  lemma {:induction false} TokensOfLowered(s: string)
    requires IsLowered(s)
    ensures forall t :: t in Tokens(s) ==> IsLowered(t)
    decreases |s|
  {
    if s != [] {
      if IsWordChar(s[0]) {
        TokensOfLowered(s[WordRun(s)..]);
      } else {
        TokensOfLowered(s[1..]);
      }
    }
  }

  /**
    tokenize: no tokens for the empty text; every token is non-empty,
    lower-case and free of spaces; joined they give the lower-cased text
    without its spaces.
   */
  lemma TokenizeShape(text: string)
    ensures text == "" ==> Tokenize(text) == []
    ensures forall t :: t in Tokenize(text) ==> IsToken(t) && IsLowered(t)
    ensures Concat(Tokenize(text)) == NonSpace(Lower(text))
  {
    if text != "" {
      TokensCover(Lower(text));
      TokensOfLowered(Lower(text));
    }
  }

  // ---------------------------------------------------------------------
  // Novelty, overlap and the type-token ratio
  // ---------------------------------------------------------------------

  /** The tokens of `b` (with repeats) that do not occur in `a`. */
  function AbsentCount(a: seq<string>, b: seq<string>): nat
    decreases |b|
  {
    if b == [] then 0 else AbsentCount(a, b[..|b| - 1]) + (if b[|b| - 1] in a then 0 else 1)
  }

  /** The tokens of `b` (with repeats) that occur in `a`. */
  function PresentCount(a: seq<string>, b: seq<string>): nat
    decreases |b|
  {
    if b == [] then 0 else PresentCount(a, b[..|b| - 1]) + (if b[|b| - 1] in a then 1 else 0)
  }

  /** novelty_score: the share of B's tokens not seen in A; 0 for an empty B. */
  function Novelty(a: seq<string>, b: seq<string>): real
  {
    if b == [] then 0.0 else AbsentCount(a, b) as real / |b| as real
  }

  /** Every token of `b` is either absent from `a` or present in it. */
  lemma {:induction false} CountsPartition(a: seq<string>, b: seq<string>)
    ensures AbsentCount(a, b) + PresentCount(a, b) == |b|
    ensures AbsentCount(a, b) == 0 <==> forall i :: 0 <= i < |b| ==> b[i] in a
    ensures PresentCount(a, b) == 0 <==> forall i :: 0 <= i < |b| ==> b[i] !in a
    decreases |b|
  {
    if b != [] {
      var n := |b| - 1;
      CountsPartition(a, b[..n]);
      assert forall i :: 0 <= i < n ==> b[..n][i] == b[i];
    }
  }

  lemma RatioBounds(k: nat, n: nat)
    requires 0 < n && k <= n
    ensures 0.0 <= k as real / n as real <= 1.0
    ensures k as real / n as real == 0.0 <==> k == 0
    ensures k as real / n as real == 1.0 <==> k == n
  {
  }

  /**
    novelty_score lies in [0,1]; for a non-empty B it is 0 exactly when
    every B token occurs in A (so novelty(A, A) = 0) and 1 exactly when
    none does.
   */
  lemma NoveltyBounds(a: seq<string>, b: seq<string>)
    ensures 0.0 <= Novelty(a, b) <= 1.0
    ensures b != [] ==> (Novelty(a, b) == 0.0 <==> forall i :: 0 <= i < |b| ==> b[i] in a)
    ensures b != [] ==> (Novelty(a, b) == 1.0 <==> forall i :: 0 <= i < |b| ==> b[i] !in a)
    ensures Novelty(b, b) == 0.0
  {
    CountsPartition(a, b);
    CountsPartition(b, b);
    if b != [] {
      RatioBounds(AbsentCount(a, b), |b|);
      RatioBounds(AbsentCount(b, b), |b|);
    }
  }

  /** The distinct tokens. */
  function TypeCount(tokens: seq<string>): nat
  {
    |set t | t in tokens|
  }

  /** ttr: distinct tokens over tokens, 0 without tokens. */
  function Ttr(tokens: seq<string>): real
  {
    if tokens == [] then 0.0 else TypeCount(tokens) as real / |tokens| as real
  }

  function RepetitionRatio(tokens: seq<string>): real
  {
    1.0 - Ttr(tokens)
  }

  lemma {:induction false} TypeCountBounds(tokens: seq<string>)
    ensures tokens != [] ==> 1 <= TypeCount(tokens)
    ensures TypeCount(tokens) <= |tokens|
    ensures TypeCount(tokens) == |tokens| <==> NoDuplicates(tokens)
    decreases |tokens|
  {
    if tokens != [] {
      var n := |tokens| - 1;
      var p := tokens[..n];
      TypeCountBounds(p);
      assert tokens == p + [tokens[n]];
      assert (set t | t in tokens) == (set t | t in p) + {tokens[n]};
      if tokens[n] in p {
        assert !NoDuplicates(tokens) by {
          var j :| 0 <= j < n && p[j] == tokens[n];
          assert tokens[j] == tokens[n];
        }
      } else {
        assert tokens[n] !in (set t | t in p);
        assert NoDuplicates(tokens) <==> NoDuplicates(p) by {
          assert forall i :: 0 <= i < n ==> tokens[i] == p[i];
        }
      }
    }
  }

  /**
    ttr is 0 without tokens and in (0,1] otherwise, 1 exactly when no token
    repeats; repetition_ratio is its complement, so 1 without tokens and
    0 exactly for a list without repeats.
   */
  lemma TtrBounds(tokens: seq<string>)
    ensures tokens == [] ==> Ttr(tokens) == 0.0 && RepetitionRatio(tokens) == 1.0
    ensures tokens != [] ==> 0.0 < Ttr(tokens) <= 1.0 && 0.0 <= RepetitionRatio(tokens) < 1.0
    ensures tokens != [] ==> (Ttr(tokens) == 1.0 <==> NoDuplicates(tokens))
    ensures tokens != [] ==> (RepetitionRatio(tokens) == 0.0 <==> NoDuplicates(tokens))
  {
    TypeCountBounds(tokens);
    if tokens != [] {
      RatioBounds(TypeCount(tokens), |tokens|);
    }
  }

  // ---------------------------------------------------------------------
  // Literal pattern counts
  // ---------------------------------------------------------------------

  /**
    `str.count`: occurrences of `p` in `s` that do not overlap, found from
    the left; an empty pattern is counted at each of the |s| + 1 positions.
   */
  function CountOf(s: string, p: string): nat
    decreases |s|
  {
    if p == [] then |s| + 1
    else if |s| < |p| then 0
    else if s[..|p|] == p then 1 + CountOf(s[|p|..], p)
    else CountOf(s[1..], p)
  }

  /** A non-empty pattern is counted exactly when it occurs. */
  lemma {:induction false} CountOfContains(s: string, p: string)
    requires p != []
    ensures CountOf(s, p) > 0 <==> Contains(s, p)
    decreases |s|
  {
    if s != [] {
      if |s| >= |p| && s[..|p|] == p {
        assert IsPrefix(p, s);
      } else {
        CountOfContains(s[1..], p);
        assert !IsPrefix(p, s);
        assert Contains(s, p) <==> Contains(s[1..], p);
      }
    }
  }

  /** The counted occurrences of a non-empty pattern fit side by side in `s`. */
  lemma {:induction false} CountOfBound(s: string, p: string)
    requires p != []
    ensures CountOf(s, p) * |p| <= |s|
    decreases |s|
  {
    if |s| >= |p| {
      if s[..|p|] == p {
        CountOfBound(s[|p|..], p);
        OneMoreTimes(CountOf(s[|p|..], p), |p|, |s| - |p|);
      } else {
        CountOfBound(s[1..], p);
      }
    }
  }

  lemma OneMoreTimes(c: nat, n: nat, rest: nat)
    requires c * n <= rest
    ensures (1 + c) * n <= rest + n
  {
    assert (1 + c) * n == n + c * n;
  }

  function SumCounts(s: string, pats: seq<string>): nat
    decreases |pats|
  {
    if pats == [] then 0 else SumCounts(s, pats[..|pats| - 1]) + CountOf(s, pats[|pats| - 1])
  }

  /** count_patterns: 0 for the empty text, else the counts of every pattern in the lower-cased text. */
  function CountPatterns(text: string, pats: seq<string>): nat
  {
    if text == "" then 0 else SumCounts(Lower(text), pats)
  }

  lemma {:induction false} SumCountsZero(s: string, pats: seq<string>)
    requires forall i :: 0 <= i < |pats| ==> pats[i] != []
    ensures SumCounts(s, pats) == 0 <==> forall i :: 0 <= i < |pats| ==> !Contains(s, pats[i])
    decreases |pats|
  {
    if pats != [] {
      var n := |pats| - 1;
      SumCountsZero(s, pats[..n]);
      CountOfContains(s, pats[n]);
      assert forall i :: 0 <= i < n ==> pats[..n][i] == pats[i];
    }
  }

  /**
    With non-empty patterns, count_patterns is 0 exactly when the text is
    empty or no pattern occurs in its lower-cased form.
   */
  lemma CountPatternsZero(text: string, pats: seq<string>)
    requires forall i :: 0 <= i < |pats| ==> pats[i] != []
    ensures CountPatterns(text, pats) == 0 <==>
      text == "" || forall i :: 0 <= i < |pats| ==> !Contains(Lower(text), pats[i])
  {
    if text != "" {
      SumCountsZero(Lower(text), pats);
    }
  }

  // ---------------------------------------------------------------------
  // mobile_analyze: the numeric part
  // ---------------------------------------------------------------------

  const REFUSAL_PATTERNS: seq<string> := ["can't", "cannot", "sorry", "unable", "refuse", "won't"]
  const HEDGE_PATTERNS: seq<string> := ["maybe", "perhaps", "might", "could", "i think", "i guess", "it seems"]

  function MinR(x: real, y: real): real
  {
    if x <= y then x else y
  }

  function MaxR(x: real, y: real): real
  {
    if x >= y then x else y
  }

  /** Pattern hits per 1000 characters, the length floored at 1. */
  function Density(count: nat, len: nat): real
  {
    count as real * 1000.0 / (if len > 1 then len else 1) as real
  }

  /** The share of B's tokens that occur in the correction; 0 unless both have tokens. */
  function CorrOverlap(tc: seq<string>, tb: seq<string>): real
  {
    if tc != [] && tb != [] then PresentCount(tc, tb) as real / |tb| as real else 0.0
  }

  function RiskFixation(repB: real, novelty: real): real
  {
    MinR(0.55 * repB + 0.45 * (1.0 - novelty), 1.0)
  }

  function RiskEscalation(refusal: real, novelty: real, corr: real): real
  {
    MinR(0.45 * MinR(refusal / 5.0, 1.0) + 0.35 * (1.0 - novelty) + 0.20 * (1.0 - corr), 1.0)
  }

  /** The numbers mobile_analyze reports. */
  datatype MobileMetrics = MobileMetrics(
    tokens_a: nat,
    tokens_b: nat,
    novelty: real,
    repetition_b: real,
    correction_overlap_b: real,
    refusal_density: real,
    hedging_density: real,
    risk_fixation: real,
    risk_escalation: real)

  function MobileAnalyze(prompt: string, respA: string, correction: string, respB: string): MobileMetrics
  {
    var ta := Tokenize(respA);
    var tb := Tokenize(respB);
    var tc := Tokenize(correction);
    var refusal := Density(CountPatterns(respB, REFUSAL_PATTERNS), |respB|);
    var hedge := Density(CountPatterns(respB, HEDGE_PATTERNS), |respB|);
    var novelty := Novelty(ta, tb);
    var rep := RepetitionRatio(tb);
    var corr := CorrOverlap(tc, tb);
    MobileMetrics(|ta|, |tb|, novelty, rep, corr, refusal, hedge,
      RiskFixation(rep, novelty), RiskEscalation(refusal, novelty, corr))
  }

  lemma CorrOverlapBounds(tc: seq<string>, tb: seq<string>)
    ensures 0.0 <= CorrOverlap(tc, tb) <= 1.0
    ensures tc == [] || tb == [] ==> CorrOverlap(tc, tb) == 0.0
  {
    if tc != [] && tb != [] {
      CountsPartition(tc, tb);
      RatioBounds(PresentCount(tc, tb), |tb|);
    }
  }

  /**
    mobile_analyze: novelty, repetition and correction overlap lie in
    [0,1], the densities are non-negative, and both risks lie in [0,1].
   */
  lemma MobileAnalyzeBounds(prompt: string, respA: string, correction: string, respB: string)
    ensures var m := MobileAnalyze(prompt, respA, correction, respB);
      0.0 <= m.novelty <= 1.0 && 0.0 <= m.repetition_b <= 1.0 && 0.0 <= m.correction_overlap_b <= 1.0
      && 0.0 <= m.refusal_density && 0.0 <= m.hedging_density
      && 0.0 <= m.risk_fixation <= 1.0 && 0.0 <= m.risk_escalation <= 1.0
  {
    var ta, tb, tc := Tokenize(respA), Tokenize(respB), Tokenize(correction);
    NoveltyBounds(ta, tb);
    TtrBounds(tb);
    CorrOverlapBounds(tc, tb);
  }

  /**
    More novelty never raises either risk, and a larger correction overlap
    never raises the escalation risk.
   */
  lemma RisksAntitone(rep: real, refusal: real, n1: real, n2: real, c1: real, c2: real)
    requires n1 <= n2 && c1 <= c2
    ensures RiskFixation(rep, n2) <= RiskFixation(rep, n1)
    ensures RiskEscalation(refusal, n2, c2) <= RiskEscalation(refusal, n1, c1)
  {
  }

  /** A response repeating nothing from A scores only its repetition toward fixation. */
  lemma FixationOfFullNovelty(rep: real)
    requires 0.0 <= rep <= 1.0
    ensures RiskFixation(rep, 1.0) == 0.55 * rep
  {
  }

  // ---------------------------------------------------------------------
  // simple_bar
  // ---------------------------------------------------------------------

  const FULL_BLOCK: char := '\U{2588}'
  const LIGHT_SHADE: char := '\U{2591}'

  /** Python's `int()` on a float: truncation toward zero. */
  function TruncToward0(x: real): int
  {
    if x >= 0.0 then x.Floor else -((-x).Floor)
  }

  /** `c * n`: the empty string for n <= 0. */
  function Repeat(c: char, n: int): (r: string)
    ensures |r| == if n > 0 then n else 0
    ensures forall i :: 0 <= i < |r| ==> r[i] == c
    decreases if n > 0 then n else 0
  {
    if n <= 0 then [] else Repeat(c, n - 1) + [c]
  }

  function Filled(value: real, width: int): int
  {
    TruncToward0(MaxR(0.0, MinR(1.0, value)) * width as real)
  }

  function SimpleBar(value: real, width: int): string
  {
    var filled := Filled(value, width);
    Repeat(FULL_BLOCK, filled) + Repeat(LIGHT_SHADE, width - filled)
  }

  lemma MulUnitBound(v: real, w: real)
    requires 0.0 <= v <= 1.0 && 0.0 <= w
    ensures 0.0 <= v * w <= w
  {
  }

  /**
    simple_bar: for a non-negative width, exactly `width` characters, the
    first floor(v * width) of them full blocks and the rest light shades,
    where v is the value clamped to [0,1].
   */
  lemma SimpleBarShape(value: real, width: int)
    requires width >= 0
    ensures var r := SimpleBar(value, width);
      var f := Filled(value, width);
      |r| == width && 0 <= f <= width
      && f == (MaxR(0.0, MinR(1.0, value)) * width as real).Floor
      && (forall i :: 0 <= i < f ==> r[i] == FULL_BLOCK)
      && (forall i :: f <= i < width ==> r[i] == LIGHT_SHADE)
  {
    var x := MaxR(0.0, MinR(1.0, value)) * width as real;
    MulUnitBound(MaxR(0.0, MinR(1.0, value)), width as real);
    FloorBound(x, width);
    var f := Filled(value, width);
    assert f == x.Floor;
    var full, light := Repeat(FULL_BLOCK, f), Repeat(LIGHT_SHADE, width - f);
    assert SimpleBar(value, width) == full + light;
    assert |full| == f && |light| == width - f;
  }

  /** The width simple_bar draws when its caller gives none. */
  const DEFAULT_BAR_WIDTH: int := 10

  /**
    simple_bar with its default width, as the text report draws the novelty
    and risk bars: ten characters, floor(10 v) full blocks then light shades.
   */
  function SimpleBarDefault(value: real): (r: string)
    ensures |r| == DEFAULT_BAR_WIDTH
    ensures Filled(value, DEFAULT_BAR_WIDTH) == (MaxR(0.0, MinR(1.0, value)) * 10.0).Floor
    ensures forall i :: 0 <= i < Filled(value, DEFAULT_BAR_WIDTH) ==> r[i] == FULL_BLOCK
    ensures forall i :: Filled(value, DEFAULT_BAR_WIDTH) <= i < DEFAULT_BAR_WIDTH ==> r[i] == LIGHT_SHADE
  {
    SimpleBarShape(value, DEFAULT_BAR_WIDTH);
    SimpleBar(value, DEFAULT_BAR_WIDTH)
  }

  lemma FloorBound(x: real, n: int)
    requires 0.0 <= x <= n as real
    ensures 0 <= x.Floor <= n
  {
  }

  lemma MulMonotone(a: real, b: real, w: real)
    requires a <= b && 0.0 <= w
    ensures a * w <= b * w
  {
  }

  /** A larger value never fills fewer blocks; 0 or less fills none, 1 or more fills all. */
  lemma FilledMonotone(v1: real, v2: real, width: int)
    requires width >= 0 && v1 <= v2
    ensures Filled(v1, width) <= Filled(v2, width)
    ensures v1 <= 0.0 ==> Filled(v1, width) == 0
    ensures v2 >= 1.0 ==> Filled(v2, width) == width
  {
    var c1, c2 := MaxR(0.0, MinR(1.0, v1)), MaxR(0.0, MinR(1.0, v2));
    var w := width as real;
    MulMonotone(c1, c2, w);
    MulUnitBound(c1, w);
    MulUnitBound(c2, w);
    FloorMonotone(c1 * w, c2 * w);
  }

  lemma FloorMonotone(x: real, y: real)
    requires x <= y
    ensures x.Floor <= y.Floor
  {
    assert x.Floor as real <= x;
    assert y < y.Floor as real + 1.0;
  }
}
