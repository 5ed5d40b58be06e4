/**
  calculateFeatures of server/audio-discernment.ts: the speech rate from the
  transcript's word count, the per-speaker segment tally and the turn-taking
  balance derived from it, the average segment duration, and the two
  placeholder measures drawn at random (here: given draws in [0, 1)).
 */
module FeatureExtractor {
  import opened AudioTypes
  import opened AudioSegmenter

  /** The speech rate: words per minute rounded, or 120 when the duration is zero. */
  function SpeechRate(wordCount: nat, durationMs: nat): (wpm: int)
    ensures durationMs == 0 ==> wpm == 120
    ensures durationMs > 0 ==>
      var exact := wordCount as real * 60000.0 / durationMs as real;
      exact - 0.5 < wpm as real <= exact + 0.5
  {
    var durationMin := durationMs as real / 60000.0;
    if durationMin > 0.0 then
      PerMinute(wordCount, durationMs);
      Round(wordCount as real / durationMin)
    else 120
  }

  lemma PerMinute(w: nat, d: nat)
    requires d > 0
    ensures w as real / (d as real / 60000.0) == w as real * 60000.0 / d as real
  {
  }

  /** More words over the same non-zero duration never give a lower rate. */
  lemma SpeechRateMonotone(w1: nat, w2: nat, durationMs: nat)
    requires w1 <= w2
    ensures SpeechRate(w1, durationMs) <= SpeechRate(w2, durationMs)
  {
    if durationMs > 0 {
      var m := durationMs as real / 60000.0;
      assert w1 as real / m <= w2 as real / m;
      RoundMonotone(w1 as real / m, w2 as real / m);
    }
  }

  /**
    The `speakerCounts` record: (speaker, count) entries in the order the
    speakers first appear, as `Object.values` lists them.
   */
  type Tally = seq<(string, nat)>

  /** The position of a speaker's entry, or |t| when it has none. */
  function IndexOf(t: Tally, sp: string): (k: nat)
    ensures k <= |t|
    ensures k < |t| ==> t[k].0 == sp
    ensures forall j :: 0 <= j < k ==> t[j].0 != sp
  {
    if t == [] then 0 else if t[0].0 == sp then 0 else 1 + IndexOf(t[1..], sp)
  }

  /** `counts[sp] = (counts[sp] || 0) + 1`. */
  function Bump(t: Tally, sp: string): Tally
  {
    var k := IndexOf(t, sp);
    if k < |t| then t[k := (sp, t[k].1 + 1)] else t + [(sp, 1)]
  }

  /** The tally after counting every segment in order. */
  function TallyOf(segs: seq<Segment>): Tally
    decreases |segs|
  {
    if segs == [] then [] else Bump(TallyOf(segs[..|segs| - 1]), segs[|segs| - 1].speaker_id)
  }

  /** The speaker-counting loop of calculateFeatures. */
  method CountSpeakers(segments: seq<Segment>) returns (counts: Tally)
    ensures counts == TallyOf(segments)
  {
    counts := [];
    for i := 0 to |segments|
      invariant counts == TallyOf(segments[..i])
    {
      assert segments[..i + 1][..i] == segments[..i];
      var sp := segments[i].speaker_id;
      var k := 0;
      while k < |counts| && counts[k].0 != sp
        invariant k <= |counts|
        invariant forall j :: 0 <= j < k ==> counts[j].0 != sp
      {
        k := k + 1;
      }
      assert k == IndexOf(counts, sp) by { IndexOfUnique(counts, sp, k); }
      if k < |counts| {
        counts := counts[k := (sp, counts[k].1 + 1)];
      } else {
        counts := counts + [(sp, 1)];
      }
    }
    assert segments[..|segments|] == segments;
  }

  lemma {:induction false} IndexOfUnique(t: Tally, sp: string, k: nat)
    requires k <= |t|
    requires k < |t| ==> t[k].0 == sp
    requires forall j :: 0 <= j < k ==> t[j].0 != sp
    ensures k == IndexOf(t, sp)
    decreases |t|
  {
    if t != [] && t[0].0 != sp {
      assert k > 0;
      IndexOfUnique(t[1..], sp, k - 1);
    }
  }

  /** The number of segments spoken by `sp`. */
  function Occurrences(segs: seq<Segment>, sp: string): (n: nat)
    ensures n <= |segs|
    decreases |segs|
  {
    if segs == [] then 0
    else Occurrences(segs[..|segs| - 1], sp) + (if segs[|segs| - 1].speaker_id == sp then 1 else 0)
  }

  function Keys(t: Tally): set<string>
  {
    set j | 0 <= j < |t| :: t[j].0
  }

  ghost predicate DistinctKeys(t: Tally)
  {
    forall i, j :: 0 <= i < j < |t| ==> t[i].0 != t[j].0
  }

  /** Every entry of a well-formed tally counts the segments of its speaker, and only those. */
  ghost predicate Counts(t: Tally, segs: seq<Segment>)
  {
    DistinctKeys(t) && Keys(t) == SpeakerSet(segs)
    && forall j :: 0 <= j < |t| ==> t[j].1 == Occurrences(segs, t[j].0)
  }

  lemma OccurrencesSnoc(segs: seq<Segment>, x: Segment, sp: string)
    ensures Occurrences(segs + [x], sp) == Occurrences(segs, sp) + (if x.speaker_id == sp then 1 else 0)
  {
    assert (segs + [x])[..|segs|] == segs;
  }

  lemma OccurrencesAbsent(segs: seq<Segment>, sp: string)
    requires sp !in SpeakerSet(segs)
    ensures Occurrences(segs, sp) == 0
    decreases |segs|
  {
    if segs != [] {
      var init := segs[..|segs| - 1];
      assert SpeakerSet(init) <= SpeakerSet(segs) by {
        forall s | s in SpeakerSet(init) ensures s in SpeakerSet(segs) {
          var i :| 0 <= i < |init| && init[i].speaker_id == s;
          assert segs[i] == init[i];
        }
      }
      assert segs[|segs| - 1].speaker_id in SpeakerSet(segs);
      OccurrencesAbsent(init, sp);
    }
  }

  /** One counting step keeps the tally exact. */
  lemma BumpCounts(t: Tally, segs: seq<Segment>, x: Segment)
    requires Counts(t, segs)
    ensures Counts(Bump(t, x.speaker_id), segs + [x])
  {
    var sp := x.speaker_id;
    var k := IndexOf(t, sp);
    var r := Bump(t, sp);
    var s2 := segs + [x];
    SegmentSpeakersSnoc(segs, x);
    forall j | 0 <= j < |r| ensures r[j].1 == Occurrences(s2, r[j].0) {
      OccurrencesSnoc(segs, x, r[j].0);
      if j == |t| {
        assert sp !in Keys(t);
        OccurrencesAbsent(segs, sp);
      }
    }
    if k < |t| {
      assert Keys(r) == Keys(t) by {
        forall s | s in Keys(t) ensures s in Keys(r) {
          var i :| 0 <= i < |t| && t[i].0 == s;
          assert r[i].0 == s;
        }
      }
    } else {
      assert sp !in Keys(t);
      assert Keys(r) == Keys(t) + {sp} by {
        forall s | s in Keys(r) ensures s in Keys(t) + {sp} {
          var i :| 0 <= i < |r| && r[i].0 == s;
          if i < |t| { assert t[i].0 == s; }
        }
        forall s | s in Keys(t) ensures s in Keys(r) {
          var i :| 0 <= i < |t| && t[i].0 == s;
          assert r[i].0 == s;
        }
        assert r[|t|].0 == sp;
      }
    }
  }

  /** The tally has one entry per distinct speaker, holding that speaker's segment count. */
  lemma {:induction false} TallyCounts(segs: seq<Segment>)
    ensures Counts(TallyOf(segs), segs)
    decreases |segs|
  {
    if segs != [] {
      var init := segs[..|segs| - 1];
      TallyCounts(init);
      BumpCounts(TallyOf(init), init, segs[|segs| - 1]);
      assert init + [segs[|segs| - 1]] == segs;
    }
  }

  /** `Object.values(speakerCounts)`. */
  function Values(t: Tally): (v: seq<nat>)
    ensures |v| == |t|
    ensures forall j :: 0 <= j < |t| ==> v[j] == t[j].1
  {
    seq(|t|, j requires 0 <= j < |t| => t[j].1)
  }

  /** `reduce((a, b) => a + b, 0)`. */
  function Sum(xs: seq<nat>): nat
  {
    if xs == [] then 0 else xs[0] + Sum(xs[1..])
  }

  /** `Math.max(...xs)` on a non-empty list. */
  function MaxOf(xs: seq<nat>): (m: nat)
    requires xs != []
    ensures m in xs
    ensures forall j :: 0 <= j < |xs| ==> xs[j] <= m
  {
    if |xs| == 1 then xs[0]
    else
      var rest := MaxOf(xs[1..]);
      if xs[0] >= rest then xs[0] else rest
  }

  lemma {:induction false} SumIncrement(xs: seq<nat>, k: nat)
    requires k < |xs|
    ensures Sum(xs[k := xs[k] + 1]) == Sum(xs) + 1
    decreases k
  {
    if k > 0 {
      SumIncrement(xs[1..], k - 1);
      assert xs[k := xs[k] + 1][1..] == xs[1..][k - 1 := xs[k] + 1];
    }
  }

  lemma {:induction false} SumAppend(xs: seq<nat>, a: nat)
    ensures Sum(xs + [a]) == Sum(xs) + a
    decreases |xs|
  {
    if xs != [] {
      SumAppend(xs[1..], a);
      assert (xs + [a])[1..] == xs[1..] + [a];
    }
  }

  /** No entry of the tally is zero. */
  ghost predicate Positive(t: Tally)
  {
    forall j :: 0 <= j < |t| ==> t[j].1 >= 1
  }

  /** The counts add up to the number of segments, and each is at least one. */
  lemma {:induction false} TallyTotal(segs: seq<Segment>)
    ensures Sum(Values(TallyOf(segs))) == |segs|
    ensures Positive(TallyOf(segs))
    decreases |segs|
  {
    if segs != [] {
      var init := segs[..|segs| - 1];
      TallyTotal(init);
      var t := TallyOf(init);
      var sp := segs[|segs| - 1].speaker_id;
      var k := IndexOf(t, sp);
      if k < |t| {
        assert Values(Bump(t, sp)) == Values(t)[k := Values(t)[k] + 1];
        SumIncrement(Values(t), k);
      } else {
        assert Values(Bump(t, sp)) == Values(t) + [1];
        SumAppend(Values(t), 1);
      }
    }
  }

  /** In a list of positive counts the largest equals the total exactly when there is one count. */
  lemma {:induction false} MaxVersusSum(xs: seq<nat>)
    requires xs != []
    requires forall j :: 0 <= j < |xs| ==> xs[j] >= 1
    ensures 1 <= MaxOf(xs) <= Sum(xs)
    ensures MaxOf(xs) == Sum(xs) <==> |xs| == 1
    decreases |xs|
  {
    if |xs| > 1 {
      MaxVersusSum(xs[1..]);
      assert xs[1..][0] == xs[1];
    }
  }

  lemma {:induction false} DistinctKeysCount(t: Tally)
    requires DistinctKeys(t)
    ensures |Keys(t)| == |t|
    decreases |t|
  {
    if t != [] {
      var init := t[..|t| - 1];
      DistinctKeysCount(init);
      var last := t[|t| - 1].0;
      assert Keys(t) == Keys(init) + {last} by {
        forall s | s in Keys(t) ensures s in Keys(init) + {last} {
          var i :| 0 <= i < |t| && t[i].0 == s;
          if i < |init| { assert init[i].0 == s; }
        }
        forall s | s in Keys(init) ensures s in Keys(t) {
          var i :| 0 <= i < |init| && init[i].0 == s;
          assert t[i].0 == s;
        }
      }
      assert last !in Keys(init) by {
        forall i | 0 <= i < |init| ensures init[i].0 != last {
          assert init[i] == t[i];
        }
      }
    }
  }

  /** `turnTakingBalance`: one minus the largest speaker's share, or 0.5 with no segments. */
  function Balance(segs: seq<Segment>): real
  {
    var values := Values(TallyOf(segs));
    var totalSegments := Sum(values);
    if totalSegments > 0 then 1.0 - MaxOf(values) as real / totalSegments as real else 0.5
  }

  lemma RatioBounds(m: nat, n: nat)
    requires 1 <= m <= n
    ensures 0.0 < m as real / n as real <= 1.0
    ensures m as real / n as real == 1.0 <==> m == n
  {
  }

  /**
    The balance lies in [0, 1) whenever there are segments, and is 0 exactly
    when a single speaker holds every segment; with no segments it is 0.5.
   */
  lemma BalanceRange(segs: seq<Segment>)
    ensures segs == [] ==> Balance(segs) == 0.5
    ensures segs != [] ==> 0.0 <= Balance(segs) < 1.0
    ensures segs != [] ==> (Balance(segs) == 0.0 <==> |SpeakerSet(segs)| == 1)
  {
    TallyTotal(segs);
    var t := TallyOf(segs);
    var values := Values(t);
    if segs != [] {
      assert values != [];
      MaxVersusSum(values);
      RatioBounds(MaxOf(values), Sum(values));
      TallyCounts(segs);
      DistinctKeysCount(t);
    }
  }

  /** `avgTurnDuration`: the duration shared evenly over the segments, rounded, or 3000 with none. */
  function AvgTurnDuration(segmentCount: nat, durationMs: nat): (avg: int)
    ensures segmentCount == 0 ==> avg == 3000
    ensures segmentCount > 0 ==>
      var exact := durationMs as real / segmentCount as real;
      avg >= 0 && exact - 0.5 < avg as real <= exact + 0.5
  {
    if segmentCount > 0 then Round(durationMs as real / segmentCount as real) else 3000
  }

  /** The feature record, with the two random placeholders supplied as draws. */
  function FeaturesOf(segs: seq<Segment>, durationMs: nat, text: string, pauseDraw: real, volumeDraw: real): Features
  {
    Features(
      speech_rate_wpm := SpeechRate(WordCount(text), durationMs),
      pause_density := 0.15 + pauseDraw * 0.2,
      volume_variance := 0.3 + volumeDraw * 0.4,
      turn_taking_balance := Balance(segs),
      avg_turn_duration_ms := AvgTurnDuration(|segs|, durationMs))
  }

  /** calculateFeatures, counting speakers with the loop above. */
  method CalculateFeatures(segments: seq<Segment>, durationMs: nat, text: string, pauseDraw: real, volumeDraw: real)
    returns (f: Features)
    ensures f == FeaturesOf(segments, durationMs, text, pauseDraw, volumeDraw)
  {
    var wordCount := WordCount(text);
    var speechRateWpm := SpeechRate(wordCount, durationMs);
    var speakerCounts := CountSpeakers(segments);
    var speakerValues := Values(speakerCounts);
    var totalSegments := Sum(speakerValues);
    var turnTakingBalance: real;
    if totalSegments > 0 {
      var maxSpeaker := MaxOf(speakerValues);
      turnTakingBalance := 1.0 - maxSpeaker as real / totalSegments as real;
    } else {
      turnTakingBalance := 0.5;
    }
    var avgTurnDuration := AvgTurnDuration(|segments|, durationMs);
    f := Features(speechRateWpm, 0.15 + pauseDraw * 0.2, 0.3 + volumeDraw * 0.4, turnTakingBalance, avgTurnDuration);
  }

  /** With draws in [0, 1) the placeholders stay in their ranges, and every feature meets its bound. */
  lemma FeatureRanges(segs: seq<Segment>, durationMs: nat, text: string, pauseDraw: real, volumeDraw: real)
    requires 0.0 <= pauseDraw < 1.0 && 0.0 <= volumeDraw < 1.0
    ensures var f := FeaturesOf(segs, durationMs, text, pauseDraw, volumeDraw);
      && 0.15 <= f.pause_density < 0.35
      && 0.3 <= f.volume_variance < 0.7
      && 0.0 <= f.turn_taking_balance < 1.0
      && f.speech_rate_wpm >= 0
      && f.avg_turn_duration_ms >= 0
  {
    BalanceRange(segs);
  }
}
