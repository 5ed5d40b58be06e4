/**
  The dating and political projections (client/src/edcm/projections.ts):
  a weighted mean over metric, modifier and trend entries of an analysis
  result, bucketed into three labels per axis.
 */
module Projections {

  datatype AnalysisMetrics = AnalysisMetrics(C: real, R: real, D: real, N: real, L: real, O: real, F: real, E: real, I: real)
  datatype Modifiers = Modifiers(urgency: real, sentiment: real, drift: real, filler: real)
  datatype Trends = Trends(dC: real, dR: real, dD: real, dN: real, dL: real, dO: real, dF: real, dE: real, dI: real)
  datatype AnalysisResult = AnalysisResult(metrics: AnalysisMetrics, modifiers: Modifiers, trends: Trends)

  /** A weight table in insertion order, as `Object.entries` lists it. */
  type Weights = seq<(string, real)>

  predicate IsModifierKey(key: string)
  {
    key == "urgency" || key == "sentiment" || key == "drift" || key == "filler"
  }

  predicate StartsWithD(key: string)
  {
    |key| > 0 && key[0] == 'd'
  }

  predicate IsMetricKey(key: string)
  {
    key in {"C", "R", "D", "N", "L", "O", "F", "E", "I"}
  }

  predicate IsTrendKey(key: string)
  {
    key in {"dC", "dR", "dD", "dN", "dL", "dO", "dF", "dE", "dI"}
  }

  /** A key that names a field of the branch it is read from. */
  predicate KnownKey(key: string)
  {
    IsModifierKey(key) || (!IsModifierKey(key) && StartsWithD(key) && IsTrendKey(key))
    || (!StartsWithD(key) && IsMetricKey(key))
  }

  predicate KnownKeys(ws: Weights)
  {
    forall i :: 0 <= i < |ws| ==> KnownKey(ws[i].0)
  }

  function MetricField(m: AnalysisMetrics, key: string): real
    requires IsMetricKey(key)
  {
    if key == "C" then m.C else if key == "R" then m.R else if key == "D" then m.D
    else if key == "N" then m.N else if key == "L" then m.L else if key == "O" then m.O
    else if key == "F" then m.F else if key == "E" then m.E else m.I
  }

  function TrendField(t: Trends, key: string): real
    requires IsTrendKey(key)
  {
    if key == "dC" then t.dC else if key == "dR" then t.dR else if key == "dD" then t.dD
    else if key == "dN" then t.dN else if key == "dL" then t.dL else if key == "dO" then t.dO
    else if key == "dF" then t.dF else if key == "dE" then t.dE else t.dI
  }

  function ModifierField(m: Modifiers, key: string): real
    requires IsModifierKey(key)
  {
    if key == "urgency" then m.urgency else if key == "sentiment" then m.sentiment
    else if key == "drift" then m.drift else m.filler
  }

  /** The value a key reads, modifiers first, then trends for keys starting with "d", then metrics. */
  function RawValue(r: AnalysisResult, key: string): real
    requires KnownKey(key)
  {
    if IsModifierKey(key) then ModifierField(r.modifiers, key)
    else if StartsWithD(key) then TrendField(r.trends, key)
    else MetricField(r.metrics, key)
  }

  /** The value after the trend normalisation, which applies to every key starting with "d". */
  function Value(r: AnalysisResult, key: string): real
    requires KnownKey(key)
  {
    var v := RawValue(r, key);
    if StartsWithD(key) then (v + 0.2) * 2.5 else v
  }

  /** "drift" is read from the modifiers and still normalised like a trend. */
  lemma DriftIsNormalised(r: AnalysisResult)
    ensures KnownKey("drift") && Value(r, "drift") == (r.modifiers.drift + 0.2) * 2.5
  {
  }

  function ScoreSum(r: AnalysisResult, ws: Weights): real
    requires KnownKeys(ws)
    decreases |ws|
  {
    if ws == [] then 0.0
    else ScoreSum(r, ws[..|ws| - 1]) + Value(r, ws[|ws| - 1].0) * ws[|ws| - 1].1
  }

  function TotalWeight(ws: Weights): real
    decreases |ws|
  {
    if ws == [] then 0.0 else TotalWeight(ws[..|ws| - 1]) + ws[|ws| - 1].1
  }

  /** weightedScore as a function: the weighted mean, or 0 when the weights do not sum to a positive total. */
  function WeightedScoreOf(r: AnalysisResult, ws: Weights): real
    requires KnownKeys(ws)
  {
    var t := TotalWeight(ws);
    if t > 0.0 then ScoreSum(r, ws) / t else 0.0
  }

  /** weightedScore: the loop over the entries accumulating score and total weight. */
  method WeightedScore(r: AnalysisResult, ws: Weights) returns (s: real)
    requires KnownKeys(ws)
    ensures s == WeightedScoreOf(r, ws)
  {
    var score := 0.0;
    var totalWeight := 0.0;
    for i := 0 to |ws|
      invariant KnownKeys(ws[..i])
      invariant score == ScoreSum(r, ws[..i]) && totalWeight == TotalWeight(ws[..i])
    {
      var (key, weight) := ws[i];
      var value := 0.0;
      if IsModifierKey(key) {
        value := ModifierField(r.modifiers, key);
      } else if StartsWithD(key) {
        value := TrendField(r.trends, key);
      } else {
        value := MetricField(r.metrics, key);
      }
      if StartsWithD(key) {
        value := (value + 0.2) * 2.5;
      }
      assert ws[..i + 1][..i] == ws[..i];
      score := score + value * weight;
      totalWeight := totalWeight + weight;
    }
    assert ws[..|ws|] == ws;
    s := if totalWeight > 0.0 then score / totalWeight else 0.0;
  }

  predicate PositiveWeights(ws: Weights)
  {
    forall i :: 0 <= i < |ws| ==> ws[i].1 > 0.0
  }

  /** Between `lo` and `hi` times the total weight, when every value lies in [lo, hi]. */
  lemma {:induction false} ScoreSumBounds(r: AnalysisResult, ws: Weights, lo: real, hi: real)
    requires KnownKeys(ws) && PositiveWeights(ws)
    requires forall i :: 0 <= i < |ws| ==> lo <= Value(r, ws[i].0) <= hi
    ensures lo * TotalWeight(ws) <= ScoreSum(r, ws) <= hi * TotalWeight(ws)
    ensures ws != [] ==> TotalWeight(ws) > 0.0
    decreases |ws|
  {
    if ws != [] {
      var n := |ws| - 1;
      var p := ws[..n];
      PrefixFacts(r, ws, n, lo, hi);
      ScoreSumBounds(r, p, lo, hi);
      var v, w := Value(r, ws[n].0), ws[n].1;
      assert lo <= v <= hi && w > 0.0;
      assert TotalWeight(ws) == TotalWeight(p) + w;
      assert ScoreSum(r, ws) == ScoreSum(r, p) + v * w;
      BoundStep(lo, hi, TotalWeight(p), ScoreSum(r, p), v, w);
    }
  }

  /** A prefix of a table keeps the table's known keys, positive weights and value bounds. */
  lemma PrefixFacts(r: AnalysisResult, ws: Weights, n: nat, lo: real, hi: real)
    requires n <= |ws| && KnownKeys(ws) && PositiveWeights(ws)
    requires forall i :: 0 <= i < |ws| ==> lo <= Value(r, ws[i].0) <= hi
    ensures KnownKeys(ws[..n]) && PositiveWeights(ws[..n])
    ensures forall i :: 0 <= i < n ==> lo <= Value(r, ws[..n][i].0) <= hi
  {
    assert forall i :: 0 <= i < n ==> ws[..n][i] == ws[i];
  }

  /** One more weighted value keeps the sum between the bounds times the total. */
  lemma BoundStep(lo: real, hi: real, t: real, sum: real, v: real, w: real)
    requires lo * t <= sum <= hi * t && lo <= v <= hi && w >= 0.0
    ensures lo * (t + w) <= sum + v * w <= hi * (t + w)
  {
    MulMonotone(lo, v, w);
    MulMonotone(v, hi, w);
    assert lo * (t + w) == lo * t + lo * w;
    assert hi * (t + w) == hi * t + hi * w;
  }

  lemma MulMonotone(a: real, b: real, w: real)
    requires a <= b && w >= 0.0
    ensures a * w <= b * w
  {
  }

  /** With positive weights the score lies between the least and the greatest (normalised) value. */
  lemma ScoreBetweenValues(r: AnalysisResult, ws: Weights, lo: real, hi: real)
    requires ws != [] && KnownKeys(ws) && PositiveWeights(ws)
    requires forall i :: 0 <= i < |ws| ==> lo <= Value(r, ws[i].0) <= hi
    ensures lo <= WeightedScoreOf(r, ws) <= hi
  {
    ScoreSumBounds(r, ws, lo, hi);
    MeanFromSums(r, ws, lo, hi);
  }

  /** Sums between the bounds times a positive total give a mean between the bounds. */
  lemma MeanFromSums(r: AnalysisResult, ws: Weights, lo: real, hi: real)
    requires KnownKeys(ws) && TotalWeight(ws) > 0.0
    requires lo * TotalWeight(ws) <= ScoreSum(r, ws) <= hi * TotalWeight(ws)
    ensures lo <= WeightedScoreOf(r, ws) <= hi
  {
    DivBounds(lo, hi, TotalWeight(ws), ScoreSum(r, ws));
  }

  lemma DivBounds(lo: real, hi: real, t: real, sum: real)
    requires t > 0.0 && lo * t <= sum <= hi * t
    ensures lo <= sum / t <= hi
  {
    assert lo * t / t <= sum / t <= hi * t / t;
  }

  /** An empty table, or any table whose weights sum to zero, scores 0. */
  lemma ZeroWeightScoresZero(r: AnalysisResult, ws: Weights)
    requires KnownKeys(ws) && TotalWeight(ws) <= 0.0
    ensures WeightedScoreOf(r, ws) == 0.0
  {
  }

  const DATING_PACE: Weights := [("E", 0.3), ("urgency", 0.3), ("dE", 0.2), ("R", 0.1), ("F", 0.1)]
  const DATING_BALANCE: Weights := [("L", 0.4), ("D", 0.3), ("R", 0.3)]
  const DATING_CLARITY: Weights := [("O", 0.2), ("D", 0.3), ("N", 0.3), ("C", 0.2)]
  const POLITICS_PRESSURE: Weights := [("E", 0.4), ("urgency", 0.3), ("R", 0.1), ("dE", 0.2)]
  const POLITICS_CLARITY: Weights := [("O", 0.2), ("D", 0.3), ("N", 0.3), ("C", 0.2)]
  const POLITICS_RESPONSIBILITY: Weights := [("L", 0.3), ("R", 0.3), ("D", 0.4)]

  predicate WellFormed(ws: Weights)
  {
    ws != [] && KnownKeys(ws) && PositiveWeights(ws) && TotalWeight(ws) == 1.0
  }

  /** The total weight grows by one entry's weight per entry. */
  lemma TotalWeightStep(ws: Weights, k: nat)
    requires 0 < k <= |ws|
    ensures TotalWeight(ws[..k]) == TotalWeight(ws[..k - 1]) + ws[k - 1].1
  {
    assert ws[..k][..k - 1] == ws[..k - 1];
  }

  /** The total of a table, entry by entry. */
  lemma TotalWeightOf(ws: Weights)
    requires 3 <= |ws| <= 5
    ensures TotalWeight(ws) == ws[0].1 + ws[1].1 + ws[2].1 + (if |ws| > 3 then ws[3].1 else 0.0)
      + (if |ws| > 4 then ws[4].1 else 0.0)
  {
    TotalWeightStep(ws, 1);
    TotalWeightStep(ws, 2);
    TotalWeightStep(ws, 3);
    if |ws| > 3 {
      TotalWeightStep(ws, 4);
    }
    if |ws| > 4 {
      TotalWeightStep(ws, 5);
    }
    assert ws[..|ws|] == ws;
  }

  /** A table of three to five known keys with positive weights adding up to 1 is well formed. */
  lemma WellFormedOf(ws: Weights)
    requires 3 <= |ws| <= 5 && KnownKeys(ws) && PositiveWeights(ws)
    requires ws[0].1 + ws[1].1 + ws[2].1 + (if |ws| > 3 then ws[3].1 else 0.0) + (if |ws| > 4 then ws[4].1 else 0.0) == 1.0
    ensures WellFormed(ws)
  {
    TotalWeightOf(ws);
  }

  lemma DatingPaceWellFormed() ensures WellFormed(DATING_PACE) { WellFormedOf(DATING_PACE); }
  lemma DatingBalanceWellFormed() ensures WellFormed(DATING_BALANCE) { WellFormedOf(DATING_BALANCE); }
  lemma DatingClarityWellFormed() ensures WellFormed(DATING_CLARITY) { WellFormedOf(DATING_CLARITY); }
  lemma PoliticsPressureWellFormed() ensures WellFormed(POLITICS_PRESSURE) { WellFormedOf(POLITICS_PRESSURE); }
  lemma PoliticsClarityWellFormed() ensures WellFormed(POLITICS_CLARITY) { WellFormedOf(POLITICS_CLARITY); }
  lemma PoliticsResponsibilityWellFormed() ensures WellFormed(POLITICS_RESPONSIBILITY) { WellFormedOf(POLITICS_RESPONSIBILITY); }

  /** Every dating table reads only known keys and has positive weights summing to 1. */
  lemma DatingTablesWellFormed()
    ensures WellFormed(DATING_PACE) && WellFormed(DATING_BALANCE) && WellFormed(DATING_CLARITY)
  {
    DatingPaceWellFormed();
    DatingBalanceWellFormed();
    DatingClarityWellFormed();
  }

  /** Every politics table reads only known keys and has positive weights summing to 1. */
  lemma PoliticsTablesWellFormed()
    ensures WellFormed(POLITICS_PRESSURE) && WellFormed(POLITICS_CLARITY) && WellFormed(POLITICS_RESPONSIBILITY)
  {
    PoliticsPressureWellFormed();
    PoliticsClarityWellFormed();
    PoliticsResponsibilityWellFormed();
  }

  /** The three buckets of a score, lowest first. */
  datatype Bucket = Bottom | Middle | Top

  function BucketOf(score: real): (b: Bucket)
  {
    if score > 0.6 then Top else if score > 0.4 then Middle else Bottom
  }

  function BucketRank(b: Bucket): nat
  {
    match b
    case Bottom => 0
    case Middle => 1
    case Top => 2
  }

  /** Bucketing is monotone: a larger score never falls in a lower bucket. */
  lemma BucketMonotone(x: real, y: real)
    requires x <= y
    ensures BucketRank(BucketOf(x)) <= BucketRank(BucketOf(y))
  {
  }

  /** The buckets are exactly (-inf, 0.4], (0.4, 0.6] and (0.6, inf). */
  lemma BucketBands(x: real)
    ensures BucketOf(x) == Top <==> x > 0.6
    ensures BucketOf(x) == Middle <==> 0.4 < x <= 0.6
    ensures BucketOf(x) == Bottom <==> x <= 0.4
  {
  }

  datatype DatingPace = PaceSteady | PaceRising | PaceSkewed
  datatype DatingBalance = Mutual | Uneven | Avoidant
  datatype DatingClarity = DatingClear | DatingMixed | Foggy
  datatype PoliticalPressure = PressureLow | PressureRising | PressureHigh
  datatype PoliticalClarity = PoliticalClear | PoliticalMixed | Obscured
  datatype PoliticalResponsibility = Acknowledged | Displaced | Externalized

  datatype DatingProjection = DatingProjection(pace: DatingPace, balance: DatingBalance, clarity: DatingClarity)
  datatype PoliticalProjection = PoliticalProjection(
    pressure: PoliticalPressure, clarity: PoliticalClarity, responsibility: PoliticalResponsibility)

  function ProjectDating(r: AnalysisResult): DatingProjection
  {
    DatingTablesWellFormed();
    var pace := BucketOf(WeightedScoreOf(r, DATING_PACE));
    var balance := BucketOf(WeightedScoreOf(r, DATING_BALANCE));
    var clarity := BucketOf(WeightedScoreOf(r, DATING_CLARITY));
    DatingProjection(
      match pace case Top => PaceSkewed case Middle => PaceRising case Bottom => PaceSteady,
      match balance case Top => Avoidant case Middle => Uneven case Bottom => Mutual,
      match clarity case Top => Foggy case Middle => DatingMixed case Bottom => DatingClear)
  }

  function ProjectPolitical(r: AnalysisResult): PoliticalProjection
  {
    PoliticsTablesWellFormed();
    var pressure := BucketOf(WeightedScoreOf(r, POLITICS_PRESSURE));
    var clarity := BucketOf(WeightedScoreOf(r, POLITICS_CLARITY));
    var resp := BucketOf(WeightedScoreOf(r, POLITICS_RESPONSIBILITY));
    PoliticalProjection(
      match pressure case Top => PressureHigh case Middle => PressureRising case Bottom => PressureLow,
      match clarity case Top => Obscured case Middle => PoliticalMixed case Bottom => PoliticalClear,
      match resp case Top => Externalized case Middle => Displaced case Bottom => Acknowledged)
  }

  /**
    projectDating: each axis is the top label above 0.6, the bottom label
    at or below 0.4 and the middle label in between, of its own weighted score.
   */
  lemma ProjectDatingBands(r: AnalysisResult)
    ensures (DatingTablesWellFormed(); var p, pace := ProjectDating(r), WeightedScoreOf(r, DATING_PACE);
      (p.pace == PaceSkewed <==> pace > 0.6) && (p.pace == PaceSteady <==> pace <= 0.4))
    ensures (DatingTablesWellFormed(); var p, bal := ProjectDating(r), WeightedScoreOf(r, DATING_BALANCE);
      (p.balance == Avoidant <==> bal > 0.6) && (p.balance == Mutual <==> bal <= 0.4))
    ensures (DatingTablesWellFormed(); var p, cl := ProjectDating(r), WeightedScoreOf(r, DATING_CLARITY);
      (p.clarity == Foggy <==> cl > 0.6) && (p.clarity == DatingClear <==> cl <= 0.4))
  {
  }

  /** projectPolitical: the same three bands over the politics tables. */
  lemma ProjectPoliticalBands(r: AnalysisResult)
    ensures (PoliticsTablesWellFormed(); var p, pr := ProjectPolitical(r), WeightedScoreOf(r, POLITICS_PRESSURE);
      (p.pressure == PressureHigh <==> pr > 0.6) && (p.pressure == PressureLow <==> pr <= 0.4))
    ensures (PoliticsTablesWellFormed(); var p, cl := ProjectPolitical(r), WeightedScoreOf(r, POLITICS_CLARITY);
      (p.clarity == Obscured <==> cl > 0.6) && (p.clarity == PoliticalClear <==> cl <= 0.4))
    ensures (PoliticsTablesWellFormed(); var p, re := ProjectPolitical(r), WeightedScoreOf(r, POLITICS_RESPONSIBILITY);
      (p.responsibility == Externalized <==> re > 0.6) && (p.responsibility == Acknowledged <==> re <= 0.4))
  {
  }

  /**
    The two clarity axes use the same table, so dating clarity is foggy
    exactly when political clarity is obscured, and clear exactly when clear.
   */
  lemma ClarityAxesAgree(r: AnalysisResult)
    ensures ProjectDating(r).clarity == Foggy <==> ProjectPolitical(r).clarity == Obscured
    ensures ProjectDating(r).clarity == DatingClear <==> ProjectPolitical(r).clarity == PoliticalClear
  {
  }

  /** The dating balance score stays within [0, hi] when coherence loss, deflection and refusal do. */
  lemma BalanceBoundedByInputs(r: AnalysisResult, hi: real)
    requires 0.0 <= r.metrics.L <= hi && 0.0 <= r.metrics.D <= hi && 0.0 <= r.metrics.R <= hi
    ensures 0.0 <= WeightedScoreOf(r, DATING_BALANCE) <= hi
  {
    DatingTablesWellFormed();
    forall i | 0 <= i < |DATING_BALANCE| ensures 0.0 <= Value(r, DATING_BALANCE[i].0) <= hi {
    }
    ScoreBetweenValues(r, DATING_BALANCE, 0.0, hi);
  }
}
