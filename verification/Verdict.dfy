/** The deterministic verdict engine (verdict/engine.py). */
module Verdict {
  import opened Basics
  import opened Metrics

  datatype Label = Effective | PartiallyEffective | Ineffective | Regression | Inconclusive

  datatype Criterion =
    | MinTotalCases | RegressionDrop | MaxFalsePositive | MaxFalseNegative | MinValidAcceptance | MaxLatency
    | MinImprovementEffective | MinImprovementPartial

  datatype Thresholds = Thresholds(
    minTotalCases: int, improvementEffective: real, improvementPartial: real, maxFalsePositive: real,
    maxFalseNegative: real, minValidAcceptance: real, maxLatencyOverhead: real, regressionDrop: real)

  const DEFAULTS := Thresholds(5, 0.5, 0.1, 0.05, 0.10, 0.95, 100.0, 0.0)

  predicate Regressed(c: Comparison, previous: Option<Comparison>, t: Thresholds) {
    previous.Some? && previous.value.mitigation.blockRate - c.mitigation.blockRate > t.regressionDrop
  }

  predicate Meets(c: Comparison, t: Thresholds, k: Criterion) {
    match k
    case MinTotalCases => c.totalCases >= t.minTotalCases
    case RegressionDrop => true
    case MaxFalsePositive => c.mitigation.falsePositive <= t.maxFalsePositive
    case MaxFalseNegative => c.mitigation.falseNegative <= t.maxFalseNegative
    case MinValidAcceptance => c.mitigation.validAcceptance >= t.minValidAcceptance
    case MaxLatency => c.latencyOverhead <= t.maxLatencyOverhead
    case MinImprovementEffective => c.improvement >= t.improvementEffective
    case MinImprovementPartial => c.improvement >= t.improvementPartial
  }

  /** The five criteria of an effective control. */
  predicate MeetsAll(c: Comparison, t: Thresholds) {
    && Meets(c, t, MinImprovementEffective) && Meets(c, t, MaxFalsePositive) && Meets(c, t, MaxFalseNegative)
    && Meets(c, t, MinValidAcceptance) && Meets(c, t, MaxLatency)
  }

  function LabelOf(c: Comparison, previous: Option<Comparison>, t: Thresholds): Label {
    if !Meets(c, t, MinTotalCases) then Inconclusive
    else if Regressed(c, previous, t) then Regression
    else if MeetsAll(c, t) then Effective
    else if Meets(c, t, MinImprovementPartial) && Meets(c, t, MinValidAcceptance) then PartiallyEffective
    else Ineffective
  }

  /** The limits of the mitigation that it misses. */
  method CheckLimits(c: Comparison, t: Thresholds) returns (failed: seq<Criterion>)
    ensures MaxFalsePositive in failed <==> c.mitigation.falsePositive > t.maxFalsePositive
    ensures MaxFalseNegative in failed <==> c.mitigation.falseNegative > t.maxFalseNegative
    ensures MinValidAcceptance in failed <==> c.mitigation.validAcceptance < t.minValidAcceptance
    ensures MaxLatency in failed <==> c.latencyOverhead > t.maxLatencyOverhead
    ensures forall k :: k in failed ==> k in {MaxFalsePositive, MaxFalseNegative, MinValidAcceptance, MaxLatency}
  {
    var m := c.mitigation;
    failed := [];
    if m.falsePositive > t.maxFalsePositive { failed := failed + [MaxFalsePositive]; }
    if m.falseNegative > t.maxFalseNegative { failed := failed + [MaxFalseNegative]; }
    if m.validAcceptance < t.minValidAcceptance { failed := failed + [MinValidAcceptance]; }
    if c.latencyOverhead > t.maxLatencyOverhead { failed := failed + [MaxLatency]; }
    assert failed == [] || failed[0] in failed;
  }

  /** `compute_verdict`. The list of failed criteria is empty exactly for an effective control; for one
      that is not, it names the limits that are missed and the improvement that is missing. */
  method ComputeVerdict(c: Comparison, previous: Option<Comparison>, t: Thresholds)
    returns (verdict: Label, failed: seq<Criterion>)
    ensures verdict == LabelOf(c, previous, t)
    ensures failed == [] <==> verdict == Effective
    ensures verdict == Inconclusive ==> failed == [MinTotalCases]
    ensures verdict == Regression ==> failed == [RegressionDrop]
    ensures verdict != Inconclusive && verdict != Regression ==>
      && (MaxFalsePositive in failed <==> c.mitigation.falsePositive > t.maxFalsePositive)
      && (MaxFalseNegative in failed <==> c.mitigation.falseNegative > t.maxFalseNegative)
      && (MinValidAcceptance in failed <==> c.mitigation.validAcceptance < t.minValidAcceptance)
      && (MaxLatency in failed <==> c.latencyOverhead > t.maxLatencyOverhead)
      && (MinImprovementEffective in failed <==> verdict == PartiallyEffective && c.improvement < t.improvementEffective)
      && (MinImprovementPartial in failed <==> verdict == Ineffective && c.improvement < t.improvementPartial)
      && MinTotalCases !in failed && RegressionDrop !in failed
  {
    if c.totalCases < t.minTotalCases {
      return Inconclusive, [MinTotalCases];
    }
    if previous.Some? {
      var drop := previous.value.mitigation.blockRate - c.mitigation.blockRate;
      if drop > t.regressionDrop {
        return Regression, [RegressionDrop];
      }
    }
    failed := CheckLimits(c, t);
    assert failed == [] || failed[0] in failed;
    if c.improvement >= t.improvementEffective && failed == [] {
      verdict := Effective;
    } else if c.improvement >= t.improvementPartial && c.mitigation.validAcceptance >= t.minValidAcceptance {
      verdict := PartiallyEffective;
      if c.improvement < t.improvementEffective { failed := failed + [MinImprovementEffective]; }
    } else {
      verdict := Ineffective;
      if c.improvement < t.improvementPartial { failed := failed + [MinImprovementPartial]; }
    }
  }

  /** How good a verdict is when two validations are compared (assurance/regression.py). */
  function Severity(l: Label): int {
    match l
    case Effective => 4
    case PartiallyEffective => 3
    case Inconclusive => 2
    case Ineffective => 1
    case Regression => 0
  }

  /** Verdicts from worst to best. */
  const RANKING := [Regression, Ineffective, Inconclusive, PartiallyEffective, Effective]

  ghost predicate Worse(a: Label, b: Label) {
    exists i, j :: 0 <= i < j < 5 && RANKING[i] == a && RANKING[j] == b
  }

  lemma SeverityRanks(a: Label, b: Label)
    ensures Severity(a) < Severity(b) <==> Worse(a, b)
  {
    var r := RANKING;
    assert r[0] == Regression && r[1] == Ineffective && r[2] == Inconclusive && r[3] == PartiallyEffective && r[4] == Effective;
    if Severity(a) < Severity(b) { assert r[Severity(a)] == a && r[Severity(b)] == b; }
  }

  /** At least as good in every component the verdict or the regression check looks at. */
  ghost predicate AtLeastAsGood(c: Comparison, d: Comparison) {
    && c.improvement >= d.improvement
    && c.mitigation.falsePositive <= d.mitigation.falsePositive
    && c.mitigation.falseNegative <= d.mitigation.falseNegative
    && c.mitigation.validAcceptance >= d.mitigation.validAcceptance
    && c.mitigation.parserReach <= d.mitigation.parserReach
    && c.latencyOverhead <= d.latencyOverhead
  }

  /** Better metrics never get a worse verdict, whatever the thresholds. */
  lemma VerdictIsMonotone(c: Comparison, d: Comparison, t: Thresholds)
    requires AtLeastAsGood(c, d) && c.totalCases == d.totalCases
    ensures Severity(LabelOf(c, None, t)) >= Severity(LabelOf(d, None, t))
  {
  }

  /** For metrics that come out of the calculator, passing the acceptance threshold passes the
      false-alarm threshold, and an effective verdict at the default thresholds means: the
      mitigation blocks at least nine in ten, the baseline at most half, and both groups of cases
      were present. */
  lemma EffectiveMeans(total: nat, base: seq<Scored>, baseResults: seq<CaseResult>, mit: seq<Scored>,
                       mitResults: seq<CaseResult>)
    ensures var c := Compare(total, Rates(base, baseResults), Rates(mit, mitResults));
      && (Meets(c, DEFAULTS, MinValidAcceptance) ==> Meets(c, DEFAULTS, MaxFalsePositive))
      && (LabelOf(c, None, DEFAULTS) == Effective ==>
            && c.mitigation.blockRate >= 0.9 && c.baseline.blockRate <= 0.5
            && Count(SHOULD_BLOCK, mit) > 0 && Count(SHOULD_ACCEPT, mit) > 0)
  {
    ComplementaryRates(base, baseResults);
    ComplementaryRates(mit, mitResults);
  }
}
