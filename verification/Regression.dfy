/** Deciding whether the newer of two validations is a regression (assurance/regression.py). */
module Regression {
  import opened Basics
  import opened Metrics
  import Verdict

  /** What a completed run leaves on record about a control version. */
  datatype Validation = Validation(
    controlId: string, versionId: string, experimentId: string, totalCases: int, improvement: real,
    falsePositive: real, falseNegative: real, validAcceptance: real, parserReach: real, latencyOverhead: real,
    verdict: Verdict.Label, validatedAt: Time)

  function ValidationOf(control: string, version: string, experiment: string, c: Comparison, at: Time): Validation {
    Validation(control, version, experiment, c.totalCases, c.improvement, c.mitigation.falsePositive,
               c.mitigation.falseNegative, c.mitigation.validAcceptance, c.mitigation.parserReach,
               c.latencyOverhead, Verdict.LabelOf(c, None, Verdict.DEFAULTS), at)
  }

  /** The largest tolerated change for the worse of each rate. */
  datatype Tolerances = Tolerances(
    improvementDrop: real, falsePositiveRise: real, falseNegativeRise: real, validAcceptanceDrop: real,
    parserReachRise: real)

  const TOLERANCES := Tolerances(0.10, 0.05, 0.05, 0.05, 0.05)

  datatype Reason = VerdictFell | ImprovementFell | FalsePositiveRose | FalseNegativeRose | ValidAcceptanceFell
                  | ParserReachRose

  /** `q` is not worse than `p` by more than `k` times the tolerances, and its verdict is no worse at all. */
  ghost predicate WithinSteps(p: Validation, q: Validation, t: Tolerances, k: nat) {
    && Verdict.Severity(q.verdict) >= Verdict.Severity(p.verdict)
    && p.improvement - q.improvement <= t.improvementDrop * k as real
    && q.falsePositive - p.falsePositive <= t.falsePositiveRise * k as real
    && q.falseNegative - p.falseNegative <= t.falseNegativeRise * k as real
    && p.validAcceptance - q.validAcceptance <= t.validAcceptanceDrop * k as real
    && q.parserReach - p.parserReach <= t.parserReachRise * k as real
  }

  /** `detect_regressions`: the reasons are the rules that trip, and there is none exactly when the
      newer validation is within one step of the older. */
  method DetectRegressions(p: Validation, q: Validation, t: Tolerances) returns (reasons: seq<Reason>)
    ensures VerdictFell in reasons <==> Verdict.Worse(q.verdict, p.verdict)
    ensures ImprovementFell in reasons <==> p.improvement - q.improvement > t.improvementDrop
    ensures FalsePositiveRose in reasons <==> q.falsePositive - p.falsePositive > t.falsePositiveRise
    ensures FalseNegativeRose in reasons <==> q.falseNegative - p.falseNegative > t.falseNegativeRise
    ensures ValidAcceptanceFell in reasons <==> p.validAcceptance - q.validAcceptance > t.validAcceptanceDrop
    ensures ParserReachRose in reasons <==> q.parserReach - p.parserReach > t.parserReachRise
    ensures reasons == [] <==> WithinSteps(p, q, t, 1)
  {
    reasons := [];
    if Verdict.Severity(q.verdict) < Verdict.Severity(p.verdict) { reasons := reasons + [VerdictFell]; }
    if p.improvement - q.improvement > t.improvementDrop { reasons := reasons + [ImprovementFell]; }
    if q.falsePositive - p.falsePositive > t.falsePositiveRise { reasons := reasons + [FalsePositiveRose]; }
    if q.falseNegative - p.falseNegative > t.falseNegativeRise { reasons := reasons + [FalseNegativeRose]; }
    if p.validAcceptance - q.validAcceptance > t.validAcceptanceDrop { reasons := reasons + [ValidAcceptanceFell]; }
    if q.parserReach - p.parserReach > t.parserReachRise { reasons := reasons + [ParserReachRose]; }
    Verdict.SeverityRanks(q.verdict, p.verdict);
    assert reasons == [] || reasons[0] in reasons;
  }

  lemma WithinStepsAdd(p: Validation, q: Validation, r: Validation, t: Tolerances, k: nat)
    requires WithinSteps(p, q, t, k) && WithinSteps(q, r, t, 1)
    ensures WithinSteps(p, r, t, k + 1)
  {
    assert (k + 1) as real == k as real + 1.0;
  }

  /** Steps that are each within tolerance add up, whatever the tolerances. */
  lemma {:induction false} ChainBound(s: seq<Validation>, t: Tolerances, i: nat, k: nat)
    requires i + k < |s|
    requires forall j :: 0 <= j < |s| - 1 ==> WithinSteps(s[j], s[j + 1], t, 1)
    ensures WithinSteps(s[i], s[i + k], t, k)
  {
    if k == 0 {
    } else {
      ChainBound(s, t, i, k - 1);
      assert WithinSteps(s[i + k - 1], s[i + k - 1 + 1], t, 1);
      WithinStepsAdd(s[i], s[i + k - 1], s[i + k], t, k - 1);
    }
  }

  /** A run that is at least as good in every component, over as many cases, is never a regression. */
  lemma DominationIsNoRegression(control: string, version: string, c: Comparison, d: Comparison,
                                 e: string, f: string, at: Time, later: Time, t: Tolerances)
    requires Verdict.AtLeastAsGood(c, d) && c.totalCases == d.totalCases
    requires t.improvementDrop >= 0.0 && t.falsePositiveRise >= 0.0 && t.falseNegativeRise >= 0.0
    requires t.validAcceptanceDrop >= 0.0 && t.parserReachRise >= 0.0
    ensures WithinSteps(ValidationOf(control, version, e, d, at), ValidationOf(control, version, f, c, later), t, 1)
  {
    Verdict.VerdictIsMonotone(c, d, Verdict.DEFAULTS);
  }
}
