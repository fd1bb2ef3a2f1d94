/** Running a strategy over a test set and scoring it (runners/experiment_runner.py, metrics/). */
module Metrics {
  import opened Basics
  import opened JsonValue
  import opened Strategies

  datatype Category = Valid | Malformed | Boundary

  datatype TestCase = TestCase(caseId: string, category: Category, input: Input, expected: Decision)

  datatype CaseResult = CaseResult(caseId: string, decision: Decision, parserReached: bool,
                                   errored: bool, logged: bool, latency: real)

  /** A dataset accepts no two cases with one id. */
  ghost predicate UniqueIds(cases: seq<TestCase>) {
    forall i, j :: 0 <= i < j < |cases| ==> cases[i].caseId != cases[j].caseId
  }

  // ---------------------------------------------------------------- runner

  /** One case; a strategy that raises is recorded as an errored block and the run goes on. */
  function ExecuteCase(s: Strategy, str: Printer, case_: TestCase, latency: real): CaseResult {
    match Process(s, str, case_.input)
    case Raised => CaseResult(case_.caseId, Blocked, false, true, true, latency)
    case Ok(o) => CaseResult(case_.caseId, o.decision, o.parserReached, false, o.logged, latency)
  }

  function ExecuteMode(s: Strategy, str: Printer, cases: seq<TestCase>, latencies: seq<real>): seq<CaseResult>
    requires |latencies| == |cases|
  {
    seq(|cases|, i requires 0 <= i < |cases| => ExecuteCase(s, str, cases[i], latencies[i]))
  }

  // ------------------------------------------------------------ calculator

  datatype Metrics = Metrics(
    processingSuccess: real, blockRate: real, validAcceptance: real, falsePositive: real, falseNegative: real,
    parserReach: real, meanLatency: real, logCompleteness: real)

  /** A result that did not error, with the decision its case expects. */
  datatype Scored = Scored(result: CaseResult, expected: Decision)

  function SafeRate(part: nat, whole: nat): real {
    if whole == 0 then 0.0 else part as real / whole as real
  }

  function Count<T>(p: T -> bool, s: seq<T>): (n: nat)
    ensures n <= |s|
  {
    if s == [] then 0 else Count(p, s[..|s| - 1]) + (if p(s[|s| - 1]) then 1 else 0)
  }

  function TotalLatency(results: seq<CaseResult>): real {
    if results == [] then 0.0 else TotalLatency(results[..|results| - 1]) + results[|results| - 1].latency
  }

  const SHOULD_BLOCK := (x: Scored) => x.expected == Blocked
  const SHOULD_ACCEPT := (x: Scored) => x.expected == Accepted
  const TRUE_POSITIVE := (x: Scored) => x.expected == Blocked && x.result.decision == Blocked
  const FALSE_NEGATIVE := (x: Scored) => x.expected == Blocked && x.result.decision == Accepted
  const TRUE_NEGATIVE := (x: Scored) => x.expected == Accepted && x.result.decision == Accepted
  const FALSE_POSITIVE := (x: Scored) => x.expected == Accepted && x.result.decision == Blocked
  const REACHED := (x: Scored) => x.expected == Blocked && x.result.parserReached
  const BLOCKED_RESULT := (x: Scored) => x.result.decision == Blocked
  const LOGGED_BLOCK := (x: Scored) => x.result.decision == Blocked && x.result.logged

  /** The rates over the scored results, and the mean latency over all results. */
  function Rates(scored: seq<Scored>, results: seq<CaseResult>): Metrics {
    var block, accept := Count(SHOULD_BLOCK, scored), Count(SHOULD_ACCEPT, scored);
    Metrics(
      SafeRate(|scored|, |results|),
      SafeRate(Count(TRUE_POSITIVE, scored), block),
      SafeRate(Count(TRUE_NEGATIVE, scored), accept),
      SafeRate(Count(FALSE_POSITIVE, scored), accept),
      SafeRate(Count(FALSE_NEGATIVE, scored), block),
      SafeRate(Count(REACHED, scored), block),
      if |results| == 0 then 0.0 else TotalLatency(results) / |results| as real,
      SafeRate(Count(LOGGED_BLOCK, scored), Count(BLOCKED_RESULT, scored)))
  }

  /** The decision expected of a case id; a dictionary built from the cases keeps the last. */
  function Expected(cases: seq<TestCase>, id: string): Option<Decision> {
    if cases == [] then None
    else if cases[|cases| - 1].caseId == id then Some(cases[|cases| - 1].expected)
    else Expected(cases[..|cases| - 1], id)
  }

  /** Scores the results that did not error; raises on a result without a case. */
  function Score(results: seq<CaseResult>, cases: seq<TestCase>): Result<seq<Scored>> {
    if results == [] then Ok([])
    else
      var before, last := Score(results[..|results| - 1], cases), results[|results| - 1];
      var expected := Expected(cases, last.caseId);
      if before.Raised? || expected.None? then Raised
      else if last.errored then before
      else Ok(before.value + [Scored(last, expected.value)])
  }

  /** `calculate_metrics`: one loop joins results to expectations, then everything is counted. */
  method CalculateMetrics(results: seq<CaseResult>, cases: seq<TestCase>) returns (m: Result<Metrics>)
    ensures m.Raised? <==> exists i :: 0 <= i < |results| && Expected(cases, results[i].caseId).None?
    ensures m.Ok? ==> Score(results, cases).Ok? && m.value == Rates(Score(results, cases).value, results)
  {
    var successful: seq<Scored> := [];
    for i := 0 to |results|
      invariant Score(results[..i], cases) == Ok(successful)
      invariant forall j :: 0 <= j < i ==> Expected(cases, results[j].caseId).Some?
    {
      assert results[..i + 1][..i] == results[..i];
      var expected := Expected(cases, results[i].caseId);
      if expected.None? {
        return Raised;
      }
      if !results[i].errored {
        successful := successful + [Scored(results[i], expected.value)];
      }
    }
    assert results[..|results|] == results;
    m := Ok(Rates(successful, results));
  }

  // ------------------------------------------------------------ comparator

  datatype Comparison = Comparison(totalCases: nat, baseline: Metrics, mitigation: Metrics,
                                   improvement: real, latencyOverhead: real)

  function Compare(totalCases: nat, baseline: Metrics, mitigation: Metrics): Comparison {
    Comparison(totalCases, baseline, mitigation,
               mitigation.blockRate - baseline.blockRate, mitigation.meanLatency - baseline.meanLatency)
  }

  // ------------------------------------------------------ facts about rates

  lemma {:induction false} CountLe<S, T>(p: S -> bool, s: seq<S>, q: T -> bool, t: seq<T>)
    requires |s| == |t| && forall i :: 0 <= i < |s| ==> p(s[i]) ==> q(t[i])
    ensures Count(p, s) <= Count(q, t)
  {
    if s == [] {
    } else {
      CountLe(p, s[..|s| - 1], q, t[..|t| - 1]);
    }
  }

  lemma {:induction false} CountSplit<T>(p: T -> bool, q: T -> bool, r: T -> bool, s: seq<T>)
    requires forall i :: 0 <= i < |s| ==> (r(s[i]) <==> p(s[i]) || q(s[i])) && !(p(s[i]) && q(s[i]))
    ensures Count(r, s) == Count(p, s) + Count(q, s)
  {
    if s == [] {
    } else {
      CountSplit(p, q, r, s[..|s| - 1]);
    }
  }

  lemma {:induction false} CountPositive<T>(p: T -> bool, s: seq<T>, i: nat)
    requires i < |s| && p(s[i])
    ensures Count(p, s) > 0
  {
    if i < |s| - 1 { CountPositive(p, s[..|s| - 1], i); }
  }

  lemma RateLe(a: nat, b: nat, whole: nat)
    requires a <= b
    ensures SafeRate(a, whole) <= SafeRate(b, whole)
  {
    if whole > 0 { Divide(a as real, b as real, whole as real); }
  }

  lemma Divide(a: real, b: real, w: real)
    requires a <= b && w > 0.0
    ensures a / w <= b / w
  {
    assert (b - a) / w >= 0.0;
    assert b / w == a / w + (b - a) / w;
  }

  lemma RatesSum(a: nat, b: nat, whole: nat)
    requires a + b == whole && whole > 0
    ensures SafeRate(a, whole) + SafeRate(b, whole) == 1.0
  {
    Parts(a as real, b as real, whole as real);
  }

  lemma Parts(a: real, b: real, w: real)
    requires a + b == w && w > 0.0
    ensures a / w + b / w == 1.0
  {
    assert a / w + b / w == (a + b) / w;
    assert w / w == 1.0;
  }

  /** In every scored run each expected group splits into its right and wrong decisions. */
  lemma GroupsSplit(scored: seq<Scored>)
    ensures Count(SHOULD_BLOCK, scored) == Count(TRUE_POSITIVE, scored) + Count(FALSE_NEGATIVE, scored)
    ensures Count(SHOULD_ACCEPT, scored) == Count(TRUE_NEGATIVE, scored) + Count(FALSE_POSITIVE, scored)
  {
    CountSplit(TRUE_POSITIVE, FALSE_NEGATIVE, SHOULD_BLOCK, scored);
    CountSplit(TRUE_NEGATIVE, FALSE_POSITIVE, SHOULD_ACCEPT, scored);
  }

  /** Block and miss rate are complementary, and so are acceptance and false alarms, whenever the
      group they are taken over is not empty; an empty group scores zero on both. */
  lemma ComplementaryRates(scored: seq<Scored>, results: seq<CaseResult>)
    ensures var m := Rates(scored, results);
      && (if Count(SHOULD_BLOCK, scored) > 0 then m.blockRate + m.falseNegative == 1.0
          else m.blockRate == 0.0 && m.falseNegative == 0.0)
      && (if Count(SHOULD_ACCEPT, scored) > 0 then m.validAcceptance + m.falsePositive == 1.0
          else m.validAcceptance == 0.0 && m.falsePositive == 0.0)
      && 0.0 <= m.blockRate <= 1.0 && 0.0 <= m.validAcceptance <= 1.0
      && 0.0 <= m.falsePositive <= 1.0 && 0.0 <= m.falseNegative <= 1.0
  {
    GroupsSplit(scored);
    var b, a := Count(SHOULD_BLOCK, scored), Count(SHOULD_ACCEPT, scored);
    if b > 0 { RatesSum(Count(TRUE_POSITIVE, scored), Count(FALSE_NEGATIVE, scored), b); }
    if a > 0 { RatesSum(Count(TRUE_NEGATIVE, scored), Count(FALSE_POSITIVE, scored), a); }
    RateLe(0, Count(TRUE_POSITIVE, scored), b);
    RateLe(0, Count(FALSE_NEGATIVE, scored), b);
    RateLe(0, Count(TRUE_NEGATIVE, scored), a);
    RateLe(0, Count(FALSE_POSITIVE, scored), a);
  }
}
