/** What the strict mitigation guarantees over the weak baseline on arbitrary data. */
module Domination {
  import opened Basics
  import opened JsonValue
  import opened Strategies
  import opened Metrics

  lemma {:induction false} ExpectedOfCase(cases: seq<TestCase>, i: nat)
    requires UniqueIds(cases) && i < |cases|
    ensures Expected(cases, cases[i].caseId) == Some(cases[i].expected)
  {
    if i < |cases| - 1 {
      assert cases[..|cases| - 1][i] == cases[i];
      ExpectedOfCase(cases[..|cases| - 1], i);
    }
  }

  /** The scored results of a run in which no case errored. */
  function AllScored(results: seq<CaseResult>, cases: seq<TestCase>): seq<Scored>
    requires |results| == |cases|
  {
    seq(|results|, i requires 0 <= i < |results| => Scored(results[i], cases[i].expected))
  }

  ghost predicate ResultsOf(results: seq<CaseResult>, cases: seq<TestCase>) {
    |results| == |cases| && forall i :: 0 <= i < |cases| ==> results[i].caseId == cases[i].caseId
  }

  lemma {:induction false} ScorePrefix(results: seq<CaseResult>, cases: seq<TestCase>, k: nat)
    requires UniqueIds(cases) && ResultsOf(results, cases) && k <= |results|
    ensures Score(results[..k], cases).Ok?
    ensures forall x :: x in Score(results[..k], cases).value ==> x.result in results
    ensures (forall i :: 0 <= i < k ==> !results[i].errored) ==>
      Score(results[..k], cases).value == AllScored(results, cases)[..k]
  {
    if k == 0 {
    } else {
      assert results[..k][..k - 1] == results[..k - 1];
      ScorePrefix(results, cases, k - 1);
      ExpectedOfCase(cases, k - 1);
      var all := AllScored(results, cases);
      assert all[..k] == all[..k - 1] + [all[k - 1]];
    }
  }

  /** Scoring a run over a dataset never raises, and without errors it scores every case. */
  lemma ScoreRun(results: seq<CaseResult>, cases: seq<TestCase>)
    requires UniqueIds(cases) && ResultsOf(results, cases)
    ensures Score(results, cases).Ok?
    ensures forall x :: x in Score(results, cases).value ==> x.result in results
    ensures (forall i :: 0 <= i < |results| ==> !results[i].errored) ==>
      Score(results, cases).value == AllScored(results, cases)
  {
    ScorePrefix(results, cases, |results|);
    assert results[..|results|] == results;
    assert AllScored(results, cases)[..|results|] == AllScored(results, cases);
  }

  /** The metrics of one strategy over a dataset. */
  function RunMetrics(s: Strategy, str: Printer, cases: seq<TestCase>, latencies: seq<real>): Result<Metrics>
    requires |latencies| == |cases|
  {
    var results := ExecuteMode(s, str, cases, latencies);
    var scored := Score(results, cases);
    if scored.Raised? then Raised else Ok(Rates(scored.value, results))
  }

  lemma ReachedIsMissed(scored: seq<Scored>, results: seq<CaseResult>)
    requires forall x :: x in scored ==> x.result in results
    requires forall i :: 0 <= i < |results| ==> (results[i].parserReached <==> results[i].decision == Accepted)
    ensures Count(REACHED, scored) == Count(FALSE_NEGATIVE, scored)
  {
    forall i | 0 <= i < |scored| ensures REACHED(scored[i]) <==> FALSE_NEGATIVE(scored[i]) {
      assert scored[i] in scored;
      var j :| 0 <= j < |results| && results[j] == scored[i].result;
    }
    CountLe(REACHED, scored, FALSE_NEGATIVE, scored);
    CountLe(FALSE_NEGATIVE, scored, REACHED, scored);
  }

  /** For every strategy and dataset, raising cases included: what reaches the parser among the
      cases to block is exactly what was missed. */
  lemma ParserReachIsMissRate(s: Strategy, str: Printer, cases: seq<TestCase>, latencies: seq<real>)
    requires UniqueIds(cases) && |latencies| == |cases|
    ensures var m := RunMetrics(s, str, cases, latencies);
      m.Ok? && m.value.parserReach == m.value.falseNegative
  {
    var results := ExecuteMode(s, str, cases, latencies);
    ScoreRun(results, cases);
    forall i | 0 <= i < |results| ensures results[i].parserReached <==> results[i].decision == Accepted {
      ParserFollowsDecision(s, str, cases[i].input);
    }
    ReachedIsMissed(Score(results, cases).value, results);
  }

  /** Case by case comparison of two error-free runs over the same expectations. */
  lemma RatesDominate(base: seq<Scored>, mit: seq<Scored>, baseResults: seq<CaseResult>, mitResults: seq<CaseResult>)
    requires |base| == |mit|
    requires forall i :: 0 <= i < |base| ==> base[i].expected == mit[i].expected
    requires forall i :: 0 <= i < |base| ==> base[i].result.decision == Blocked ==> mit[i].result.decision == Blocked
    ensures var b, m := Rates(base, baseResults), Rates(mit, mitResults);
      && b.blockRate <= m.blockRate && m.falseNegative <= b.falseNegative && m.validAcceptance <= b.validAcceptance
  {
    CountLe(SHOULD_BLOCK, base, SHOULD_BLOCK, mit);
    CountLe(SHOULD_BLOCK, mit, SHOULD_BLOCK, base);
    CountLe(SHOULD_ACCEPT, base, SHOULD_ACCEPT, mit);
    CountLe(SHOULD_ACCEPT, mit, SHOULD_ACCEPT, base);
    CountLe(TRUE_POSITIVE, base, TRUE_POSITIVE, mit);
    CountLe(FALSE_NEGATIVE, mit, FALSE_NEGATIVE, base);
    CountLe(TRUE_NEGATIVE, mit, TRUE_NEGATIVE, base);
    var block, accept := Count(SHOULD_BLOCK, base), Count(SHOULD_ACCEPT, base);
    RateLe(Count(TRUE_POSITIVE, base), Count(TRUE_POSITIVE, mit), block);
    RateLe(Count(FALSE_NEGATIVE, mit), Count(FALSE_NEGATIVE, base), block);
    RateLe(Count(TRUE_NEGATIVE, mit), Count(TRUE_NEGATIVE, base), accept);
  }

  ghost predicate NeverRaises(s: Strategy, str: Printer, cases: seq<TestCase>) {
    forall i :: 0 <= i < |cases| ==> Process(s, str, cases[i].input).Ok?
  }

  /** An error-free run scores every case with its own expectation. */
  lemma CleanRun(s: Strategy, str: Printer, cases: seq<TestCase>, latencies: seq<real>, scored: seq<Scored>)
    requires UniqueIds(cases) && |latencies| == |cases| && NeverRaises(s, str, cases)
    requires scored == AllScored(ExecuteMode(s, str, cases, latencies), cases)
    ensures RunMetrics(s, str, cases, latencies) == Ok(Rates(scored, ExecuteMode(s, str, cases, latencies)))
  {
    var results := ExecuteMode(s, str, cases, latencies);
    forall i | 0 <= i < |results| ensures !results[i].errored {
      assert Process(s, str, cases[i].input).Ok?;
    }
    ScoreRun(results, cases);
  }

  /** On every dataset the strict strategy can process, whatever its labels: it blocks at least as
      much and misses, exposes and accepts no more than the baseline. */
  lemma StrictRunDominates(domain: Domain, str: Printer, cases: seq<TestCase>, bl: seq<real>, ml: seq<real>)
    requires UniqueIds(cases) && |bl| == |cases| == |ml| && NeverRaises(Strict(domain), str, cases)
    ensures var base, mit := RunMetrics(Weak(domain), str, cases, bl), RunMetrics(Strict(domain), str, cases, ml);
      && base.Ok? && mit.Ok?
      && base.value.blockRate <= mit.value.blockRate
      && mit.value.falseNegative <= base.value.falseNegative
      && mit.value.parserReach <= base.value.parserReach
      && mit.value.validAcceptance <= base.value.validAcceptance
      && Compare(|cases|, base.value, mit.value).improvement >= 0.0
  {
    var weak, strict := ExecuteMode(Weak(domain), str, cases, bl), ExecuteMode(Strict(domain), str, cases, ml);
    var base, mit := AllScored(weak, cases), AllScored(strict, cases);
    forall i | 0 <= i < |cases| ensures Process(Weak(domain), str, cases[i].input).Ok? {
      ParserFollowsDecision(Weak(domain), str, cases[i].input);
    }
    CleanRun(Weak(domain), str, cases, bl, base);
    CleanRun(Strict(domain), str, cases, ml, mit);
    forall i | 0 <= i < |cases| && base[i].result.decision == Blocked ensures mit[i].result.decision == Blocked {
      StrictDominates(domain, str, cases[i].input);
    }
    RatesDominate(base, mit, weak, strict);
    ParserReachIsMissRate(Weak(domain), str, cases, bl);
    ParserReachIsMissRate(Strict(domain), str, cases, ml);
  }
}
