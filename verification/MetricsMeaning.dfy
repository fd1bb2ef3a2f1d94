/** The scores of a run as shares of its results, the verdict in numbers, and a regression in figures. */
module MetricsMeaning {
  import opened Basics
  import opened Strategies
  import opened Metrics
  import Verdict

  /** The case behind result `i`, which did not error, is labelled `d`. */
  ghost predicate LabelledAs(results: seq<CaseResult>, cases: seq<TestCase>, i: nat, d: Decision) {
    i < |results| && !results[i].errored && exists c :: c in cases && c.caseId == results[i].caseId && c.expected == d
  }

  ghost function Labelled(results: seq<CaseResult>, cases: seq<TestCase>, d: Decision): set<nat> {
    set i: nat | i < |results| && LabelledAs(results, cases, i, d)
  }

  /** One set's share of another; the share of nothing is zero. */
  function Share(part: set<nat>, whole: set<nat>): real {
    if |whole| == 0 then 0.0 else |part| as real / |whole| as real
  }

  ghost predicate HasCases(results: seq<CaseResult>, cases: seq<TestCase>) {
    forall i :: 0 <= i < |results| ==> exists c :: c in cases && c.caseId == results[i].caseId
  }

  // ------------------------------------------------------------------ counts

  lemma {:induction false} ExpectedIff(cases: seq<TestCase>, id: string, d: Decision)
    requires UniqueIds(cases)
    ensures Expected(cases, id) == Some(d) <==> exists c :: c in cases && c.caseId == id && c.expected == d
    ensures Expected(cases, id).Some? <==> exists c :: c in cases && c.caseId == id
  {
    if cases == [] {
    } else {
      var init, last := cases[..|cases| - 1], cases[|cases| - 1];
      ExpectedIff(init, id, d);
      assert forall c :: c in cases <==> c in init || c == last;
      if last.caseId == id {
        forall c | c in init ensures c.caseId != id { var i :| 0 <= i < |init| && init[i] == c; assert cases[i] == c; }
      }
    }
  }

  /** Of several cases with one id the last one counts. */
  lemma {:induction false} LastCaseCounts(cases: seq<TestCase>, id: string, i: nat)
    requires i < |cases| && cases[i].caseId == id && forall j :: i < j < |cases| ==> cases[j].caseId != id
    ensures Expected(cases, id) == Some(cases[i].expected)
  {
    if i < |cases| - 1 {
      assert cases[|cases| - 1].caseId != id;
      LastCaseCounts(cases[..|cases| - 1], id, i);
    }
  }

  /** The results that are scored and have the property, among the first `n`. */
  ghost function Where(p: Scored -> bool, results: seq<CaseResult>, cases: seq<TestCase>, n: nat): set<nat>
    requires n <= |results|
  {
    set i: nat | i < n && Holds(p, results, cases, i)
  }

  ghost predicate Holds(p: Scored -> bool, results: seq<CaseResult>, cases: seq<TestCase>, i: nat) {
    && i < |results| && !results[i].errored && Expected(cases, results[i].caseId).Some?
    && p(Scored(results[i], Expected(cases, results[i].caseId).value))
  }

  lemma {:induction false} CountIsSize(p: Scored -> bool, results: seq<CaseResult>, cases: seq<TestCase>, n: nat)
    requires n <= |results| && Score(results, cases).Ok?
    ensures Score(results[..n], cases).Ok?
    ensures Count(p, Score(results[..n], cases).value) == |Where(p, results, cases, n)|
    decreases n
  {
    ScorePrefixOk(results, cases, n);
    if n == 0 {
    } else {
      CountIsSize(p, results, cases, n - 1);
      assert results[..n][..n - 1] == results[..n - 1];
      var before, after := Where(p, results, cases, n - 1), Where(p, results, cases, n);
      if Holds(p, results, cases, n - 1) {
        assert after == before + {n - 1};
      } else {
        assert after == before;
      }
      var scored := Score(results[..n - 1], cases).value;
      if !results[n - 1].errored {
        var x := Scored(results[n - 1], Expected(cases, results[n - 1].caseId).value);
        assert (scored + [x])[..|scored|] == scored;
      }
    }
  }

  lemma {:induction false} ScorePrefixOk(results: seq<CaseResult>, cases: seq<TestCase>, n: nat)
    requires n <= |results| && Score(results, cases).Ok?
    ensures Score(results[..n], cases).Ok?
    decreases |results|
  {
    if n == |results| {
      assert results[..n] == results;
    } else {
      var init := results[..|results| - 1];
      assert init[..n] == results[..n];
      ScorePrefixOk(init, cases, n);
    }
  }

  lemma {:induction false} CountInAll(p: Scored -> bool, results: seq<CaseResult>, cases: seq<TestCase>, at: set<nat>)
    requires UniqueIds(cases) && Score(results, cases).Ok?
    requires forall i: nat :: i in at <==> Holds(p, results, cases, i)
    ensures Count(p, Score(results, cases).value) == |at|
  {
    assert results[..|results|] == results;
    CountIsSize(p, results, cases, |results|);
    assert at == Where(p, results, cases, |results|);
  }

  lemma LabelIff(results: seq<CaseResult>, cases: seq<TestCase>, i: nat, d: Decision)
    requires UniqueIds(cases)
    ensures LabelledAs(results, cases, i, d) <==> i < |results| && !results[i].errored && Expected(cases, results[i].caseId) == Some(d)
  {
    if i < |results| { ExpectedIff(cases, results[i].caseId, d); }
  }

  /** Scoring raises exactly when a result has no case. */
  lemma {:induction false} ScoresIff(results: seq<CaseResult>, cases: seq<TestCase>)
    requires UniqueIds(cases)
    ensures Score(results, cases).Ok? <==> HasCases(results, cases)
  {
    if results == [] {
    } else {
      var init, last := results[..|results| - 1], results[|results| - 1];
      ScoresIff(init, cases);
      ExpectedIff(cases, last.caseId, Accepted);
      assert forall i :: 0 <= i < |init| ==> init[i] == results[i];
    }
  }

  /** For every run over a dataset: the rates of the cases to block are shares of the results so
      labelled, */
  lemma {:induction false} BlockingRates(results: seq<CaseResult>, cases: seq<TestCase>)
    requires UniqueIds(cases) && HasCases(results, cases)
    ensures Score(results, cases).Ok?
    ensures var m, bad := Rates(Score(results, cases).value, results), Labelled(results, cases, Blocked);
      && m.blockRate == Share((set i | i in bad && results[i].decision == Blocked), bad)
      && m.falseNegative == Share((set i | i in bad && results[i].decision == Accepted), bad)
      && m.parserReach == Share((set i | i in bad && results[i].parserReached), bad)
  {
    ScoresIff(results, cases);
    forall i: nat { LabelIff(results, cases, i, Blocked); }
    var bad := Labelled(results, cases, Blocked);
    CountInAll(SHOULD_BLOCK, results, cases, bad);
    CountInAll(TRUE_POSITIVE, results, cases, set i | i in bad && results[i].decision == Blocked);
    CountInAll(FALSE_NEGATIVE, results, cases, set i | i in bad && results[i].decision == Accepted);
    CountInAll(REACHED, results, cases, set i | i in bad && results[i].parserReached);
  }

  /** those of the cases to accept likewise, */
  lemma {:induction false} AcceptingRates(results: seq<CaseResult>, cases: seq<TestCase>)
    requires UniqueIds(cases) && HasCases(results, cases)
    ensures Score(results, cases).Ok?
    ensures var m, good := Rates(Score(results, cases).value, results), Labelled(results, cases, Accepted);
      && m.validAcceptance == Share((set i | i in good && results[i].decision == Accepted), good)
      && m.falsePositive == Share((set i | i in good && results[i].decision == Blocked), good)
  {
    ScoresIff(results, cases);
    forall i: nat { LabelIff(results, cases, i, Accepted); }
    var good := Labelled(results, cases, Accepted);
    CountInAll(SHOULD_ACCEPT, results, cases, good);
    CountInAll(TRUE_NEGATIVE, results, cases, set i | i in good && results[i].decision == Accepted);
    CountInAll(FALSE_POSITIVE, results, cases, set i | i in good && results[i].decision == Blocked);
  }

  /** as many results are scored as did not error, */
  lemma {:induction false} ScoredCount(results: seq<CaseResult>, cases: seq<TestCase>)
    requires UniqueIds(cases) && HasCases(results, cases)
    ensures Score(results, cases).Ok?
    ensures |Score(results, cases).value| == |set i: nat | i < |results| && !results[i].errored|
  {
    ScoresIff(results, cases);
    var fine := set i: nat | i < |results| && !results[i].errored;
    forall i | i in fine ensures Expected(cases, results[i].caseId).Some? { ExpectedIff(cases, results[i].caseId, Accepted); }
    CountInAll(x => true, results, cases, fine);
    CountAll(Score(results, cases).value);
  }

  /** and those counted for log completeness are the blocked ones, and the logged ones among them; */
  lemma {:induction false} LogCounts(results: seq<CaseResult>, cases: seq<TestCase>)
    requires UniqueIds(cases) && HasCases(results, cases)
    ensures Score(results, cases).Ok?
    ensures var scored := Score(results, cases).value;
      var blocked := set i: nat | i < |results| && !results[i].errored && results[i].decision == Blocked;
      Count(BLOCKED_RESULT, scored) == |blocked| && Count(LOGGED_BLOCK, scored) == |set i | i in blocked && results[i].logged|
  {
    ScoresIff(results, cases);
    var blocked := set i: nat | i < |results| && !results[i].errored && results[i].decision == Blocked;
    forall i | i in blocked ensures Expected(cases, results[i].caseId).Some? { ExpectedIff(cases, results[i].caseId, Accepted); }
    CountInAll(BLOCKED_RESULT, results, cases, blocked);
    CountInAll(LOGGED_BLOCK, results, cases, set i | i in blocked && results[i].logged);
  }

  /** the success rate and log completeness are the ratios of these counts, */
  lemma {:induction false} CountedRates(scored: seq<Scored>, results: seq<CaseResult>)
    ensures var m := Rates(scored, results);
      && m.processingSuccess == (if |results| == 0 then 0.0 else |scored| as real / |results| as real)
      && m.logCompleteness == (if Count(BLOCKED_RESULT, scored) == 0 then 0.0
                               else Count(LOGGED_BLOCK, scored) as real / Count(BLOCKED_RESULT, scored) as real)
  {
  }

  /** and the mean latency is the sum of the latencies over their number. */
  lemma {:induction false} MeanLatency(scored: seq<Scored>, results: seq<CaseResult>)
    ensures Rates(scored, results).meanLatency == if |results| == 0 then 0.0 else Sum(results) / |results| as real
  {
    SumIsTotal(results);
    MeanIs(scored, results);
  }

  lemma MeanIs(scored: seq<Scored>, results: seq<CaseResult>)
    ensures Rates(scored, results).meanLatency ==
      if |results| == 0 then 0.0 else TotalLatency(results) / |results| as real
  {
  }

  lemma {:induction false} CountAll(scored: seq<Scored>)
    ensures Count((x: Scored) => true, scored) == |scored|
  {
    if scored == [] {
    } else {
      CountAll(scored[..|scored| - 1]);
    }
  }

  function Sum(results: seq<CaseResult>): real {
    if results == [] then 0.0 else results[0].latency + Sum(results[1..])
  }

  lemma {:induction false} SumIsTotal(results: seq<CaseResult>)
    ensures Sum(results) == TotalLatency(results)
  {
    if |results| <= 1 {
    } else {
      var n := |results| - 1;
      var init, tail := results[..n], results[1..];
      SumIsTotal(tail);
      SumIsTotal(init);
      SumIsTotal(tail[..n - 1]);
      assert init[1..] == tail[..n - 1] && init[0] == results[0] && tail[n - 1] == results[n];
    }
  }

  // ----------------------------------------------------------------- the verdict

  /** The verdict on two measured modes, for any thresholds, case by case. */
  lemma VerdictIff(total: nat, base: Metrics, mit: Metrics, previous: Option<Comparison>, t: Verdict.Thresholds)
    ensures var l := Verdict.LabelOf(Compare(total, base, mit), previous, t);
      var gain, cost := mit.blockRate - base.blockRate, mit.meanLatency - base.meanLatency;
      var fell := previous.Some? && previous.value.mitigation.blockRate - mit.blockRate > t.regressionDrop;
      var good := && gain >= t.improvementEffective && mit.falsePositive <= t.maxFalsePositive
                  && mit.falseNegative <= t.maxFalseNegative && mit.validAcceptance >= t.minValidAcceptance
                  && cost <= t.maxLatencyOverhead;
      var fair := gain >= t.improvementPartial && mit.validAcceptance >= t.minValidAcceptance;
      && (l == Verdict.Inconclusive <==> total < t.minTotalCases)
      && (l == Verdict.Regression <==> total >= t.minTotalCases && fell)
      && (l == Verdict.Effective <==> total >= t.minTotalCases && !fell && good)
      && (l == Verdict.PartiallyEffective <==> total >= t.minTotalCases && !fell && !good && fair)
      && (l == Verdict.Ineffective <==> total >= t.minTotalCases && !fell && !good && !fair)
  {
  }

  /** At the default thresholds: five cases, a gain of a half or a tenth, at most 5% false alarms and 10%
      misses, 95% of the valid cases accepted, at most 100 ms more, and no drop below the last run. */
  lemma DefaultVerdictIff(total: nat, base: Metrics, mit: Metrics, previous: Option<Comparison>)
    ensures var l := Verdict.LabelOf(Compare(total, base, mit), previous, Verdict.DEFAULTS);
      var gain, cost := mit.blockRate - base.blockRate, mit.meanLatency - base.meanLatency;
      var fell := previous.Some? && previous.value.mitigation.blockRate > mit.blockRate;
      var good := gain >= 0.5 && mit.falsePositive <= 0.05 && mit.falseNegative <= 0.1 && mit.validAcceptance >= 0.95 && cost <= 100.0;
      && (l == Verdict.Inconclusive <==> total < 5)
      && (l == Verdict.Regression <==> total >= 5 && fell)
      && (l == Verdict.Effective <==> total >= 5 && !fell && good)
      && (l == Verdict.PartiallyEffective <==> total >= 5 && !fell && !good && gain >= 0.1 && mit.validAcceptance >= 0.95)
      && (l == Verdict.Ineffective <==> total >= 5 && !fell && !good && (gain < 0.1 || mit.validAcceptance < 0.95))
  {
  }
}
