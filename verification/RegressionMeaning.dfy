/** When a worker check calls a validation a regression, in figures and for any order of the clock. */
module RegressionMeaning {
  import opened Basics
  import opened Metrics
  import opened Regression
  import opened Assurance
  import Verdict
  import ScanMeaning
  import AssuranceRuns

  /** From `p` to `q` the verdict did not get worse, the improvement fell by at most 0.10 and each of
      the other rates worsened by at most 0.05. */
  ghost predicate Tolerable(p: Validation, q: Validation) {
    && !Verdict.Worse(q.verdict, p.verdict)
    && p.improvement - q.improvement <= 0.1
    && q.falsePositive - p.falsePositive <= 0.05
    && q.falseNegative - p.falseNegative <= 0.05
    && p.validAcceptance - q.validAcceptance <= 0.05
    && q.parserReach - p.parserReach <= 0.05
  }

  lemma TolerableIff(p: Validation, q: Validation)
    ensures WithinSteps(p, q, TOLERANCES, 1) <==> Tolerable(p, q)
  {
    Verdict.SeverityRanks(q.verdict, p.verdict);
  }

  // --------------------------------------------------- the two newest validations

  lemma {:induction false} InsertSorts<T>(at: T -> Time, s: seq<T>, x: T)
    requires SortedByTime(at, s)
    ensures SortedByTime(at, InsertByTime(at, s, x)) && |InsertByTime(at, s, x)| == |s| + 1
  {
    if s == [] || at(s[|s| - 1]) <= at(x) {
    } else {
      var init, last := s[..|s| - 1], s[|s| - 1];
      InsertSorts(at, init, x);
      var t := InsertByTime(at, init, x);
      forall i | 0 <= i < |t| ensures at(t[i]) <= at(last) {
        ScanMeaning.InsertMember(at, init, x, t[i]);
        assert t[i] in t;
        if t[i] in init { var j :| 0 <= j < |init| && init[j] == t[i]; assert s[j] == t[i]; }
      }
    }
  }

  lemma {:induction false} OrderSorts<T>(at: T -> Time, rows: seq<T>)
    ensures SortedByTime(at, OrderByTime(at, rows))
  {
    if rows == [] {
    } else {
      OrderSorts(at, rows[..|rows| - 1]);
      InsertSorts(at, OrderByTime(at, rows[..|rows| - 1]), rows[|rows| - 1]);
    }
  }

  lemma SelectAppend<T>(p: T -> bool, s: seq<T>, x: T)
    ensures Select(p, s + [x]) == Select(p, s) + if p(x) then [x] else []
  {
    assert (s + [x])[..|s|] == s;
  }

  lemma KeptBefore<T>(p: T -> bool, at: T -> Time, s: seq<T>, x: T)
    requires SortedByTime(at, s) && (s != [] ==> at(s[|s| - 1]) <= at(x))
    ensures InsertByTime(at, Select(p, s), x) == Select(p, s) + [x]
  {
    var kept := Select(p, s);
    if kept != [] {
      var y := kept[|kept| - 1];
      assert y in kept;
      ScanMeaning.SelectMember(p, s, y);
      var j :| 0 <= j < |s| && s[j] == y;
      assert j == |s| - 1 || at(s[j]) <= at(s[|s| - 1]);
      InsertLast(at, kept, x);
    }
  }

  lemma InsertLast<T>(at: T -> Time, kept: seq<T>, x: T)
    requires kept == [] || at(kept[|kept| - 1]) <= at(x)
    ensures InsertByTime(at, kept, x) == kept + [x]
  {
  }

  /** Inserting and filtering commute. */
  lemma {:induction false} SelectInsert<T>(p: T -> bool, at: T -> Time, s: seq<T>, x: T)
    requires SortedByTime(at, s)
    ensures Select(p, InsertByTime(at, s, x)) == if p(x) then InsertByTime(at, Select(p, s), x) else Select(p, s)
  {
    if s == [] || at(s[|s| - 1]) <= at(x) {
      SelectAppend(p, s, x);
      KeptBefore(p, at, s, x);
      assert Select(p, s) + [] == Select(p, s);
    } else {
      var init, last := s[..|s| - 1], s[|s| - 1];
      SelectInsert(p, at, init, x);
      SelectAppend(p, InsertByTime(at, init, x), last);
      InsertUnder(p, at, s, x);
    }
  }

  lemma InsertUnder<T>(p: T -> bool, at: T -> Time, s: seq<T>, x: T)
    requires s != [] && at(s[|s| - 1]) > at(x)
    ensures var init, last := s[..|s| - 1], s[|s| - 1];
      && Select(p, s) == Select(p, init) + (if p(last) then [last] else [])
      && InsertByTime(at, Select(p, s), x) == InsertByTime(at, Select(p, init), x) + (if p(last) then [last] else [])
  {
    var init, last := s[..|s| - 1], s[|s| - 1];
    if p(last) {
      assert (Select(p, init) + [last])[..|Select(p, init)|] == Select(p, init);
    } else {
      assert Select(p, init) + [] == Select(p, init);
      assert InsertByTime(at, Select(p, init), x) + [] == InsertByTime(at, Select(p, init), x);
    }
  }

  /** The list of a version after one more row. */
  lemma OneVersionInserts(rows: seq<Validation>, v: Validation, control: string, version: string)
    ensures OneVersion(rows + [v], control, version) ==
      if v.controlId == control && v.versionId == version then InsertByTime(VALIDATED_AT, OneVersion(rows, control, version), v)
      else OneVersion(rows, control, version)
  {
    SelectAppend(OfControl(control), rows, v);
    var kept := Select(OfControl(control), rows);
    if v.controlId == control {
      assert (kept + [v])[..|kept|] == kept;
      OrderSorts(VALIDATED_AT, kept);
      SelectInsert(OfVersion(version), VALIDATED_AT, OrderByTime(VALIDATED_AT, kept), v);
    } else {
      assert kept + [] == kept;
    }
  }

  predicate IsOf(v: Validation, control: string, version: string) {
    v.controlId == control && v.versionId == version
  }

  /** Row `i` is the newest of the version apart from row `skip`; ties go to the row recorded last. */
  ghost predicate NewestBut(rows: seq<Validation>, control: string, version: string, skip: int, i: int) {
    && 0 <= i < |rows| && i != skip && IsOf(rows[i], control, version)
    && forall j :: 0 <= j < |rows| && j != skip && IsOf(rows[j], control, version) ==>
         rows[j].validatedAt < rows[i].validatedAt || (rows[j].validatedAt == rows[i].validatedAt && j <= i)
  }

  /** Rows `j` and `i` are the two newest of the version. */
  ghost predicate TwoNewest(rows: seq<Validation>, control: string, version: string, j: int, i: int) {
    NewestBut(rows, control, version, -1, i) && NewestBut(rows, control, version, i, j)
  }

  ghost predicate Top(rows: seq<Validation>, control: string, version: string, i: int, j: int) {
    var same := OneVersion(rows, control, version);
    && (same == [] ==> forall k :: 0 <= k < |rows| ==> !IsOf(rows[k], control, version))
    && (same != [] ==> NewestBut(rows, control, version, -1, i) && same[|same| - 1] == rows[i])
    && (|same| == 1 ==> forall k :: 0 <= k < |rows| && k != i ==> !IsOf(rows[k], control, version))
    && (|same| > 1 ==> NewestBut(rows, control, version, i, j) && same[|same| - 2] == rows[j])
  }

  lemma NewestStays(init: seq<Validation>, v: Validation, control: string, version: string, skip: int, i: int)
    requires NewestBut(init, control, version, skip, i) && skip < |init|
    requires IsOf(v, control, version) ==> v.validatedAt < init[i].validatedAt
    ensures NewestBut(init + [v], control, version, skip, i)
  {
    assert forall k :: 0 <= k < |init| ==> (init + [v])[k] == init[k];
  }

  lemma NewestPasses(init: seq<Validation>, v: Validation, control: string, version: string, skip: int)
    requires skip < |init| && IsOf(v, control, version)
    requires forall k :: 0 <= k < |init| && k != skip && IsOf(init[k], control, version) ==> init[k].validatedAt <= v.validatedAt
    ensures NewestBut(init + [v], control, version, skip, |init|)
  {
    assert forall k :: 0 <= k < |init| ==> (init + [v])[k] == init[k];
  }

  lemma NewestBecomesSecond(init: seq<Validation>, v: Validation, control: string, version: string, i: int)
    requires NewestBut(init, control, version, -1, i)
    ensures NewestBut(init + [v], control, version, |init|, i)
  {
    assert forall k :: 0 <= k < |init| ==> (init + [v])[k] == init[k];
  }

  lemma TopStep(init: seq<Validation>, v: Validation, control: string, version: string, i: int, j: int) returns (i': int, j': int)
    requires Top(init, control, version, i, j)
    ensures Top(init + [v], control, version, i', j')
  {
    OneVersionInserts(init, v, control, version);
    i', j' := i, j;
    if !IsOf(v, control, version) {
      TopSkips(init, v, control, version, i, j);
    } else if OneVersion(init, control, version) == [] {
      i' := |init|;
      TopStarts(init, v, control, version, j);
    } else {
      i', j' := TopInserts(init, v, control, version, i, j);
    }
  }

  lemma TopStarts(init: seq<Validation>, v: Validation, control: string, version: string, j: int)
    requires IsOf(v, control, version) && OneVersion(init + [v], control, version) == InsertByTime(VALIDATED_AT, [], v)
    requires forall k :: 0 <= k < |init| ==> !IsOf(init[k], control, version)
    ensures Top(init + [v], control, version, |init|, j)
  {
    NewestPasses(init, v, control, version, -1);
    assert forall k :: 0 <= k < |init| ==> (init + [v])[k] == init[k];
  }

  lemma TopSkips(init: seq<Validation>, v: Validation, control: string, version: string, i: int, j: int)
    requires Top(init, control, version, i, j) && !IsOf(v, control, version)
    requires OneVersion(init + [v], control, version) == OneVersion(init, control, version)
    ensures Top(init + [v], control, version, i, j)
  {
    var same, rows := OneVersion(init, control, version), init + [v];
    if same != [] { NewestStays(init, v, control, version, -1, i); }
    if |same| > 1 { NewestStays(init, v, control, version, i, j); }
    forall k | 0 <= k < |rows| ensures IsOf(rows[k], control, version) ==> k < |init| && rows[k] == init[k] {
      if k < |init| { assert rows[k] == init[k]; }
    }
  }

  lemma TopInserts(init: seq<Validation>, v: Validation, control: string, version: string, i: int, j: int) returns (i': int, j': int)
    requires Top(init, control, version, i, j) && IsOf(v, control, version) && OneVersion(init, control, version) != []
    ensures var same := InsertByTime(VALIDATED_AT, OneVersion(init, control, version), v); var rows := init + [v];
      && |same| > 1 && NewestBut(rows, control, version, -1, i') && same[|same| - 1] == rows[i']
      && NewestBut(rows, control, version, i', j') && same[|same| - 2] == rows[j']
  {
    var n, same := |init|, OneVersion(init, control, version);
    if init[i].validatedAt <= v.validatedAt {
      i', j' := n, i;
      NewestPasses(init, v, control, version, -1);
      NewestBecomesSecond(init, v, control, version, i);
    } else {
      NewestStays(init, v, control, version, -1, i);
      i' := i;
      if |same| == 1 || init[j].validatedAt <= v.validatedAt {
        j' := n;
        NewestPasses(init, v, control, version, i);
        InsertBelow(same, v);
      } else {
        j' := j;
        NewestStays(init, v, control, version, i, j);
        InsertDeeper(same, v);
      }
    }
  }

  lemma InsertBelow(same: seq<Validation>, v: Validation)
    requires |same| >= 1 && same[|same| - 1].validatedAt > v.validatedAt
    requires |same| == 1 || same[|same| - 2].validatedAt <= v.validatedAt
    ensures InsertByTime(VALIDATED_AT, same, v) == same[..|same| - 1] + [v] + [same[|same| - 1]]
  {
  }

  lemma InsertDeeper(same: seq<Validation>, v: Validation)
    requires |same| >= 2 && same[|same| - 1].validatedAt > v.validatedAt && same[|same| - 2].validatedAt > v.validatedAt
    ensures var after := InsertByTime(VALIDATED_AT, same, v);
      |after| >= 2 && after[|after| - 1] == same[|same| - 1] && after[|after| - 2] == same[|same| - 2]
  {
    var init := same[..|same| - 1];
    assert init[|init| - 1] == same[|same| - 2];
  }

  lemma {:induction false} FindTop(rows: seq<Validation>, control: string, version: string) returns (i: int, j: int)
    ensures Top(rows, control, version, i, j)
  {
    if rows == [] {
      i, j := 0, 0;
    } else {
      var init := rows[..|rows| - 1];
      i, j := FindTop(init, control, version);
      assert rows == init + [rows[|rows| - 1]];
      i, j := TopStep(init, rows[|rows| - 1], control, version, i, j);
    }
  }

  /** The two newest validations of the control version stand out of tolerance. */
  ghost predicate Worsened(rows: seq<Validation>, control: string, version: string) {
    exists j, i :: TwoNewest(rows, control, version, j, i) && !Tolerable(rows[j], rows[i])
  }

  lemma RegressesIff(rows: seq<Validation>, v: Validation)
    ensures Regresses(rows, v) <==> Worsened(rows, v.controlId, v.versionId)
  {
    var i, j := FindTop(rows, v.controlId, v.versionId);
    var same := OneVersion(rows, v.controlId, v.versionId);
    if |same| >= 2 { TolerableIff(rows[j], rows[i]); }
    forall x, y | TwoNewest(rows, v.controlId, v.versionId, x, y) ensures y == i && x == j && |same| >= 2 {
      assert IsOf(rows[y], v.controlId, v.versionId) && IsOf(rows[x], v.controlId, v.versionId);
    }
  }

  /** A worker check of a run leaves a regression candidate pending exactly when one was pending before,
      or it came to its second write and the two newest validations of the version, its own among them,
      stand out of tolerance. */
  lemma CheckFlagsIff(s: AssuranceRuns.State, a: AssuranceRuns.Action, t: AssuranceRuns.State)
    requires a.Validate? && AssuranceRuns.Step(s, a, t)
    ensures var k := Key(a.control, RegressionFound);
      ScanMeaning.AwaitsDecision(t.candidates, k) <==>
        ScanMeaning.AwaitsDecision(s.candidates, k) || (a.writes >= 2 && Worsened(t.validations, a.control, a.version))
    ensures t.candidates == s.candidates || t.candidates == s.candidates + [Candidate(Key(a.control, RegressionFound), Some(a.experiment), Pending)]
    ensures ScanMeaning.AwaitsDecision(s.candidates, Key(a.control, RegressionFound)) ==> t.candidates == s.candidates
  {
    var k := Key(a.control, RegressionFound);
    ScanMeaning.PendingMeans(s.candidates, k);
    ScanMeaning.PendingMeans(t.candidates, k);
    AssuranceRuns.RegressionIsFlagged(s, a, t);
    RegressesIff(t.validations, AssuranceRuns.Recorded(a));
  }

  /** What a check records: the figures of the mitigation, what it gained and cost, and the verdict. */
  lemma CheckRecords(s: AssuranceRuns.State, a: AssuranceRuns.Action, t: AssuranceRuns.State)
    requires a.Validate? && a.writes >= 1 && AssuranceRuns.Step(s, a, t)
    ensures |t.validations| == |s.validations| + 1 && t.validations[..|s.validations|] == s.validations
    ensures var v, c := t.validations[|s.validations|], a.comparison;
      && v.controlId == a.control && v.versionId == a.version && v.experimentId == a.experiment && v.validatedAt == a.at
      && v.totalCases == c.totalCases && v.improvement == c.improvement && v.latencyOverhead == c.latencyOverhead
      && v.falsePositive == c.mitigation.falsePositive && v.falseNegative == c.mitigation.falseNegative
      && v.validAcceptance == c.mitigation.validAcceptance && v.parserReach == c.mitigation.parserReach
      && v.verdict == Verdict.LabelOf(c, None, Verdict.DEFAULTS)
  {
  }
}
