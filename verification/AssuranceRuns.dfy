/** Runs of the assurance subsystem: worker checks, scans, decisions, and candidates raised by hand
    (api/routes/revalidation.py), in any order. */
module AssuranceRuns {
  import opened Basics
  import opened Metrics
  import opened Regression
  import opened Assurance
  import opened Revalidation
  import Verdict

  datatype State = State(validations: seq<Validation>, candidates: seq<Candidate>)

  /** `writes` says how many of its two writes, validation and candidate, a worker check gets to make. */
  datatype Action =
    | Validate(control: string, version: string, experiment: string, comparison: Comparison, at: Time, writes: nat)
    | ScanNow(world: World, now: Time, window: int)
    | Decision(row: nat, approve: bool)
    | RaiseByHand(known: bool, key: Key, experimentId: Option<string>)

  ghost predicate Step(s: State, a: Action, t: State) {
    match a
    case Validate(control, version, experiment, comparison, at, writes) =>
      var v := ValidationOf(control, version, experiment, comparison, at);
      && t.validations == s.validations + (if writes >= 1 then [v] else [])
      && t.candidates == if writes >= 2 && Regresses(t.validations, v)
                         then TryCreate(s.candidates, Key(control, RegressionFound), Some(experiment))
                         else s.candidates
    case ScanNow(w, now, window) =>
      && t.validations == s.validations
      && exists ok :: Swept(s.validations, s.candidates, t.candidates, Fired(w, s.validations, now, window), ok)
    case Decision(i, approve) =>
      && t.validations == s.validations
      && t.candidates == if i < |s.candidates| && s.candidates[i].status == Pending
                         then s.candidates[i := s.candidates[i].(status := if approve then Approved else Dismissed)]
                         else s.candidates
    case RaiseByHand(known, k, experiment) =>
      && t.validations == s.validations
      && t.candidates == if known then s.candidates + [Candidate(k, experiment, Pending)] else s.candidates
  }

  /** The code behind each action takes a step. */
  method Perform(repo: AssuranceRepository, a: Action)
    modifies repo
    ensures Step(State(old(repo.validations), old(repo.candidates)), a, State(repo.validations, repo.candidates))
  {
    match a
    case Validate(control, version, experiment, comparison, at, writes) =>
      repo.RecordAndCheck(control, version, experiment, comparison, at, writes);
    case ScanNow(w, now, window) =>
      var _, _, _ := Scan(repo, w, now, window);
    case Decision(i, approve) =>
      var _ := repo.Decide(i, if approve then Approved else Dismissed);
    case RaiseByHand(known, k, experiment) =>
      // the route inserts without looking for a pending duplicate
      if known { repo.candidates := repo.candidates + [Candidate(k, experiment, Pending)]; }
  }

  ghost predicate Execution(states: seq<State>, acts: seq<Action>) {
    |states| == |acts| + 1 && forall i :: 0 <= i < |acts| ==> Step(states[i], acts[i], states[i + 1])
  }

  // -------------------------------------------------------- at most one pending

  ghost predicate OnePending(cs: seq<Candidate>) {
    forall k :: !Doubled(cs, k)
  }

  lemma TryCreateDoubles(cs: seq<Candidate>, k: Key, experiment: Option<string>, x: Key)
    requires Doubled(TryCreate(cs, k, experiment), x)
    ensures Doubled(cs, x)
  {
    var after := TryCreate(cs, k, experiment);
    var i, j :| 0 <= i < j < |after| && IsPending(after[i], x) && IsPending(after[j], x);
    assert IsPending(cs[i], x);
  }

  lemma TryCreateKeeps(cs: seq<Candidate>, k: Key, experiment: Option<string>)
    requires OnePending(cs)
    ensures OnePending(TryCreate(cs, k, experiment))
  {
    forall x ensures !Doubled(TryCreate(cs, k, experiment), x) {
      if Doubled(TryCreate(cs, k, experiment), x) { TryCreateDoubles(cs, k, experiment, x); }
    }
  }

  lemma DecisionDoubles(s: State, a: Action, t: State, k: Key)
    requires a.Decision? && Step(s, a, t) && Doubled(t.candidates, k)
    ensures Doubled(s.candidates, k)
  {
    var i, j :| 0 <= i < j < |t.candidates| && IsPending(t.candidates[i], k) && IsPending(t.candidates[j], k);
    assert IsPending(s.candidates[i], k) && IsPending(s.candidates[j], k);
  }

  /** Raising a candidate by hand keeps one pending row per key exactly when that key has none. */
  lemma RaiseByHandKeepsIff(s: State, a: Action, t: State)
    requires a.RaiseByHand? && a.known && Step(s, a, t) && OnePending(s.candidates)
    ensures OnePending(t.candidates) <==> !HasPending(s.candidates, a.key)
  {
    var n := |s.candidates|;
    assert IsPending(t.candidates[n], a.key);
    if HasPending(s.candidates, a.key) {
      var i :| 0 <= i < n && IsPending(s.candidates[i], a.key);
      assert IsPending(t.candidates[i], a.key);
      assert Doubled(t.candidates, a.key);
    } else {
      TryCreateKeeps(s.candidates, a.key, a.experimentId);
    }
  }

  /** Two candidates raised by hand for one key: from then on a scan in which that key fires raises. */
  lemma RaisedTwice(s: State, a: Action, t: State, u: State, rows: seq<Validation>, after: seq<Candidate>, keys: iset<Key>, ok: bool)
    requires a.RaiseByHand? && a.known && Step(s, a, t) && Step(t, a, u)
    requires a.key in keys && Swept(rows, u.candidates, after, keys, ok)
    ensures !OnePending(u.candidates) && !ok
  {
    var n := |s.candidates|;
    assert IsPending(u.candidates[n], a.key) && IsPending(u.candidates[n + 1], a.key);
    assert Doubled(u.candidates, a.key);
  }

  ghost predicate NoDuplicateByHand(s: State, a: Action) {
    a.RaiseByHand? && a.known ==> !HasPending(s.candidates, a.key)
  }

  lemma StepKeepsOnePending(s: State, a: Action, t: State)
    requires OnePending(s.candidates) && Step(s, a, t) && NoDuplicateByHand(s, a)
    ensures OnePending(t.candidates)
  {
    match a
    case Validate(control, _, experiment, _, _, _) =>
      TryCreateKeeps(s.candidates, Key(control, RegressionFound), Some(experiment));
    case ScanNow(w, now, window) =>
      var keys := Fired(w, s.validations, now, window);
      var ok :| Swept(s.validations, s.candidates, t.candidates, keys, ok);
      forall k ensures !Doubled(t.candidates, k) { DoubledSame(s.validations, s.candidates, t.candidates, keys, k); }
    case Decision(_, _) =>
      forall k ensures !Doubled(t.candidates, k) {
        if Doubled(t.candidates, k) { DecisionDoubles(s, a, t, k); }
      }
    case RaiseByHand(known, _, _) => if known { RaiseByHandKeepsIff(s, a, t); }
  }

  /** Scans, worker checks and decisions in any order never leave two candidates pending for one
      control and trigger, as long as nobody raises a duplicate by hand. */
  lemma {:induction false} AtMostOnePending(states: seq<State>, acts: seq<Action>)
    requires Execution(states, acts) && OnePending(states[0].candidates)
    requires forall i :: 0 <= i < |acts| ==> NoDuplicateByHand(states[i], acts[i])
    ensures OnePending(states[|acts|].candidates)
    decreases |acts|
  {
    var n := |acts|;
    if n == 0 {
    } else {
      ExecutionPrefix(states, acts);
      AtMostOnePending(states[..n], acts[..n - 1]);
      StepKeepsOnePending(states[n - 1], acts[n - 1], states[n]);
    }
  }

  // ---------------------------------------------------------------------- decisions

  function StatusAt(s: State, row: nat): Status {
    if row < |s.candidates| then s.candidates[row].status else Pending
  }

  /** A decision counts when it finds the row, still pending. */
  function AfterAction(before: Status, s: State, a: Action, row: nat): Status {
    if before != Pending || !a.Decision? || a.row != row || row >= |s.candidates| then before
    else if a.approve then Approved
    else Dismissed
  }

  /** The outcome of the first decision about the row that found it on the table, if there was one. */
  ghost function FirstDecision(states: seq<State>, acts: seq<Action>, n: nat, row: nat): Status
    requires |states| == |acts| + 1 && n <= |acts|
  {
    if n == 0 then Pending else AfterAction(FirstDecision(states, acts, n - 1, row), states[n - 1], acts[n - 1], row)
  }

  lemma RowsStay(s: State, a: Action, t: State, row: nat)
    requires Step(s, a, t)
    ensures row < |s.candidates| ==>
      && row < |t.candidates| && t.candidates[row] == s.candidates[row].(status := t.candidates[row].status)
      && t.candidates[row].status ==
         if s.candidates[row].status == Pending && a.Decision? && a.row == row
         then if a.approve then Approved else Dismissed
         else s.candidates[row].status
    ensures |s.candidates| <= row < |t.candidates| ==> t.candidates[row].status == Pending
    ensures |s.candidates| <= |t.candidates|
  {
  }

  lemma DecidedStep(s: State, a: Action, t: State, row: nat)
    requires Step(s, a, t)
    ensures StatusAt(t, row) == AfterAction(StatusAt(s, row), s, a, row)
  {
    RowsStay(s, a, t, row);
  }

  ghost predicate Advances(states: seq<State>, acts: seq<Action>, i: nat, row: nat)
    requires |states| == |acts| + 1 && i < |acts|
  {
    StatusAt(states[i + 1], row) == AfterAction(StatusAt(states[i], row), states[i], acts[i], row)
  }

  lemma {:induction false} AdvancesToEnd(states: seq<State>, acts: seq<Action>, n: nat, row: nat)
    requires |states| == |acts| + 1 && n <= |acts| && StatusAt(states[0], row) == Pending
    requires forall i: nat :: i < n ==> Advances(states, acts, i, row)
    ensures FirstDecision(states, acts, n, row) == StatusAt(states[n], row)
  {
    if n > 0 {
      AdvancesToEnd(states, acts, n - 1, row);
      assert Advances(states, acts, n - 1, row);
    }
  }

  /** Over every run from an empty table: a candidate is approved or dismissed by the first decision about
      it, for good, and pending until then. */
  lemma DecidedOnce(states: seq<State>, acts: seq<Action>, n: nat, row: nat)
    requires Execution(states, acts) && n <= |acts| && states[0].candidates == []
    ensures FirstDecision(states, acts, n, row) == StatusAt(states[n], row)
  {
    forall i: nat | i < n ensures Advances(states, acts, i, row) { AdvancesAt(states, acts, i, row); }
    AdvancesToEnd(states, acts, n, row);
  }

  lemma AdvancesAt(states: seq<State>, acts: seq<Action>, i: nat, row: nat)
    requires Execution(states, acts) && i < |acts|
    ensures Advances(states, acts, i, row)
  {
    StepAt(states, acts, i);
    DecidedStep(states[i], acts[i], states[i + 1], row);
  }

  // ------------------------------------------------------------- what a scan creates

  /** A scan over a table without duplicates returns normally, makes pending exactly what was pending
      or fires, and adds a row exactly for each key that fires and was not pending. */
  lemma ScanIsExact(rows: seq<Validation>, a: seq<Candidate>, b: seq<Candidate>, keys: iset<Key>, ok: bool, k: Key)
    requires Swept(rows, a, b, keys, ok) && OnePending(a)
    ensures ok
    ensures HasPending(b, k) <==> HasPending(a, k) || k in keys
    ensures (exists i :: |a| <= i < |b| && IsPending(b[i], k)) <==> k in keys && !HasPending(a, k)
  {
    if HasPending(a, k) { PendingGrows(a, b, k); }
    if HasPending(b, k) {
      var i :| 0 <= i < |b| && IsPending(b[i], k);
      if i < |a| { assert IsPending(a[i], k); }
    }
  }

  lemma AddedHead(rows: seq<Validation>, a: seq<Candidate>, b: seq<Candidate>, keys: iset<Key>)
    requires Added(rows, a, b, keys) && |b| > |a|
    ensures exists k :: k in keys && !HasPending(a, k)
  {
    var k := b[|a|].key;
    assert k in keys;
  }

  /** Scanning again with nothing changed creates nothing. */
  lemma SecondScanIsIdle(rows: seq<Validation>, a: seq<Candidate>, b: seq<Candidate>, c: seq<Candidate>, keys: iset<Key>, ok: bool)
    requires Swept(rows, a, b, keys, true) && Swept(rows, b, c, keys, ok)
    ensures ok && c == b
  {
    forall k | k in keys ensures !Doubled(b, k) { DoubledSame(rows, a, b, keys, k); }
    if |c| > |b| { AddedHead(rows, b, c, keys); }
  }

  // ----------------------------------------------------------------- regression chain

  /** Validations are stamped with strictly increasing times. */
  ghost predicate Clocked(rows: seq<Validation>) {
    forall i, j :: 0 <= i < j < |rows| ==> rows[i].validatedAt < rows[j].validatedAt
  }

  lemma {:induction false} SelectSorted(p: Validation -> bool, rows: seq<Validation>)
    requires Clocked(rows)
    ensures SortedByTime(VALIDATED_AT, Select(p, rows))
    ensures forall x :: x in Select(p, rows) ==> x in rows
  {
    if rows == [] {
    } else {
      var init, last := rows[..|rows| - 1], rows[|rows| - 1];
      SelectSorted(p, init);
      forall i | 0 <= i < |Select(p, init)| ensures VALIDATED_AT(Select(p, init)[i]) <= VALIDATED_AT(last) {
        assert Select(p, init)[i] in init;
        var j :| 0 <= j < |init| && init[j] == Select(p, init)[i];
        assert rows[j] == init[j];
      }
    }
  }

  lemma SelectSnoc(p: Validation -> bool, rows: seq<Validation>, v: Validation)
    ensures Select(p, rows + [v]) == Select(p, rows) + if p(v) then [v] else []
  {
    assert (rows + [v])[..|rows|] == rows;
  }

  /** Recorded validations of a control version come back in the order of recording. */
  lemma OneVersionSnoc(rows: seq<Validation>, v: Validation, control: string, version: string)
    requires Clocked(rows + [v])
    ensures OneVersion(rows + [v], control, version) ==
            OneVersion(rows, control, version) + if v.controlId == control && v.versionId == version then [v] else []
  {
    var p, q := OfControl(control), OfVersion(version);
    forall i, j | 0 <= i < j < |rows| ensures rows[i].validatedAt < rows[j].validatedAt {
      assert (rows + [v])[i] == rows[i] && (rows + [v])[j] == rows[j];
    }
    SelectSorted(p, rows);
    SelectSorted(p, rows + [v]);
    OrderByTimeKeepsSorted(VALIDATED_AT, Select(p, rows));
    OrderByTimeKeepsSorted(VALIDATED_AT, Select(p, rows + [v]));
    SelectSnoc(p, rows, v);
    if p(v) {
      SelectSnoc(q, Select(p, rows), v);
    } else {
      assert Select(p, rows) + [] == Select(p, rows);
    }
  }

  /** No regression candidate of the control is on record, in any status. */
  ghost predicate NeverRaised(cs: seq<Candidate>, control: string) {
    forall i :: 0 <= i < |cs| ==> cs[i].key != Key(control, RegressionFound)
  }

  ghost predicate Chained(rows: seq<Validation>, control: string, version: string) {
    InTolerance(OneVersion(rows, control, version))
  }

  ghost predicate InTolerance(s: seq<Validation>) {
    forall j :: 0 <= j < |s| - 1 ==> WithinSteps(s[j], s[j + 1], TOLERANCES, 1)
  }

  /** Candidates are never deleted. */
  lemma NeverRaisedBefore(s: State, a: Action, t: State, control: string)
    requires Step(s, a, t) && NeverRaised(t.candidates, control)
    ensures NeverRaised(s.candidates, control)
  {
    forall i | 0 <= i < |s.candidates| ensures s.candidates[i].key != Key(control, RegressionFound) {
      assert t.candidates[i].key == s.candidates[i].key;
    }
  }

  function Recorded(a: Action): Validation
    requires a.Validate?
  {
    ValidationOf(a.control, a.version, a.experiment, a.comparison, a.at)
  }

  /** After a worker check a regression candidate is pending exactly when one was pending before, or the
      validation is out of tolerance and the check came that far. */
  lemma RegressionIsFlagged(s: State, a: Action, t: State)
    requires a.Validate? && Step(s, a, t)
    ensures var k := Key(a.control, RegressionFound);
      HasPending(t.candidates, k) <==> HasPending(s.candidates, k) || (a.writes >= 2 && Regresses(t.validations, Recorded(a)))
  {
    var k := Key(a.control, RegressionFound);
    if !HasPending(s.candidates, k) && a.writes >= 2 && Regresses(t.validations, Recorded(a)) {
      assert IsPending(t.candidates[|s.candidates|], k);
    }
  }

  /** The check records a validation of the version that is out of tolerance, and is lost before it can
      raise a candidate. */
  ghost predicate LosesCheck(a: Action, t: State, control: string, version: string) {
    && a.Validate? && a.control == control && a.version == version && a.writes == 1
    && Regresses(t.validations, Recorded(a))
  }

  /** One of the first `n` actions loses its check. */
  ghost predicate LostCheck(states: seq<State>, acts: seq<Action>, n: nat, control: string, version: string)
    requires |states| == |acts| + 1 && n <= |acts|
  {
    exists i :: 0 <= i < n && LosesCheck(acts[i], states[i + 1], control, version)
  }

  lemma ToleranceSnoc(s: seq<Validation>, v: Validation)
    ensures InTolerance(s + [v]) <==> InTolerance(s) && (s != [] ==> WithinSteps(s[|s| - 1], v, TOLERANCES, 1))
  {
    var r := s + [v];
    assert forall j :: 0 <= j < |s| ==> r[j] == s[j];
    if InTolerance(r) {
      forall j | 0 <= j < |s| - 1 ensures WithinSteps(s[j], s[j + 1], TOLERANCES, 1) {
        assert WithinSteps(r[j], r[j + 1], TOLERANCES, 1);
      }
      if s != [] { assert WithinSteps(r[|s| - 1], r[|s| - 1 + 1], TOLERANCES, 1); }
    }
  }

  /** One more validation, of this version or another, seen only through the list of this version. */
  lemma ChainGrows(rows: seq<Validation>, v: Validation, control: string, version: string, s: seq<Validation>)
    requires Clocked(rows + [v]) && s == OneVersion(rows, control, version)
    ensures Chained(rows + [v], control, version) <==>
      InTolerance(s) && !(v.controlId == control && v.versionId == version && Regresses(rows + [v], v))
  {
    OneVersionSnoc(rows, v, control, version);
    if v.controlId == control && v.versionId == version {
      ToleranceSnoc(s, v);
      assert OneVersion(rows + [v], control, version) == s + [v];
    } else {
      assert s + [] == s;
    }
  }

  lemma ValidateAppends(s: State, a: Action, t: State)
    requires a.Validate? && a.writes >= 1 && Step(s, a, t)
    ensures t.validations == s.validations + [Recorded(a)]
  {
  }

  lemma OthersKeepValidations(s: State, a: Action, t: State)
    requires !(a.Validate? && a.writes >= 1) && Step(s, a, t)
    ensures t.validations == s.validations
  {
  }

  lemma UnflaggedIsInTolerance(s: State, a: Action, t: State)
    requires a.Validate? && a.writes >= 2 && Step(s, a, t) && NeverRaised(t.candidates, a.control)
    ensures !Regresses(t.validations, Recorded(a))
  {
    RegressionIsFlagged(s, a, t);
    assert !HasPending(t.candidates, Key(a.control, RegressionFound));
  }

  /** Without a candidate ever raised, a step breaks the chain exactly when it loses its check. */
  lemma ChainStep(s: State, a: Action, t: State, control: string, version: string)
    requires Step(s, a, t) && Clocked(t.validations) && NeverRaised(t.candidates, control)
    ensures Chained(t.validations, control, version) <==>
      Chained(s.validations, control, version) && !LosesCheck(a, t, control, version)
  {
    if a.Validate? && a.writes >= 1 {
      ValidateAppends(s, a, t);
      if a.control == control && a.writes >= 2 { UnflaggedIsInTolerance(s, a, t); }
      ChainGrows(s.validations, Recorded(a), control, version, OneVersion(s.validations, control, version));
    } else {
      OthersKeepValidations(s, a, t);
    }
  }

  lemma ClockedBefore(s: State, a: Action, t: State)
    requires Step(s, a, t) && Clocked(t.validations)
    ensures Clocked(s.validations)
  {
    if a.Validate? && a.writes >= 1 { ValidateAppends(s, a, t); } else { OthersKeepValidations(s, a, t); }
    forall i, j | 0 <= i < j < |s.validations| ensures s.validations[i].validatedAt < s.validations[j].validatedAt {
      assert s.validations[i] == t.validations[i] && s.validations[j] == t.validations[j];
    }
  }

  lemma ExecutionPrefix(states: seq<State>, acts: seq<Action>)
    requires Execution(states, acts) && acts != []
    ensures Execution(states[..|acts|], acts[..|acts| - 1])
    ensures Step(states[|acts| - 1], acts[|acts| - 1], states[|acts|])
  {
    assert Step(states[|acts| - 1], acts[|acts| - 1], states[|acts| - 1 + 1]);
  }

  lemma StepAt(states: seq<State>, acts: seq<Action>, i: nat)
    requires Execution(states, acts) && i < |acts|
    ensures Step(states[i], acts[i], states[i + 1])
  {
  }

  lemma BeforeStep(states: seq<State>, acts: seq<Action>, i: nat, control: string)
    requires Execution(states, acts) && i < |acts|
    requires Clocked(states[i + 1].validations) && NeverRaised(states[i + 1].candidates, control)
    ensures Clocked(states[i].validations) && NeverRaised(states[i].candidates, control)
  {
    StepAt(states, acts, i);
    NeverRaisedBefore(states[i], acts[i], states[i + 1], control);
    ClockedBefore(states[i], acts[i], states[i + 1]);
  }

  lemma AfterStep(states: seq<State>, acts: seq<Action>, i: nat, control: string, version: string)
    requires Execution(states, acts) && i < |acts|
    requires Clocked(states[i + 1].validations) && NeverRaised(states[i + 1].candidates, control)
    ensures Chained(states[i + 1].validations, control, version) <==>
      Chained(states[i].validations, control, version) && !LosesCheck(acts[i], states[i + 1], control, version)
  {
    StepAt(states, acts, i);
    ChainStep(states[i], acts[i], states[i + 1], control, version);
  }

  /** If no regression candidate was ever created for a control, the validations of each of its versions
      are all within tolerance of the one before exactly when no check of one that is not was lost. */
  lemma {:induction false} ToleranceIff(states: seq<State>, acts: seq<Action>, n: nat, control: string, version: string)
    requires Execution(states, acts) && n <= |acts| && states[0].validations == []
    requires Clocked(states[n].validations) && NeverRaised(states[n].candidates, control)
    ensures Chained(states[n].validations, control, version) <==> !LostCheck(states, acts, n, control, version)
  {
    if n == 0 {
    } else {
      BeforeStep(states, acts, n - 1, control);
      ToleranceIff(states, acts, n - 1, control, version);
      AfterStep(states, acts, n - 1, control, version);
      assert LosesCheck(acts[n - 1], states[n - 1 + 1], control, version) ==> LostCheck(states, acts, n, control, version);
    }
  }

  /** Over `k` steps from `i` no rate worsened by more than `k` times its tolerance and the verdict did not
      get worse. */
  ghost predicate Bounded(s: seq<Validation>, i: nat, k: nat) {
    i + k < |s| ==>
      var p, q := s[i], s[i + k];
      && !Verdict.Worse(q.verdict, p.verdict)
      && p.improvement - q.improvement <= 0.1 * k as real
      && q.falsePositive - p.falsePositive <= 0.05 * k as real
      && q.falseNegative - p.falseNegative <= 0.05 * k as real
      && p.validAcceptance - q.validAcceptance <= 0.05 * k as real
      && q.parserReach - p.parserReach <= 0.05 * k as real
  }

  lemma BoundedIff(s: seq<Validation>)
    ensures (forall i: nat, k: nat :: Bounded(s, i, k)) <==> InTolerance(s)
  {
    if InTolerance(s) {
      forall i: nat, k: nat ensures Bounded(s, i, k) {
        if i + k < |s| {
          ChainBound(s, TOLERANCES, i, k);
          Verdict.SeverityRanks(s[i + k].verdict, s[i].verdict);
        }
      }
    } else {
      var j :| 0 <= j < |s| - 1 && !WithinSteps(s[j], s[j + 1], TOLERANCES, 1);
      Verdict.SeverityRanks(s[j + 1].verdict, s[j].verdict);
      assert !Bounded(s, j, 1);
    }
  }

  /** If no regression candidate was ever created for a control, then over any k + 1 successive
      validations of one of its versions the verdict never got worse and no rate worsened by more
      than k times its tolerance, 0.10 for the improvement and 0.05 for each of the others, exactly
      when no worker check of an out-of-tolerance validation was lost after recording it. */
  lemma RegressionChainBound(states: seq<State>, acts: seq<Action>, control: string, version: string)
    requires Execution(states, acts) && states[0].validations == []
    requires Clocked(states[|acts|].validations) && NeverRaised(states[|acts|].candidates, control)
    ensures var s := OneVersion(states[|acts|].validations, control, version);
      (forall i: nat, k: nat :: Bounded(s, i, k)) <==> !LostCheck(states, acts, |acts|, control, version)
  {
    ToleranceIff(states, acts, |acts|, control, version);
    BoundedIff(OneVersion(states[|acts|].validations, control, version));
  }

  /** A check that comes to its end within tolerance, or is lost, leaves the candidates alone. */
  lemma QuietCheck(s: State, a: Action, t: State, before: seq<Validation>)
    requires a.Validate? && a.writes >= 1 && t == State(s.validations + [Recorded(a)], s.candidates) && Clocked(t.validations)
    requires before == OneVersion(s.validations, a.control, a.version)
    requires a.writes == 1 || before == [] || WithinSteps(before[|before| - 1], Recorded(a), TOLERANCES, 1)
    ensures Step(s, a, t) && OneVersion(t.validations, a.control, a.version) == before + [Recorded(a)]
  {
    OneVersionSnoc(s.validations, Recorded(a), a.control, a.version);
    InToleranceIsQuiet(t.validations, Recorded(a), a.control, a.version, before);
  }

  lemma InToleranceIsQuiet(rows: seq<Validation>, v: Validation, control: string, version: string, before: seq<Validation>)
    requires v.controlId == control && v.versionId == version && OneVersion(rows, control, version) == before + [v]
    ensures Regresses(rows, v) <==> before != [] && !WithinSteps(before[|before| - 1], v, TOLERANCES, 1)
  {
  }

  lemma ClockedSnoc(rows: seq<Validation>, v: Validation)
    requires Clocked(rows) && (rows != [] ==> rows[|rows| - 1].validatedAt < v.validatedAt)
    ensures Clocked(rows + [v])
  {
  }

  function Checked(s: State, a: Action): State
    requires a.Validate?
  {
    State(s.validations + [Recorded(a)], s.candidates)
  }

  /** Three checks of one version in a row: `b` is lost, and `c` measures the same as `b`. */
  ghost predicate ThreeChecks(a: Action, b: Action, c: Action) {
    && a.Validate? && b.Validate? && c.Validate?
    && a.control == b.control == c.control && a.version == b.version == c.version
    && a.at < b.at < c.at && a.writes == c.writes == 2 && b.writes == 1 && c.comparison == b.comparison
  }

  lemma SameIsInTolerance(b: Action, c: Action)
    requires b.Validate? && c.Validate? && c.comparison == b.comparison
    ensures WithinSteps(Recorded(b), Recorded(c), TOLERANCES, 1)
  {
    DominationIsNoRegression(b.control, b.version, b.comparison, b.comparison, b.experiment, c.experiment, b.at, c.at, TOLERANCES);
  }

  lemma TakeThree(a: Action, b: Action, c: Action, s: State, s1: State, s2: State, s3: State)
    requires ThreeChecks(a, b, c) && s == State([], []) && s1 == Checked(s, a) && s2 == Checked(s1, b) && s3 == Checked(s2, c)
    requires WithinSteps(Recorded(b), Recorded(c), TOLERANCES, 1)
    ensures Step(s, a, s1) && Step(s1, b, s2) && Step(s2, c, s3) && Clocked(s3.validations)
    ensures OneVersion(s3.validations, a.control, a.version) == [] + [Recorded(a)] + [Recorded(b)] + [Recorded(c)]
  {
    ClockedSnoc(s.validations, Recorded(a));
    QuietCheck(s, a, s1, []);
    ClockedSnoc(s1.validations, Recorded(b));
    QuietCheck(s1, b, s2, [] + [Recorded(a)]);
    ClockedSnoc(s2.validations, Recorded(c));
    QuietCheck(s2, c, s3, [] + [Recorded(a)] + [Recorded(b)]);
  }

  lemma Assemble(a: Action, b: Action, c: Action, s: State, s1: State, s2: State, s3: State)
    requires Step(s, a, s1) && Step(s1, b, s2) && Step(s2, c, s3)
    ensures Execution([s, s1, s2, s3], [a, b, c])
  {
    var states, acts := [s, s1, s2, s3], [a, b, c];
    forall i | 0 <= i < |acts| ensures Step(states[i], acts[i], states[i + 1]) {
      assert i == 0 || i == 1 || i == 2;
    }
  }

  lemma OutOfTolerance(s: seq<Validation>, u: Validation, v: Validation, w: Validation)
    requires s == [] + [u] + [v] + [w] && !WithinSteps(u, v, TOLERANCES, 1)
    ensures !InTolerance(s)
  {
    assert !WithinSteps(s[0], s[0 + 1], TOLERANCES, 1);
  }

  /** Any regression at all can go unnoticed for good: once its check is lost, it is what the next check
      compares with. */
  lemma UnnoticedRegression(a: Action, b: Action, c: Action) returns (states: seq<State>)
    requires ThreeChecks(a, b, c) && !WithinSteps(Recorded(a), Recorded(b), TOLERANCES, 1)
    ensures Execution(states, [a, b, c]) && states[0] == State([], []) && Clocked(states[3].validations)
    ensures NeverRaised(states[3].candidates, a.control) && !Chained(states[3].validations, a.control, a.version)
  {
    var s := State([], []);
    var s1 := Checked(s, a);
    var s2 := Checked(s1, b);
    var s3 := Checked(s2, c);
    SameIsInTolerance(b, c);
    TakeThree(a, b, c, s, s1, s2, s3);
    Assemble(a, b, c, s, s1, s2, s3);
    states := [s, s1, s2, s3];
    OutOfTolerance(OneVersion(s3.validations, a.control, a.version), Recorded(a), Recorded(b), Recorded(c));
  }
}
