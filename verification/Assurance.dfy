/** Validations and revalidation candidates (assurance/repository.py, worker/processor.py). */
module Assurance {
  import opened Basics
  import opened Metrics
  import opened Regression
  import Verdict

  datatype Trigger = Scheduled | VersionChange | KevStateChange | EpssMaterialChange | AdvisoryUpdate
                   | NewRelatedCve | RegressionFound | Other(name: string)

  datatype Key = Key(controlId: string, trigger: Trigger)

  datatype Status = Pending | Approved | Dismissed

  /** A row of the candidate table; its random id is its position in order of creation. */
  datatype Candidate = Candidate(key: Key, experimentId: Option<string>, status: Status)

  predicate IsPending(c: Candidate, k: Key) {
    c.key == k && c.status == Pending
  }

  ghost predicate HasPending(cs: seq<Candidate>, k: Key) {
    exists i :: 0 <= i < |cs| && IsPending(cs[i], k)
  }

  /** Two rows pending for one key: the duplicate lookup raises on these. */
  ghost predicate Doubled(cs: seq<Candidate>, k: Key) {
    exists i, j :: 0 <= i < j < |cs| && IsPending(cs[i], k) && IsPending(cs[j], k)
  }

  function Select<T>(p: T -> bool, rows: seq<T>): seq<T> {
    if rows == [] then []
    else Select(p, rows[..|rows| - 1]) + if p(rows[|rows| - 1]) then [rows[|rows| - 1]] else []
  }

  const VALIDATED_AT := (v: Validation) => v.validatedAt

  function OfControl(control: string): Validation -> bool {
    (v: Validation) => v.controlId == control
  }

  function OfVersion(version: string): Validation -> bool {
    (v: Validation) => v.versionId == version
  }

  /** `list_validations`: oldest first. */
  function ListValidations(rows: seq<Validation>, control: string): seq<Validation> {
    OrderByTime(VALIDATED_AT, Select(OfControl(control), rows))
  }

  function OneVersion(rows: seq<Validation>, control: string, version: string): seq<Validation> {
    Select(OfVersion(version), ListValidations(rows, control))
  }

  /** Creates a pending candidate unless the key has one; two pending rows make the lookup raise. */
  ghost function TryCreate(cs: seq<Candidate>, k: Key, experiment: Option<string>): seq<Candidate> {
    if HasPending(cs, k) then cs else cs + [Candidate(k, experiment, Pending)]
  }

  /** The newest validation of its version is out of tolerance with the one before. */
  ghost predicate Regresses(rows: seq<Validation>, v: Validation) {
    var same := OneVersion(rows, v.controlId, v.versionId);
    |same| >= 2 && !WithinSteps(same[|same| - 2], same[|same| - 1], TOLERANCES, 1)
  }

  /** The validation row of a completed run, with its verdict. */
  method Measure(control: string, version: string, experiment: string, c: Comparison, now: Time) returns (v: Validation)
    ensures v == ValidationOf(control, version, experiment, c, now)
  {
    var verdict, _ := Verdict.ComputeVerdict(c, None, Verdict.DEFAULTS);
    var m := c.mitigation;
    v := Validation(control, version, experiment, c.totalCases, c.improvement, m.falsePositive, m.falseNegative,
                    m.validAcceptance, m.parserReach, c.latencyOverhead, verdict, now);
  }

  class AssuranceRepository {
    var validations: seq<Validation>
    var candidates: seq<Candidate>

    constructor ()
      ensures validations == [] && candidates == []
    {
      validations, candidates := [], [];
    }

    method FindPending(k: Key) returns (r: Result<Option<nat>>)
      ensures r.Raised? <==> Doubled(candidates, k)
      ensures r == Ok(None) <==> !HasPending(candidates, k)
      ensures r.Ok? && r.value.Some? ==> r.value.value < |candidates| && IsPending(candidates[r.value.value], k)
    {
      var at: Option<nat> := None;
      for i := 0 to |candidates|
        invariant at == None <==> forall j :: 0 <= j < i ==> !IsPending(candidates[j], k)
        invariant at.Some? ==> at.value < i && IsPending(candidates[at.value], k)
        invariant forall j :: 0 <= j < i && IsPending(candidates[j], k) ==> at == Some(j)
      {
        if IsPending(candidates[i], k) {
          if at.Some? {
            assert Doubled(candidates, k);
            return Raised;
          }
          at := Some(i);
        }
      }
      r := Ok(at);
    }

    method CreateIfNew(k: Key, experiment: Option<string>) returns (r: Result<Option<Candidate>>)
      modifies this`candidates
      ensures r.Raised? <==> Doubled(old(candidates), k)
      ensures candidates == TryCreate(old(candidates), k, experiment)
      ensures r.Ok? ==> candidates == old(candidates) + if r.value.Some? then [r.value.value] else []
    {
      var found := FindPending(k);
      if found.Raised? {
        return Raised;
      }
      if found.value.Some? {
        return Ok(None);
      }
      var c := Candidate(k, experiment, Pending);
      candidates := candidates + [c];
      return Ok(Some(c));
    }

    /** Records the validation of a completed run and raises a candidate when it regressed: two separate
        writes, of which only the first `writes` are made when the worker dies or the database fails in
        between. Either way, as with an exception of the lookup, the worker moves on. */
    method RecordAndCheck(control: string, version: string, experiment: string, c: Comparison, now: Time, writes: nat)
      modifies this
      ensures var v := ValidationOf(control, version, experiment, c, now);
        && validations == old(validations) + (if writes >= 1 then [v] else [])
        && candidates == if writes >= 2 && Regresses(validations, v)
                         then TryCreate(old(candidates), Key(control, RegressionFound), Some(experiment))
                         else old(candidates)
    {
      var v := Measure(control, version, experiment, c, now);
      if writes == 0 {
        return;
      }
      validations := validations + [v];
      if writes == 1 {
        return;
      }
      CheckRegression(v);
    }

    /** Compares the two newest validations of the version, and raises a candidate if they regress. */
    method CheckRegression(v: Validation)
      modifies this`candidates
      ensures candidates == if Regresses(validations, v)
                            then TryCreate(old(candidates), Key(v.controlId, RegressionFound), Some(v.experimentId))
                            else old(candidates)
    {
      var same := OneVersion(validations, v.controlId, v.versionId);
      if |same| < 2 {
        return;
      }
      var reasons := DetectRegressions(same[|same| - 2], same[|same| - 1], TOLERANCES);
      if reasons != [] {
        var _ := CreateIfNew(Key(v.controlId, RegressionFound), Some(v.experimentId));
      }
    }

    /** Approve or dismiss; only a pending candidate can be decided. */
    method Decide(i: nat, to: Status) returns (ok: bool)
      requires to != Pending
      modifies this`candidates
      ensures ok <==> i < |old(candidates)| && old(candidates)[i].status == Pending
      ensures candidates == if ok then old(candidates)[i := old(candidates)[i].(status := to)] else old(candidates)
    {
      if i >= |candidates| || candidates[i].status != Pending {
        return false;
      }
      candidates := candidates[i := candidates[i].(status := to)];
      return true;
    }
  }
}
