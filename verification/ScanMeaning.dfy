/** What a revalidation scan creates, told from the rows, logs and advisories alone. */
module ScanMeaning {
  import opened Basics
  import opened Regression
  import opened Assurance
  import opened Revalidation
  import CveMerge

  /** Row `i` is the newest validation of the control; of several at one instant, the one recorded last. */
  ghost predicate NewestOf(rows: seq<Validation>, control: string, i: int) {
    && 0 <= i < |rows| && rows[i].controlId == control
    && forall j :: 0 <= j < |rows| && rows[j].controlId == control ==>
         rows[j].validatedAt < rows[i].validatedAt || (rows[j].validatedAt == rows[i].validatedAt && j <= i)
  }

  ghost predicate RelatedTo(w: World, last: Validation, cve: string) {
    w.relatedCves(last.experimentId).Some? && cve in w.relatedCves(last.experimentId).value
  }

  /** A line of the CVE's log since the validation adds it to the KEV list. */
  ghost predicate KevLine(w: World, last: Validation, cve: string, e: CveMerge.Entry) {
    && e in w.historyOf(cve) && e.observedAt > last.validatedAt
    && e.field == CveMerge.KevListed && e.newValue == CveMerge.Flag(true)
  }

  /** A line of the CVE's log since the validation moves its EPSS score by at least 0.2 either way. */
  ghost predicate EpssLine(w: World, last: Validation, cve: string, e: CveMerge.Entry) {
    && e in w.historyOf(cve) && e.observedAt > last.validatedAt && e.field == CveMerge.EpssScore
    && exists x: real, y: real :: e.oldValue == Some(CveMerge.Score(x)) && e.newValue == CveMerge.Score(y) && (y - x >= 0.2 || x - y >= 0.2)
  }

  /** An advisory for the CVE was updated, or if it never was, published, since the validation. */
  ghost predicate AdvisoryLine(w: World, last: Validation, cve: string, a: Advisory) {
    && a in w.advisoriesOf(cve)
    && (if a.updatedAt.Some? then a.updatedAt.value > last.validatedAt
        else a.publishedAt.Some? && a.publishedAt.value > last.validatedAt)
  }

  function Newcomer(w: World, last: Validation, cve: string): CveMerge.Vulnerability -> bool {
    var related := w.relatedCves(last.experimentId);
    (v: CveMerge.Vulnerability) => v.cveId != cve && !(related.Some? && v.cveId in related.value) && v.lastUpdatedAt > last.validatedAt
  }

  /** Some record of the CVE's domain, neither the CVE itself nor related already and touched since the
      validation, correlates strongly with it. */
  ghost predicate Correlates(w: World, last: Validation, cve: string) {
    && cve in w.stored
    && w.rank(w.stored[cve], Select(Newcomer(w, last, cve), w.sameDomain(w.stored[cve].domainGuess))) != []
  }

  /** Why a control whose newest validation is `last` should be validated again. */
  ghost predicate Grounds(w: World, rows: seq<Validation>, last: Validation, now: Time, window: int, k: Key) {
    match k.trigger
    case Scheduled => last.validatedAt + window < now
    case VersionChange =>
      exists v :: v in w.versionsOf(k.controlId)
                  && forall j :: 0 <= j < |rows| ==> !(rows[j].controlId == k.controlId && rows[j].versionId == v)
    case KevStateChange => exists cve, e :: RelatedTo(w, last, cve) && KevLine(w, last, cve, e)
    case EpssMaterialChange => exists cve, e :: RelatedTo(w, last, cve) && EpssLine(w, last, cve, e)
    case AdvisoryUpdate => exists cve, a :: RelatedTo(w, last, cve) && AdvisoryLine(w, last, cve, a)
    case NewRelatedCve => exists cve :: RelatedTo(w, last, cve) && Correlates(w, last, cve)
    case RegressionFound => false
    case Other(_) => false
  }

  /** The scan should ask for this: the control is listed, was validated, and there is a reason. */
  ghost predicate Wanted(w: World, rows: seq<Validation>, now: Time, window: int, k: Key) {
    k.controlId in w.controls && exists i :: NewestOf(rows, k.controlId, i) && Grounds(w, rows, rows[i], now, window, k)
  }

  // ---------------------------------------------------------- rows and queries

  lemma {:induction false} SelectMember<T>(p: T -> bool, rows: seq<T>, x: T)
    ensures x in Select(p, rows) <==> x in rows && p(x)
  {
    if rows == [] {
    } else {
      SelectMember(p, rows[..|rows| - 1], x);
      assert rows == rows[..|rows| - 1] + [rows[|rows| - 1]];
    }
  }

  lemma {:induction false} SelectSame<T>(p: T -> bool, q: T -> bool, rows: seq<T>)
    requires forall x :: p(x) == q(x)
    ensures Select(p, rows) == Select(q, rows)
  {
    if rows == [] {
    } else {
      SelectSame(p, q, rows[..|rows| - 1]);
    }
  }

  lemma {:induction false} InsertMember<T>(at: T -> Time, sorted: seq<T>, row: T, x: T)
    ensures x in InsertByTime(at, sorted, row) <==> x in sorted || x == row
  {
    if sorted == [] || at(sorted[|sorted| - 1]) <= at(row) {
    } else {
      InsertMember(at, sorted[..|sorted| - 1], row, x);
      assert sorted == sorted[..|sorted| - 1] + [sorted[|sorted| - 1]];
    }
  }

  lemma {:induction false} OrderMember<T>(at: T -> Time, rows: seq<T>, x: T)
    ensures x in OrderByTime(at, rows) <==> x in rows
  {
    if rows == [] {
    } else {
      OrderMember(at, rows[..|rows| - 1], x);
      InsertMember(at, OrderByTime(at, rows[..|rows| - 1]), rows[|rows| - 1], x);
      assert rows == rows[..|rows| - 1] + [rows[|rows| - 1]];
    }
  }

  lemma ListMember(rows: seq<Validation>, control: string, x: Validation)
    ensures x in ListValidations(rows, control) <==> x in rows && x.controlId == control
  {
    SelectMember(OfControl(control), rows, x);
    OrderMember(VALIDATED_AT, Select(OfControl(control), rows), x);
  }

  /** One more row is the newest unless an older row is later. */
  lemma LatestSnoc(rows: seq<Validation>, v: Validation, control: string)
    ensures Latest(rows + [v], control) ==
      if v.controlId != control then Latest(rows, control)
      else if Latest(rows, control).None? || Latest(rows, control).value.validatedAt <= v.validatedAt then Some(v)
      else Latest(rows, control)
  {
    var p := OfControl(control);
    assert (rows + [v])[..|rows|] == rows;
    var kept := Select(p, rows);
    if v.controlId == control {
      assert (kept + [v])[..|kept|] == kept;
    } else {
      assert kept + [] == kept;
    }
  }

  lemma {:induction false} TheNewest(rows: seq<Validation>, control: string) returns (i: int)
    requires Latest(rows, control).Some?
    ensures NewestOf(rows, control, i) && Latest(rows, control) == Some(rows[i])
  {
    var n := |rows| - 1;
    var init, v := rows[..n], rows[n];
    assert rows == init + [v];
    LatestSnoc(init, v, control);
    if Latest(init, control).None? {
      NoneYet(init, control);
      assert forall j :: 0 <= j < n ==> rows[j] == init[j];
      i := n;
    } else {
      var j := TheNewest(init, control);
      assert forall k :: 0 <= k < n ==> rows[k] == init[k];
      i := if v.controlId == control && rows[j].validatedAt <= v.validatedAt then n else j;
    }
  }

  lemma LatestIsNewest(rows: seq<Validation>, control: string, i: int)
    ensures NewestOf(rows, control, i) ==> Latest(rows, control) == Some(rows[i])
    ensures Latest(rows, control).Some? ==> exists j :: NewestOf(rows, control, j)
  {
    if Latest(rows, control).Some? {
      var j := TheNewest(rows, control);
    } else {
      NoneYet(rows, control);
    }
  }

  lemma {:induction false} NoneYet(rows: seq<Validation>, control: string)
    requires Latest(rows, control).None?
    ensures forall j :: 0 <= j < |rows| ==> rows[j].controlId != control
  {
    forall j | 0 <= j < |rows| ensures rows[j].controlId != control {
      ListMember(rows, control, rows[j]);
    }
  }

  // ------------------------------------------------------- the scan's conditions

  lemma EpssLineIff(w: World, last: Validation, cve: string, e: CveMerge.Entry)
    ensures e in w.historyOf(cve) && EpssMoved(last, e) <==> EpssLine(w, last, cve, e)
  {
    if EpssMoved(last, e) {
      assert e.oldValue == Some(CveMerge.Score(e.oldValue.value.score)) && e.newValue == CveMerge.Score(e.newValue.score);
    }
  }

  lemma RelatedIff(w: World, last: Validation, cve: string)
    ensures cve in Related(w, last) <==> RelatedTo(w, last, cve)
  {
  }

  lemma CorrelatesIff(w: World, last: Validation, cve: string)
    ensures NewRelated(w, last, cve) <==> Correlates(w, last, cve)
  {
    if cve in w.stored {
      SelectSame(NewlyObserved(w, last, cve), Newcomer(w, last, cve), w.sameDomain(w.stored[cve].domainGuess));
    }
  }

  lemma UnvalidatedIff(rows: seq<Validation>, control: string, version: string)
    ensures Unvalidated(rows, control, version) <==>
      forall j :: 0 <= j < |rows| ==> !(rows[j].controlId == control && rows[j].versionId == version)
  {
    var vs := ListValidations(rows, control);
    forall j | 0 <= j < |rows| && rows[j].controlId == control ensures rows[j] in vs { ListMember(rows, control, rows[j]); }
    forall i | 0 <= i < |vs| ensures vs[i] in rows && vs[i].controlId == control { ListMember(rows, control, vs[i]); }
  }

  lemma DueIsGrounds(w: World, rows: seq<Validation>, last: Validation, now: Time, window: int, k: Key)
    ensures Due(w, rows, last, now, window, k) <==> Grounds(w, rows, last, now, window, k)
  {
    forall cve ensures cve in Related(w, last) <==> RelatedTo(w, last, cve) { RelatedIff(w, last, cve); }
    match k.trigger
    case Scheduled =>
    case VersionChange => forall v { UnvalidatedIff(rows, k.controlId, v); }
    case KevStateChange => KevReason(w, last);
    case EpssMaterialChange => EpssReason(w, last);
    case AdvisoryUpdate => AdvisoryReason(w, last);
    case NewRelatedCve => forall cve { CorrelatesIff(w, last, cve); }
    case RegressionFound =>
    case Other(_) =>
  }

  lemma KevReason(w: World, last: Validation)
    ensures SomeKevAdded(w, last) <==> exists cve, e :: RelatedTo(w, last, cve) && KevLine(w, last, cve, e)
  {
    if SomeKevAdded(w, last) {
      var cve, e :| cve in Related(w, last) && e in w.historyOf(cve) && KevAdded(last, e);
      assert RelatedTo(w, last, cve) && KevLine(w, last, cve, e);
    }
    if cve, e :| RelatedTo(w, last, cve) && KevLine(w, last, cve, e) { assert cve in Related(w, last) && KevAdded(last, e); }
  }

  lemma EpssReason(w: World, last: Validation)
    ensures SomeEpssMoved(w, last) <==> exists cve, e :: RelatedTo(w, last, cve) && EpssLine(w, last, cve, e)
  {
    if SomeEpssMoved(w, last) {
      var cve, e :| cve in Related(w, last) && e in w.historyOf(cve) && EpssMoved(last, e);
      EpssLineIff(w, last, cve, e);
      assert RelatedTo(w, last, cve);
    }
    if cve, e :| RelatedTo(w, last, cve) && EpssLine(w, last, cve, e) {
      EpssLineIff(w, last, cve, e);
      assert cve in Related(w, last);
    }
  }

  lemma AdvisoryReason(w: World, last: Validation)
    ensures SomeAdvisoryChanged(w, last) <==> exists cve, a :: RelatedTo(w, last, cve) && AdvisoryLine(w, last, cve, a)
  {
    if SomeAdvisoryChanged(w, last) {
      var cve, a :| cve in Related(w, last) && a in w.advisoriesOf(cve) && AdvisoryChanged(last, a);
      assert RelatedTo(w, last, cve) && AdvisoryLine(w, last, cve, a);
    }
    if cve, a :| RelatedTo(w, last, cve) && AdvisoryLine(w, last, cve, a) { assert cve in Related(w, last) && AdvisoryChanged(last, a); }
  }

  /** What fires in the scan is what is wanted. */
  lemma FiresIff(w: World, rows: seq<Validation>, now: Time, window: int, k: Key)
    ensures Fires(w, rows, now, window, k) <==> Wanted(w, rows, now, window, k)
  {
    if Latest(rows, k.controlId).Some? {
      LatestIsNewest(rows, k.controlId, 0);
      var i :| NewestOf(rows, k.controlId, i);
      LatestIsNewest(rows, k.controlId, i);
      DueIsGrounds(w, rows, rows[i], now, window, k);
      forall j | NewestOf(rows, k.controlId, j) ensures rows[j] == rows[i] { LatestIsNewest(rows, k.controlId, j); }
    } else {
      NoneYet(rows, k.controlId);
      assert forall j :: !NewestOf(rows, k.controlId, j);
    }
  }

  // ------------------------------------------------------------------ a whole scan

  ghost predicate AwaitsDecision(cs: seq<Candidate>, k: Key) {
    exists i :: 0 <= i < |cs| && cs[i].key == k && cs[i].status == Pending
  }

  ghost predicate AwaitsTwice(cs: seq<Candidate>, k: Key, i: int, j: int) {
    0 <= i < j < |cs| && cs[i].key == cs[j].key == k && cs[i].status == cs[j].status == Pending
  }

  /** The experiment a new candidate proposes: none for a new version, else that of the newest validation. */
  ghost predicate Proposes(rows: seq<Validation>, c: Candidate) {
    if c.key.trigger == VersionChange then c.experimentId == None
    else exists i :: NewestOf(rows, c.key.controlId, i) && c.experimentId == Some(rows[i].experimentId)
  }

  lemma NewCandidate(w: World, rows: seq<Validation>, now: Time, window: int, c: Candidate)
    requires c.experimentId == ExperimentFor(rows, c.key) && Fires(w, rows, now, window, c.key)
    ensures Wanted(w, rows, now, window, c.key) && Proposes(rows, c)
  {
    FiresIff(w, rows, now, window, c.key);
    var i :| NewestOf(rows, c.key.controlId, i) && Grounds(w, rows, rows[i], now, window, c.key);
    LatestIsNewest(rows, c.key.controlId, i);
  }

  /** After a scan that returns normally a key awaits a decision exactly when it did before or is
      wanted; earlier candidates are untouched, and every new one is pending, wanted, was not awaiting a
      decision, is the only new one of its key, and proposes the right experiment. */
  lemma ScanCreatesWhatIsWanted(w: World, rows: seq<Validation>, now: Time, window: int, before: seq<Candidate>, after: seq<Candidate>)
    requires Swept(rows, before, after, Fired(w, rows, now, window), true)
    ensures before <= after
    ensures forall k :: AwaitsDecision(after, k) <==> AwaitsDecision(before, k) || Wanted(w, rows, now, window, k)
    ensures forall i :: |before| <= i < |after| ==>
      && after[i].status == Pending && Wanted(w, rows, now, window, after[i].key)
      && !AwaitsDecision(before, after[i].key) && Proposes(rows, after[i])
    ensures forall i, j :: |before| <= i < j < |after| ==> after[i].key != after[j].key
  {
    forall cs, k ensures AwaitsDecision(cs, k) <==> HasPending(cs, k) { PendingMeans(cs, k); }
    forall k ensures k in Fired(w, rows, now, window) <==> Wanted(w, rows, now, window, k) { FiresIff(w, rows, now, window, k); }
    forall i | |before| <= i < |after| ensures Wanted(w, rows, now, window, after[i].key) && Proposes(rows, after[i]) {
      NewCandidate(w, rows, now, window, after[i]);
    }
    forall k ensures AwaitsDecision(after, k) <==> AwaitsDecision(before, k) || Wanted(w, rows, now, window, k) {
      if HasPending(before, k) { PendingGrows(before, after, k); }
      if HasPending(after, k) && !HasPending(before, k) {
        var i :| 0 <= i < |after| && IsPending(after[i], k);
        assert i >= |before|;
      }
    }
  }

  lemma PendingMeans(cs: seq<Candidate>, k: Key)
    ensures AwaitsDecision(cs, k) <==> HasPending(cs, k)
  {
    if i :| 0 <= i < |cs| && cs[i].key == k && cs[i].status == Pending { assert IsPending(cs[i], k); }
  }

  /** A scan raises exactly when something wanted awaits a decision twice already. */
  lemma ScanRaisesIff(w: World, rows: seq<Validation>, now: Time, window: int, before: seq<Candidate>, after: seq<Candidate>, ok: bool)
    requires Swept(rows, before, after, Fired(w, rows, now, window), ok)
    ensures !ok <==> exists k, i, j :: Wanted(w, rows, now, window, k) && AwaitsTwice(before, k, i, j)
  {
    forall k ensures k in Fired(w, rows, now, window) <==> Wanted(w, rows, now, window, k) { FiresIff(w, rows, now, window, k); }
    if ok {
      forall k, i, j | Wanted(w, rows, now, window, k) && AwaitsTwice(before, k, i, j) ensures false {
        assert IsPending(before[i], k) && IsPending(before[j], k);
      }
    } else {
      var k :| k in Fired(w, rows, now, window) && Doubled(before, k);
      var i, j :| 0 <= i < j < |before| && IsPending(before[i], k) && IsPending(before[j], k);
      assert AwaitsTwice(before, k, i, j);
    }
  }
}
