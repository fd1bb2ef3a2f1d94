/** The revalidation scan (assurance/revalidation.py): nested loops with duplicate prevention, proved
    against the declarative set of (control, trigger) pairs whose condition holds. */
module Revalidation {
  import opened Basics
  import opened Regression
  import opened Assurance
  import CveMerge

  datatype Advisory = Advisory(id: string, publishedAt: Option<Time>, updatedAt: Option<Time>)

  /** Everything a scan reads besides validations and candidates. `relatedCves` looks an experiment
      up; `sameDomain` is the bounded listing of a domain; `rank` lists the strong correlations. */
  datatype World = World(
    controls: seq<string>, versionsOf: string -> seq<string>, relatedCves: string -> Option<seq<string>>,
    historyOf: string -> seq<CveMerge.Entry>, advisoriesOf: string -> seq<Advisory>,
    stored: map<string, CveMerge.Vulnerability>,
    sameDomain: Option<CveMerge.Domain> -> seq<CveMerge.Vulnerability>,
    rank: (CveMerge.Vulnerability, seq<CveMerge.Vulnerability>) -> seq<string>)

  const EPSS_MATERIAL_CHANGE := 0.2

  // ---------------------------------------------------------------- conditions

  function Latest(rows: seq<Validation>, control: string): Option<Validation> {
    var vs := ListValidations(rows, control);
    if vs == [] then None else Some(vs[|vs| - 1])
  }

  function Related(w: World, latest: Validation): seq<string> {
    var found := w.relatedCves(latest.experimentId);
    if found.Some? then found.value else []
  }

  predicate KevAdded(latest: Validation, e: CveMerge.Entry) {
    e.observedAt > latest.validatedAt && e.field == CveMerge.KevListed && e.newValue == CveMerge.Flag(true)
  }

  predicate EpssMoved(latest: Validation, e: CveMerge.Entry) {
    && e.observedAt > latest.validatedAt && e.field == CveMerge.EpssScore
    && e.oldValue.Some? && e.oldValue.value.Score? && e.newValue.Score?
    && (e.newValue.score - e.oldValue.value.score >= EPSS_MATERIAL_CHANGE
        || e.oldValue.value.score - e.newValue.score >= EPSS_MATERIAL_CHANGE)
  }

  function ChangedAt(a: Advisory): Option<Time> {
    if a.updatedAt.Some? then a.updatedAt else a.publishedAt
  }

  predicate AdvisoryChanged(latest: Validation, a: Advisory) {
    ChangedAt(a).Some? && ChangedAt(a).value > latest.validatedAt
  }

  predicate Unvalidated(rows: seq<Validation>, control: string, version: string) {
    var vs := ListValidations(rows, control);
    forall i :: 0 <= i < |vs| ==> vs[i].versionId != version
  }

  function NewlyObserved(w: World, latest: Validation, cve: string): CveMerge.Vulnerability -> bool {
    (v: CveMerge.Vulnerability) =>
      v.cveId != cve && v.cveId !in Related(w, latest) && v.lastUpdatedAt > latest.validatedAt
  }

  predicate NewRelated(w: World, latest: Validation, cve: string) {
    && cve in w.stored
    && w.rank(w.stored[cve], Select(NewlyObserved(w, latest, cve), w.sameDomain(w.stored[cve].domainGuess))) != []
  }

  ghost predicate SomeUnvalidated(w: World, rows: seq<Validation>, control: string) {
    exists v :: v in w.versionsOf(control) && Unvalidated(rows, control, v)
  }

  ghost predicate SomeKevAdded(w: World, latest: Validation) {
    exists cve, e :: cve in Related(w, latest) && e in w.historyOf(cve) && KevAdded(latest, e)
  }

  ghost predicate SomeEpssMoved(w: World, latest: Validation) {
    exists cve, e :: cve in Related(w, latest) && e in w.historyOf(cve) && EpssMoved(latest, e)
  }

  ghost predicate SomeAdvisoryChanged(w: World, latest: Validation) {
    exists cve, a :: cve in Related(w, latest) && a in w.advisoriesOf(cve) && AdvisoryChanged(latest, a)
  }

  ghost predicate SomeNewRelated(w: World, latest: Validation) {
    exists cve :: cve in Related(w, latest) && NewRelated(w, latest, cve)
  }

  /** What each trigger of the scan asks about a control last validated by `latest`. */
  ghost predicate Due(w: World, rows: seq<Validation>, latest: Validation, now: Time, window: int, k: Key) {
    match k.trigger
    case Scheduled => now - latest.validatedAt > window
    case VersionChange => SomeUnvalidated(w, rows, k.controlId)
    case KevStateChange => SomeKevAdded(w, latest)
    case EpssMaterialChange => SomeEpssMoved(w, latest)
    case AdvisoryUpdate => SomeAdvisoryChanged(w, latest)
    case NewRelatedCve => SomeNewRelated(w, latest)
    case RegressionFound => false
    case Other(_) => false
  }

  /** When the scan has reason to ask for a revalidation; a control never validated gives none. */
  ghost predicate Fires(w: World, rows: seq<Validation>, now: Time, window: int, k: Key) {
    && k.controlId in w.controls
    && Latest(rows, k.controlId).Some?
    && Due(w, rows, Latest(rows, k.controlId).value, now, window, k)
  }

  /** The experiment a candidate of the scan proposes to run again. */
  function ExperimentFor(rows: seq<Validation>, k: Key): Option<string> {
    if k.trigger == VersionChange || Latest(rows, k.controlId).None? then None
    else Some(Latest(rows, k.controlId).value.experimentId)
  }

  // ------------------------------------------------------ what a sweep may do

  /** `after` adds at most one pending candidate for each key of `keys` that had none. */
  ghost predicate Added(rows: seq<Validation>, before: seq<Candidate>, after: seq<Candidate>, keys: iset<Key>) {
    && before <= after
    && (forall i :: |before| <= i < |after| ==>
          && after[i].key in keys && !HasPending(before, after[i].key)
          && after[i].status == Pending && after[i].experimentId == ExperimentFor(rows, after[i].key))
    && (forall i, j :: |before| <= i < j < |after| ==> after[i].key != after[j].key)
  }

  /** A sweep over `keys`: complete unless some key was pending twice, which ends it early. */
  ghost predicate Swept(rows: seq<Validation>, before: seq<Candidate>, after: seq<Candidate>, keys: iset<Key>, ok: bool) {
    match ok
    case true => Added(rows, before, after, keys) && forall k :: k in keys ==> HasPending(after, k) && !Doubled(before, k)
    case false => Added(rows, before, after, keys) && exists k :: k in keys && Doubled(before, k)
  }

  lemma Concat(a: seq<Candidate>, b: seq<Candidate>, c: seq<Candidate>)
    ensures a + b + c == a + (b + c)
  {
  }

  lemma PendingGrows(before: seq<Candidate>, after: seq<Candidate>, k: Key)
    requires before <= after && HasPending(before, k)
    ensures HasPending(after, k)
  {
    var i :| 0 <= i < |before| && IsPending(before[i], k);
    assert IsPending(after[i], k);
  }

  /** A sweep never makes a key pending twice, nor cures one that is. */
  lemma DoubledSame(rows: seq<Validation>, before: seq<Candidate>, after: seq<Candidate>, keys: iset<Key>, k: Key)
    requires Added(rows, before, after, keys)
    ensures Doubled(after, k) <==> Doubled(before, k)
  {
    if Doubled(before, k) {
      var i, j :| 0 <= i < j < |before| && IsPending(before[i], k) && IsPending(before[j], k);
      assert IsPending(after[i], k) && IsPending(after[j], k);
    }
    if Doubled(after, k) {
      var i, j :| 0 <= i < j < |after| && IsPending(after[i], k) && IsPending(after[j], k);
      if i < |before| {
        assert IsPending(before[i], k);
      }
    }
  }

  lemma AddedCompose(rows: seq<Validation>, a: seq<Candidate>, b: seq<Candidate>, c: seq<Candidate>, f: iset<Key>, g: iset<Key>)
    requires Added(rows, a, b, f) && Added(rows, b, c, g)
    ensures Added(rows, a, c, f + g)
  {
    forall i | |a| <= i < |c| ensures c[i].key in f + g && !HasPending(a, c[i].key) {
      if i < |b| { assert c[i] == b[i]; } else if HasPending(a, c[i].key) { PendingGrows(a, b, c[i].key); }
    }
    forall i, j | |a| <= i < j < |c| ensures c[i].key != c[j].key {
      if i < |b| {
        assert c[i] == b[i] && IsPending(b[i], c[i].key);
        if j < |b| { assert c[j] == b[j]; }
      }
    }
  }

  lemma SweptCompose(rows: seq<Validation>, a: seq<Candidate>, b: seq<Candidate>, c: seq<Candidate>, f: iset<Key>,
                     g: iset<Key>, ok: bool)
    requires Swept(rows, a, b, f, true) && Swept(rows, b, c, g, ok)
    ensures Swept(rows, a, c, f + g, ok)
  {
    AddedCompose(rows, a, b, c, f, g);
    forall k ensures Doubled(b, k) <==> Doubled(a, k) { DoubledSame(rows, a, b, f, k); }
    if ok {
      forall k | k in f + g ensures HasPending(c, k) {
        if k in f { PendingGrows(b, c, k); }
      }
    }
  }

  /** A sweep that ended early is a sweep over any larger set that ended early. */
  lemma SweptWiden(rows: seq<Validation>, a: seq<Candidate>, b: seq<Candidate>, f: iset<Key>, g: iset<Key>)
    requires Swept(rows, a, b, f, false) && f <= g
    ensures Swept(rows, a, b, g, false)
  {
  }

  lemma SweptNothing(rows: seq<Validation>, a: seq<Candidate>)
    ensures Swept(rows, a, a, iset{}, true)
  {
  }

  lemma SweptOne(rows: seq<Validation>, a: seq<Candidate>, k: Key)
    ensures Swept(rows, a, TryCreate(a, k, ExperimentFor(rows, k)), iset{k}, !Doubled(a, k))
  {
    var b := TryCreate(a, k, ExperimentFor(rows, k));
    if !HasPending(a, k) { assert IsPending(b[|a|], k); }
  }

  // ---------------------------------------------------------- unions of keys

  ghost function Union<T(!new)>(f: T -> iset<Key>, s: seq<T>): iset<Key> {
    iset k: Key | InSome(f, s, k)
  }

  ghost predicate InSome<T(!new)>(f: T -> iset<Key>, s: seq<T>, k: Key) {
    exists i :: 0 <= i < |s| && k in f(s[i])
  }

  lemma UnionSnoc<T(!new)>(f: T -> iset<Key>, s: seq<T>, i: nat)
    requires i < |s|
    ensures Union(f, s[..i + 1]) == Union(f, s[..i]) + f(s[i])
    ensures Union(f, s[..i + 1]) <= Union(f, s)
  {
    forall k ensures InSome(f, s[..i + 1], k) <==> InSome(f, s[..i], k) || k in f(s[i]) {
      if InSome(f, s[..i], k) {
        var j :| 0 <= j < i && k in f(s[..i][j]);
        assert s[..i + 1][j] == s[j];
      }
      assert s[..i + 1][i] == s[i];
    }
    forall k | InSome(f, s[..i + 1], k) ensures InSome(f, s, k) {
      var j :| 0 <= j <= i && k in f(s[..i + 1][j]);
      assert s[..i + 1][j] == s[j];
    }
  }

  lemma UnionNone<T(!new)>(f: T -> iset<Key>, s: seq<T>)
    requires s == []
    ensures Union(f, s) == iset{}
  {
  }

  /** One more round of a loop over `s`, which stops at the first round that ends early. */
  lemma SweptNext<T(!new)>(rows: seq<Validation>, a: seq<Candidate>, b: seq<Candidate>, c: seq<Candidate>,
                           f: T -> iset<Key>, s: seq<T>, i: nat, ok: bool)
    requires i < |s| && Swept(rows, a, b, Union(f, s[..i]), true) && Swept(rows, b, c, f(s[i]), ok)
    ensures Swept(rows, a, c, if ok then Union(f, s[..i + 1]) else Union(f, s), ok)
  {
    UnionSnoc(f, s, i);
    SweptCompose(rows, a, b, c, Union(f, s[..i]), f(s[i]), ok);
    if !ok { SweptWiden(rows, a, c, Union(f, s[..i + 1]), Union(f, s)); }
  }

  ghost function VersionKeys(rows: seq<Validation>, control: string): string -> iset<Key> {
    version => if Unvalidated(rows, control, version) then iset{Key(control, VersionChange)} else iset{}
  }

  ghost function EntryKeys(latest: Validation, control: string): CveMerge.Entry -> iset<Key> {
    e => if KevAdded(latest, e) then iset{Key(control, KevStateChange)}
         else if EpssMoved(latest, e) then iset{Key(control, EpssMaterialChange)} else iset{}
  }

  ghost function HistoryKeys(w: World, latest: Validation, control: string): string -> iset<Key> {
    cve => Union(EntryKeys(latest, control), w.historyOf(cve))
  }

  ghost function AdvisoryKeys(latest: Validation, control: string): Advisory -> iset<Key> {
    a => if AdvisoryChanged(latest, a) then iset{Key(control, AdvisoryUpdate)} else iset{}
  }

  ghost function AdvisoriesKeys(w: World, latest: Validation, control: string): string -> iset<Key> {
    cve => Union(AdvisoryKeys(latest, control), w.advisoriesOf(cve))
  }

  ghost function CorrelationKeys(w: World, latest: Validation, control: string): string -> iset<Key> {
    cve => if NewRelated(w, latest, cve) then iset{Key(control, NewRelatedCve)} else iset{}
  }

  ghost function ControlKeys(w: World, rows: seq<Validation>, now: Time, window: int): string -> iset<Key> {
    control =>
      if Latest(rows, control).None? then iset{}
      else
        ValidatedKeys(w, rows, now, window, control, Latest(rows, control).value)
  }

  ghost function NewsKeys(w: World, latest: Validation, control: string): iset<Key> {
    Union(HistoryKeys(w, latest, control), Related(w, latest)) + Union(AdvisoriesKeys(w, latest, control), Related(w, latest))
  }

  ghost function RelatedKeys(w: World, latest: Validation, control: string): iset<Key> {
    NewsKeys(w, latest, control) + Union(CorrelationKeys(w, latest, control), Related(w, latest))
  }

  ghost function OwnKeys(w: World, rows: seq<Validation>, now: Time, window: int, control: string, latest: Validation): iset<Key> {
    (if now - latest.validatedAt > window then iset{Key(control, Scheduled)} else iset{})
    + Union(VersionKeys(rows, control), w.versionsOf(control))
  }

  ghost function ValidatedKeys(w: World, rows: seq<Validation>, now: Time, window: int, control: string, latest: Validation): iset<Key> {
    OwnKeys(w, rows, now, window, control, latest) + RelatedKeys(w, latest, control)
  }

  // ------------------------------------------------------------- the order of a scan

  /** The stage of the scan that looks after a trigger; KEV and EPSS changes are found in one pass. */
  function Stage(t: Trigger): nat {
    match t
    case Scheduled => 1
    case VersionChange => 2
    case KevStateChange => 3
    case EpssMaterialChange => 3
    case AdvisoryUpdate => 4
    case NewRelatedCve => 5
    case RegressionFound => 6
    case Other(_) => 6
  }

  /** Candidates of one control, stage by stage, from stage `lo` to stage `hi`. */
  ghost predicate InTurn(made: seq<Candidate>, control: string, lo: nat, hi: nat) {
    && (forall i :: 0 <= i < |made| ==> made[i].key.controlId == control && lo <= Stage(made[i].key.trigger) <= hi)
    && (forall i, j :: 0 <= i < j < |made| ==> Stage(made[i].key.trigger) <= Stage(made[j].key.trigger))
  }

  /** The keys belong to this stage of this control. */
  ghost predicate OfStage(keys: iset<Key>, control: string, k: nat) {
    forall x :: x in keys ==> x.controlId == control && Stage(x.trigger) == k
  }

  lemma OneStage(rows: seq<Validation>, before: seq<Candidate>, after: seq<Candidate>, keys: iset<Key>, ok: bool,
                 more: seq<Candidate>, control: string, k: nat)
    requires OfStage(keys, control, k) && Swept(rows, before, after, keys, ok) && after == before + more
    ensures InTurn(more, control, k, k)
  {
    forall i | 0 <= i < |more| ensures more[i].key in keys {
      assert after[|before| + i] == more[i];
    }
  }

  /** One stretch of stages after another. */
  lemma StagesJoin(rows: seq<Validation>, start: seq<Candidate>, mid: seq<Candidate>, after: seq<Candidate>, f: iset<Key>,
                   g: iset<Key>, ok: bool, made: seq<Candidate>, more: seq<Candidate>, control: string, lo: nat, k: nat, hi: nat)
    requires mid == start + made && after == mid + more && InTurn(made, control, lo, k) && InTurn(more, control, k + 1, hi)
    requires lo <= k <= hi && Swept(rows, start, mid, f, true) && Swept(rows, mid, after, g, ok)
    ensures Swept(rows, start, after, f + g, ok) && after == start + (made + more) && InTurn(made + more, control, lo, hi)
  {
    SweptCompose(rows, start, mid, after, f, g, ok);
    Concat(start, made, more);
  }

  lemma Stages(w: World, rows: seq<Validation>, control: string, latest: Validation)
    ensures OfStage(Union(VersionKeys(rows, control), w.versionsOf(control)), control, 2)
    ensures OfStage(Union(HistoryKeys(w, latest, control), Related(w, latest)), control, 3)
    ensures OfStage(Union(AdvisoriesKeys(w, latest, control), Related(w, latest)), control, 4)
    ensures OfStage(Union(CorrelationKeys(w, latest, control), Related(w, latest)), control, 5)
  {
    forall k { VersionsFire(w, rows, control, k); }
    forall k { HistoryFires(w, latest, control, k); }
    forall k { AdvisoriesFire(w, latest, control, k); }
    forall k { CorrelationsFire(w, latest, control, k); }
  }

  /** Candidates control by control, and for each control stage by stage. */
  ghost predicate InOrder(made: seq<Candidate>, controls: seq<string>)
    decreases |controls|
  {
    if controls == [] then made == []
    else
      var n := |controls| - 1;
      exists k :: 0 <= k <= |made| && InOrder(made[..k], controls[..n]) && InTurn(made[k..], controls[n], 1, 5)
  }

  lemma OrderNext(made: seq<Candidate>, more: seq<Candidate>, controls: seq<string>, control: string)
    requires InOrder(made, controls) && InTurn(more, control, 1, 5)
    ensures InOrder(made + more, controls + [control])
  {
    var all, cs := made + more, controls + [control];
    assert all[..|made|] == made && all[|made|..] == more && cs[..|controls|] == controls && cs[|controls|] == control;
  }

  /** The controls that a scan does not come to add nothing. */
  lemma {:induction false} OrderWider(made: seq<Candidate>, controls: seq<string>, n: nat)
    requires n <= |controls| && InOrder(made, controls[..n])
    ensures InOrder(made, controls)
  {
    var m := |controls| - 1;
    if n == |controls| {
      assert controls[..n] == controls;
    } else {
      assert controls[..m][..n] == controls[..n];
      OrderWider(made, controls[..m], n);
      OrderNext(made, [], controls[..m], controls[m]);
      assert made + [] == made && controls[..m] + [controls[m]] == controls;
    }
  }

  lemma OrderStep(made: seq<Candidate>, more: seq<Candidate>, controls: seq<string>, i: nat)
    requires i < |controls| && InOrder(made, controls[..i]) && InTurn(more, controls[i], 1, 5)
    ensures InOrder(made + more, controls[..i + 1]) && InOrder(made + more, controls)
  {
    OrderNext(made, more, controls[..i], controls[i]);
    assert controls[..i] + [controls[i]] == controls[..i + 1];
    OrderWider(made + more, controls, i + 1);
  }

  // ------------------------------------------------------------------ the scan

  /** One call of `create_candidate_if_new` from the scan. */
  method Offer(repo: AssuranceRepository, k: Key) returns (made: seq<Candidate>, ok: bool)
    modifies repo`candidates
    ensures Swept(repo.validations, old(repo.candidates), repo.candidates, iset{k}, ok)
    ensures repo.candidates == old(repo.candidates) + made
  {
    SweptOne(repo.validations, repo.candidates, k);
    var r := repo.CreateIfNew(k, ExperimentFor(repo.validations, k));
    made, ok := if r.Ok? && r.value.Some? then [r.value.value] else [], r.Ok?;
  }

  /** Offers a candidate when its condition holds. */
  method OfferIf(repo: AssuranceRepository, fires: bool, k: Key) returns (made: seq<Candidate>, ok: bool)
    modifies repo`candidates
    ensures Swept(repo.validations, old(repo.candidates), repo.candidates, if fires then iset{k} else iset{}, ok)
    ensures repo.candidates == old(repo.candidates) + made
  {
    if fires {
      made, ok := Offer(repo, k);
    } else {
      SweptNothing(repo.validations, repo.candidates);
      made, ok := [], true;
    }
  }

  /** version_change: every version of the control that was never validated. */
  method ScanVersions(repo: AssuranceRepository, w: World, control: string) returns (made: seq<Candidate>, ok: bool)
    modifies repo`candidates
    ensures Swept(repo.validations, old(repo.candidates), repo.candidates,
                  Union(VersionKeys(repo.validations, control), w.versionsOf(control)), ok)
    ensures repo.candidates == old(repo.candidates) + made
  {
    ghost var keys, rows, start := VersionKeys(repo.validations, control), repo.validations, repo.candidates;
    var items := w.versionsOf(control);
    made, ok := [], true;
    SweptNothing(rows, start);
    UnionNone(keys, items[..0]);
    for i := 0 to |items|
      invariant repo.candidates == start + made
      invariant Swept(rows, start, repo.candidates, Union(keys, items[..i]), true)
    {
      ghost var mid := repo.candidates;
      var more;
      more, ok := OfferIf(repo, Unvalidated(repo.validations, control, items[i]), Key(control, VersionChange));
      Concat(start, made, more);
      made := made + more;
      SweptNext(rows, start, mid, repo.candidates, keys, items, i, ok);
      if !ok {
        return;
      }
    }
    assert items[..|items|] == items;
    ok := true;
  }

  /** kev_state_change and epss_material_change, from the change log of one CVE. */
  method ScanHistoryOf(repo: AssuranceRepository, w: World, control: string, latest: Validation, cve: string)
    returns (made: seq<Candidate>, ok: bool)
    modifies repo`candidates
    ensures Swept(repo.validations, old(repo.candidates), repo.candidates,
                  Union(EntryKeys(latest, control), w.historyOf(cve)), ok)
    ensures repo.candidates == old(repo.candidates) + made
  {
    ghost var keys, rows, start := EntryKeys(latest, control), repo.validations, repo.candidates;
    var items := w.historyOf(cve);
    made, ok := [], true;
    SweptNothing(rows, start);
    UnionNone(keys, items[..0]);
    for i := 0 to |items|
      invariant repo.candidates == start + made
      invariant Swept(rows, start, repo.candidates, Union(keys, items[..i]), true)
    {
      ghost var mid := repo.candidates;
      var more;
      if KevAdded(latest, items[i]) {
        more, ok := Offer(repo, Key(control, KevStateChange));
      } else {
        more, ok := OfferIf(repo, EpssMoved(latest, items[i]), Key(control, EpssMaterialChange));
      }
      Concat(start, made, more);
      made := made + more;
      SweptNext(rows, start, mid, repo.candidates, keys, items, i, ok);
      if !ok {
        return;
      }
    }
    assert items[..|items|] == items;
    ok := true;
  }

  /** The change logs of every CVE the last experiment relates to. */
  method ScanHistory(repo: AssuranceRepository, w: World, control: string, latest: Validation)
    returns (made: seq<Candidate>, ok: bool)
    modifies repo`candidates
    ensures Swept(repo.validations, old(repo.candidates), repo.candidates,
                  Union(HistoryKeys(w, latest, control), Related(w, latest)), ok)
    ensures repo.candidates == old(repo.candidates) + made
  {
    ghost var keys, rows, start := HistoryKeys(w, latest, control), repo.validations, repo.candidates;
    var items := Related(w, latest);
    made, ok := [], true;
    SweptNothing(rows, start);
    UnionNone(keys, items[..0]);
    for i := 0 to |items|
      invariant repo.candidates == start + made
      invariant Swept(rows, start, repo.candidates, Union(keys, items[..i]), true)
    {
      ghost var mid := repo.candidates;
      var more;
      more, ok := ScanHistoryOf(repo, w, control, latest, items[i]);
      Concat(start, made, more);
      made := made + more;
      SweptNext(rows, start, mid, repo.candidates, keys, items, i, ok);
      if !ok {
        return;
      }
    }
    assert items[..|items|] == items;
    ok := true;
  }

  /** advisory_update: the vendor advisories of one CVE. */
  method ScanAdvisoriesOf(repo: AssuranceRepository, w: World, control: string, latest: Validation, cve: string)
    returns (made: seq<Candidate>, ok: bool)
    modifies repo`candidates
    ensures Swept(repo.validations, old(repo.candidates), repo.candidates,
                  Union(AdvisoryKeys(latest, control), w.advisoriesOf(cve)), ok)
    ensures repo.candidates == old(repo.candidates) + made
  {
    ghost var keys, rows, start := AdvisoryKeys(latest, control), repo.validations, repo.candidates;
    var items := w.advisoriesOf(cve);
    made, ok := [], true;
    SweptNothing(rows, start);
    UnionNone(keys, items[..0]);
    for i := 0 to |items|
      invariant repo.candidates == start + made
      invariant Swept(rows, start, repo.candidates, Union(keys, items[..i]), true)
    {
      ghost var mid := repo.candidates;
      var more;
      more, ok := OfferIf(repo, AdvisoryChanged(latest, items[i]), Key(control, AdvisoryUpdate));
      Concat(start, made, more);
      made := made + more;
      SweptNext(rows, start, mid, repo.candidates, keys, items, i, ok);
      if !ok {
        return;
      }
    }
    assert items[..|items|] == items;
    ok := true;
  }

  /** The vendor advisories of every related CVE. */
  method ScanAdvisories(repo: AssuranceRepository, w: World, control: string, latest: Validation)
    returns (made: seq<Candidate>, ok: bool)
    modifies repo`candidates
    ensures Swept(repo.validations, old(repo.candidates), repo.candidates,
                  Union(AdvisoriesKeys(w, latest, control), Related(w, latest)), ok)
    ensures repo.candidates == old(repo.candidates) + made
  {
    ghost var keys, rows, start := AdvisoriesKeys(w, latest, control), repo.validations, repo.candidates;
    var items := Related(w, latest);
    made, ok := [], true;
    SweptNothing(rows, start);
    UnionNone(keys, items[..0]);
    for i := 0 to |items|
      invariant repo.candidates == start + made
      invariant Swept(rows, start, repo.candidates, Union(keys, items[..i]), true)
    {
      ghost var mid := repo.candidates;
      var more;
      more, ok := ScanAdvisoriesOf(repo, w, control, latest, items[i]);
      Concat(start, made, more);
      made := made + more;
      SweptNext(rows, start, mid, repo.candidates, keys, items, i, ok);
      if !ok {
        return;
      }
    }
    assert items[..|items|] == items;
    ok := true;
  }

  /** new_related_cve: one offer for each strong correlation with one related CVE. */
  method ScanCorrelationsOf(repo: AssuranceRepository, w: World, control: string, latest: Validation, cve: string)
    returns (made: seq<Candidate>, ok: bool)
    modifies repo`candidates
    ensures Swept(repo.validations, old(repo.candidates), repo.candidates, CorrelationKeys(w, latest, control)(cve), ok)
    ensures repo.candidates == old(repo.candidates) + made
  {
    ghost var rows, start := repo.validations, repo.candidates;
    made, ok := [], true;
    SweptNothing(rows, start);
    if cve !in w.stored {
      return;
    }
    var subject := w.stored[cve];
    var ranked := w.rank(subject, Select(NewlyObserved(w, latest, cve), w.sameDomain(subject.domainGuess)));
    var k := Key(control, NewRelatedCve);
    for i := 0 to |ranked|
      invariant repo.candidates == start + made
      invariant Swept(rows, start, repo.candidates, if i == 0 then iset{} else iset{k}, true)
    {
      ghost var mid := repo.candidates;
      var more;
      more, ok := Offer(repo, k);
      Concat(start, made, more);
      made := made + more;
      SweptCompose(rows, start, mid, repo.candidates, if i == 0 then iset{} else iset{k}, iset{k}, ok);
      assert (if i == 0 then iset{} else iset{k}) + iset{k} == iset{k};
      if !ok {
        return;
      }
    }
    ok := true;
  }

  /** New correlations with every related CVE. */
  method ScanCorrelations(repo: AssuranceRepository, w: World, control: string, latest: Validation)
    returns (made: seq<Candidate>, ok: bool)
    modifies repo`candidates
    ensures Swept(repo.validations, old(repo.candidates), repo.candidates,
                  Union(CorrelationKeys(w, latest, control), Related(w, latest)), ok)
    ensures repo.candidates == old(repo.candidates) + made
  {
    ghost var keys, rows, start := CorrelationKeys(w, latest, control), repo.validations, repo.candidates;
    var items := Related(w, latest);
    made, ok := [], true;
    SweptNothing(rows, start);
    UnionNone(keys, items[..0]);
    for i := 0 to |items|
      invariant repo.candidates == start + made
      invariant Swept(rows, start, repo.candidates, Union(keys, items[..i]), true)
    {
      ghost var mid := repo.candidates;
      var more;
      more, ok := ScanCorrelationsOf(repo, w, control, latest, items[i]);
      Concat(start, made, more);
      made := made + more;
      SweptNext(rows, start, mid, repo.candidates, keys, items, i, ok);
      if !ok {
        return;
      }
    }
    assert items[..|items|] == items;
    ok := true;
  }

  /** What the change logs and the advisories say of the CVEs the last experiment relates to. */
  method ScanNews(repo: AssuranceRepository, w: World, control: string, latest: Validation)
    returns (made: seq<Candidate>, ok: bool)
    modifies repo`candidates
    ensures Swept(repo.validations, old(repo.candidates), repo.candidates, NewsKeys(w, latest, control), ok)
    ensures repo.candidates == old(repo.candidates) + made
    ensures InTurn(made, control, 3, 4)
  {
    ghost var rows, c0 := repo.validations, repo.candidates;
    Stages(w, rows, control, latest);
    ghost var f := Union(HistoryKeys(w, latest, control), Related(w, latest));
    made, ok := ScanHistory(repo, w, control, latest);
    OneStage(rows, c0, repo.candidates, f, ok, made, control, 3);
    if !ok {
      SweptWiden(rows, c0, repo.candidates, f, NewsKeys(w, latest, control));
      return;
    }
    ghost var c := repo.candidates;
    ghost var g := Union(AdvisoriesKeys(w, latest, control), Related(w, latest));
    var more;
    more, ok := ScanAdvisories(repo, w, control, latest);
    OneStage(rows, c, repo.candidates, g, ok, more, control, 4);
    StagesJoin(rows, c0, c, repo.candidates, f, g, ok, made, more, control, 3, 3, 4);
    made := made + more;
  }

  /** The triggers that look at these CVEs. */
  method ScanRelated(repo: AssuranceRepository, w: World, control: string, latest: Validation)
    returns (made: seq<Candidate>, ok: bool)
    modifies repo`candidates
    ensures Swept(repo.validations, old(repo.candidates), repo.candidates, RelatedKeys(w, latest, control), ok)
    ensures repo.candidates == old(repo.candidates) + made
    ensures InTurn(made, control, 3, 5)
  {
    ghost var rows, c0 := repo.validations, repo.candidates;
    ghost var f := NewsKeys(w, latest, control);
    made, ok := ScanNews(repo, w, control, latest);
    if !ok {
      SweptWiden(rows, c0, repo.candidates, f, RelatedKeys(w, latest, control));
      return;
    }
    ghost var c := repo.candidates;
    ghost var g := Union(CorrelationKeys(w, latest, control), Related(w, latest));
    Stages(w, rows, control, latest);
    var more;
    more, ok := ScanCorrelations(repo, w, control, latest);
    OneStage(rows, c, repo.candidates, g, ok, more, control, 5);
    StagesJoin(rows, c0, c, repo.candidates, f, g, ok, made, more, control, 3, 4, 5);
    made := made + more;
  }

  /** The triggers that look at the control itself: its age and its versions. */
  method ScanOwn(repo: AssuranceRepository, w: World, control: string, latest: Validation, now: Time, window: int)
    returns (made: seq<Candidate>, ok: bool)
    modifies repo`candidates
    ensures Swept(repo.validations, old(repo.candidates), repo.candidates,
                  OwnKeys(w, repo.validations, now, window, control, latest), ok)
    ensures repo.candidates == old(repo.candidates) + made
    ensures InTurn(made, control, 1, 2)
  {
    ghost var rows, c0 := repo.validations, repo.candidates;
    Stages(w, rows, control, latest);
    var stale := now - latest.validatedAt > window;
    ghost var f := if stale then iset{Key(control, Scheduled)} else iset{};
    made, ok := OfferIf(repo, stale, Key(control, Scheduled));
    OneStage(rows, c0, repo.candidates, f, ok, made, control, 1);
    if !ok {
      SweptWiden(rows, c0, repo.candidates, f, OwnKeys(w, rows, now, window, control, latest));
      return;
    }
    ghost var c := repo.candidates;
    ghost var g := Union(VersionKeys(rows, control), w.versionsOf(control));
    var more;
    more, ok := ScanVersions(repo, w, control);
    OneStage(rows, c, repo.candidates, g, ok, more, control, 2);
    StagesJoin(rows, c0, c, repo.candidates, f, g, ok, made, more, control, 1, 1, 2);
    made := made + more;
  }

  /** All triggers of a control that was validated. */
  method ScanValidated(repo: AssuranceRepository, w: World, control: string, latest: Validation, now: Time, window: int)
    returns (made: seq<Candidate>, ok: bool)
    modifies repo`candidates
    ensures Swept(repo.validations, old(repo.candidates), repo.candidates,
                  ValidatedKeys(w, repo.validations, now, window, control, latest), ok)
    ensures repo.candidates == old(repo.candidates) + made
    ensures InTurn(made, control, 1, 5)
  {
    ghost var rows, c0 := repo.validations, repo.candidates;
    ghost var f, g := OwnKeys(w, rows, now, window, control, latest), RelatedKeys(w, latest, control);
    made, ok := ScanOwn(repo, w, control, latest, now, window);
    if !ok {
      SweptWiden(rows, c0, repo.candidates, f, f + g);
      return;
    }
    ghost var c := repo.candidates;
    var more;
    more, ok := ScanRelated(repo, w, control, latest);
    StagesJoin(rows, c0, c, repo.candidates, f, g, ok, made, more, control, 1, 2, 5);
    made := made + more;
  }

  /** A control without validations is skipped. */
  method ScanControl(repo: AssuranceRepository, w: World, control: string, now: Time, window: int)
    returns (made: seq<Candidate>, ok: bool)
    modifies repo`candidates
    ensures Swept(repo.validations, old(repo.candidates), repo.candidates,
                  ControlKeys(w, repo.validations, now, window)(control), ok)
    ensures repo.candidates == old(repo.candidates) + made
    ensures InTurn(made, control, 1, 5)
  {
    var found := Latest(repo.validations, control);
    if found.None? {
      SweptNothing(repo.validations, repo.candidates);
      return [], true;
    }
    made, ok := ScanValidated(repo, w, control, found.value, now, window);
  }

  /** Every control in turn. */
  method ScanAll(repo: AssuranceRepository, w: World, now: Time, window: int) returns (made: seq<Candidate>, ok: bool)
    modifies repo`candidates
    ensures Swept(repo.validations, old(repo.candidates), repo.candidates,
                  Union(ControlKeys(w, repo.validations, now, window), w.controls), ok)
    ensures repo.candidates == old(repo.candidates) + made
    ensures InOrder(made, w.controls)
  {
    ghost var keys, rows, start := ControlKeys(w, repo.validations, now, window), repo.validations, repo.candidates;
    var items := w.controls;
    made, ok := [], true;
    SweptNothing(rows, start);
    UnionNone(keys, items[..0]);
    for i := 0 to |items|
      invariant repo.candidates == start + made
      invariant Swept(rows, start, repo.candidates, Union(keys, items[..i]), true)
      invariant InOrder(made, items[..i])
    {
      ghost var mid := repo.candidates;
      var more;
      more, ok := ScanControl(repo, w, items[i], now, window);
      Concat(start, made, more);
      OrderStep(made, more, items, i);
      made := made + more;
      SweptNext(rows, start, mid, repo.candidates, keys, items, i, ok);
      if !ok {
        return;
      }
    }
    assert items[..|items|] == items;
    ok := true;
  }

  ghost function Fired(w: World, rows: seq<Validation>, now: Time, window: int): iset<Key> {
    iset k: Key | Fires(w, rows, now, window, k)
  }

  lemma HistoryFires(w: World, latest: Validation, control: string, k: Key)
    ensures InSome(HistoryKeys(w, latest, control), Related(w, latest), k) <==>
      || (k == Key(control, KevStateChange) && SomeKevAdded(w, latest))
      || (k == Key(control, EpssMaterialChange) && SomeEpssMoved(w, latest))
  {
    var cves, f, g := Related(w, latest), HistoryKeys(w, latest, control), EntryKeys(latest, control);
    if InSome(f, cves, k) {
      var i :| 0 <= i < |cves| && k in f(cves[i]);
      assert InSome(g, w.historyOf(cves[i]), k);
    }
    forall cve, e | cve in cves && e in w.historyOf(cve) && k in g(e) ensures InSome(f, cves, k) {
      var i :| 0 <= i < |cves| && cves[i] == cve;
      var j :| 0 <= j < |w.historyOf(cve)| && w.historyOf(cve)[j] == e;
      assert InSome(g, w.historyOf(cve), k);
      assert k in f(cves[i]);
    }
  }

  lemma AdvisoriesFire(w: World, latest: Validation, control: string, k: Key)
    ensures InSome(AdvisoriesKeys(w, latest, control), Related(w, latest), k) <==>
      k == Key(control, AdvisoryUpdate) && SomeAdvisoryChanged(w, latest)
  {
    var cves, f, g := Related(w, latest), AdvisoriesKeys(w, latest, control), AdvisoryKeys(latest, control);
    if InSome(f, cves, k) {
      var i :| 0 <= i < |cves| && k in f(cves[i]);
      assert InSome(g, w.advisoriesOf(cves[i]), k);
    }
    forall cve, a | cve in cves && a in w.advisoriesOf(cve) && k in g(a) ensures InSome(f, cves, k) {
      var i :| 0 <= i < |cves| && cves[i] == cve;
      var j :| 0 <= j < |w.advisoriesOf(cve)| && w.advisoriesOf(cve)[j] == a;
      assert InSome(g, w.advisoriesOf(cve), k);
      assert k in f(cves[i]);
    }
  }

  lemma VersionsFire(w: World, rows: seq<Validation>, control: string, k: Key)
    ensures InSome(VersionKeys(rows, control), w.versionsOf(control), k) <==>
      k == Key(control, VersionChange) && SomeUnvalidated(w, rows, control)
  {
  }

  lemma CorrelationsFire(w: World, latest: Validation, control: string, k: Key)
    ensures InSome(CorrelationKeys(w, latest, control), Related(w, latest), k) <==>
      k == Key(control, NewRelatedCve) && SomeNewRelated(w, latest)
  {
  }

  lemma InUnion(k: Key, a: iset<Key>, b: iset<Key>, c: iset<Key>, d: iset<Key>, e: iset<Key>)
    ensures k in a + b + c + d + e <==> k in a || k in b || k in c || k in d || k in e
  {
  }

  /** Some loop of the scan offers a candidate for the key. */
  ghost predicate Visited(w: World, rows: seq<Validation>, now: Time, window: int, control: string, latest: Validation, k: Key) {
    || (k == Key(control, Scheduled) && now - latest.validatedAt > window)
    || InSome(VersionKeys(rows, control), w.versionsOf(control), k)
    || InSome(HistoryKeys(w, latest, control), Related(w, latest), k)
    || InSome(AdvisoriesKeys(w, latest, control), Related(w, latest), k)
    || InSome(CorrelationKeys(w, latest, control), Related(w, latest), k)
  }

  lemma VisitedIsDue(w: World, rows: seq<Validation>, now: Time, window: int, control: string, latest: Validation, k: Key)
    ensures Visited(w, rows, now, window, control, latest, k) <==>
      k.controlId == control && Due(w, rows, latest, now, window, k)
  {
    VersionsFire(w, rows, control, k);
    HistoryFires(w, latest, control, k);
    AdvisoriesFire(w, latest, control, k);
    CorrelationsFire(w, latest, control, k);
  }

  lemma ControlKeysMember(w: World, rows: seq<Validation>, now: Time, window: int, control: string,
                          latest: Validation, k: Key)
    requires Latest(rows, control) == Some(latest)
    ensures k in ControlKeys(w, rows, now, window)(control) <==> Visited(w, rows, now, window, control, latest, k)
  {
    InUnion(k, if now - latest.validatedAt > window then iset{Key(control, Scheduled)} else iset{},
            Union(VersionKeys(rows, control), w.versionsOf(control)),
            Union(HistoryKeys(w, latest, control), Related(w, latest)),
            Union(AdvisoriesKeys(w, latest, control), Related(w, latest)),
            Union(CorrelationKeys(w, latest, control), Related(w, latest)));
  }

  lemma ControlFires(w: World, rows: seq<Validation>, now: Time, window: int, control: string, k: Key)
    requires control in w.controls
    ensures k in ControlKeys(w, rows, now, window)(control) <==> k.controlId == control && Fires(w, rows, now, window, k)
  {
    if Latest(rows, control).Some? {
      var latest := Latest(rows, control).value;
      ControlKeysMember(w, rows, now, window, control, latest, k);
      VisitedIsDue(w, rows, now, window, control, latest, k);
    }
  }

  /** The keys the nested loops visit are the ones whose condition holds. */
  lemma FiredIsUnion(w: World, rows: seq<Validation>, now: Time, window: int)
    ensures Union(ControlKeys(w, rows, now, window), w.controls) == Fired(w, rows, now, window)
  {
    var f := ControlKeys(w, rows, now, window);
    forall k ensures InSome(f, w.controls, k) <==> Fires(w, rows, now, window, k) {
      if InSome(f, w.controls, k) {
        var i :| 0 <= i < |w.controls| && k in f(w.controls[i]);
        ControlFires(w, rows, now, window, w.controls[i], k);
      }
      if Fires(w, rows, now, window, k) {
        var i :| 0 <= i < |w.controls| && w.controls[i] == k.controlId;
        ControlFires(w, rows, now, window, w.controls[i], k);
      }
    }
  }

  /** `scan`. It raises exactly when a key that fires was already pending twice. Otherwise afterwards
      every key that fires is pending, and exactly those that were not got one new candidate. */
  method Scan(repo: AssuranceRepository, w: World, now: Time, window: int)
    returns (created: seq<Candidate>, scanned: nat, ok: bool)
    modifies repo`candidates
    ensures repo.candidates == old(repo.candidates) + created && scanned == |w.controls|
    ensures Swept(repo.validations, old(repo.candidates), repo.candidates, Fired(w, repo.validations, now, window), ok)
    ensures InOrder(created, w.controls)
  {
    created, ok := ScanAll(repo, w, now, window);
    scanned := |w.controls|;
    FiredIsUnion(w, repo.validations, now, window);
  }
}
