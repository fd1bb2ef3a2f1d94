/** What any sequence of merges adds up to, without reference to the merge (intelligence/dedup.py). */
module CveClosedForm {
  import opened Basics
  import opened CveMerge
  import CveHistory

  datatype Sighting = Sighting(at: Time, c: Contribution)

  /** The record after merging the sightings of one CVE in order. */
  function Fold(ss: seq<Sighting>): Vulnerability
    requires ss != []
  {
    var last := ss[|ss| - 1];
    if |ss| == 1 then Absorb(Blank(last.c.cveId, last.at), last.c, last.at)
    else Absorb(Fold(ss[..|ss| - 1]), last.c, last.at)
  }

  // ------------------------------------------------- shapes of a closed form

  function Each<T>(f: Contribution -> Option<T>, ss: seq<Sighting>): seq<Option<T>> {
    seq(|ss|, i requires 0 <= i < |ss| => f(ss[i].c))
  }

  /** `r` is the first present value, or absent when there is none. */
  ghost predicate IsFirst<T>(vs: seq<Option<T>>, r: Option<T>) {
    if r.None? then forall i :: 0 <= i < |vs| ==> vs[i].None?
    else exists i :: 0 <= i < |vs| && vs[i] == r && forall j :: 0 <= j < i ==> vs[j].None?
  }

  /** `r` is the last present value, or absent when there is none. */
  ghost predicate IsLast<T>(vs: seq<Option<T>>, r: Option<T>) {
    if r.None? then forall i :: 0 <= i < |vs| ==> vs[i].None?
    else exists i :: 0 <= i < |vs| && vs[i] == r && forall j :: i < j < |vs| ==> vs[j].None?
  }

  /** `r` is the first non-empty text; failing that, an empty text if one was given. */
  ghost predicate IsHeldText(vs: seq<Option<string>>, r: Option<string>) {
    if r.Some? && r.value != "" then
      exists i :: 0 <= i < |vs| && vs[i] == r && forall j :: 0 <= j < i ==> vs[j].None? || vs[j].value == ""
    else (forall i :: 0 <= i < |vs| ==> vs[i].None? || vs[i].value == "") && (r.Some? <==> Some("") in vs)
  }

  ghost predicate IsMinimum(vs: seq<Option<Time>>, r: Option<Time>) {
    if r.None? then forall i :: 0 <= i < |vs| ==> vs[i].None?
    else r in vs && forall i :: 0 <= i < |vs| && vs[i].Some? ==> r.value <= vs[i].value
  }

  ghost predicate IsMaximum(vs: seq<Option<Time>>, r: Option<Time>) {
    if r.None? then forall i :: 0 <= i < |vs| ==> vs[i].None?
    else r in vs && forall i :: 0 <= i < |vs| && vs[i].Some? ==> vs[i].value <= r.value
  }

  lemma EachSnoc<T>(f: Contribution -> Option<T>, ss: seq<Sighting>, s: Sighting)
    ensures Each(f, ss + [s]) == Each(f, ss) + [f(s.c)]
  {
  }

  lemma FirstSnoc<T>(vs: seq<Option<T>>, r: Option<T>, v: Option<T>)
    requires IsFirst(vs, r)
    ensures IsFirst(vs + [v], if r.Some? then r else v)
  {
    var ws := vs + [v];
    if r.Some? {
      var i :| 0 <= i < |vs| && vs[i] == r && forall j :: 0 <= j < i ==> vs[j].None?;
      assert ws[i] == r && forall j :: 0 <= j < i ==> ws[j].None?;
    } else if v.Some? {
      assert ws[|vs|] == v;
    }
  }

  lemma LastSnoc<T>(vs: seq<Option<T>>, r: Option<T>, v: Option<T>)
    requires IsLast(vs, r)
    ensures IsLast(vs + [v], if v.Some? then v else r)
  {
    var ws := vs + [v];
    if v.Some? {
      assert ws[|vs|] == v;
    } else if r.Some? {
      var i :| 0 <= i < |vs| && vs[i] == r && forall j :: i < j < |vs| ==> vs[j].None?;
      assert ws[i] == r && forall j :: i < j < |ws| ==> ws[j].None?;
    }
  }

  lemma HeldSnoc(vs: seq<Option<string>>, r: Option<string>, v: Option<string>)
    requires IsHeldText(vs, r)
    ensures IsHeldText(vs + [v], HeldText(r, v))
  {
    var ws := vs + [v];
    assert forall i :: 0 <= i < |vs| ==> ws[i] == vs[i];
    assert ws[|vs|] == v;
    if r.Some? && r.value != "" {
      var i :| 0 <= i < |vs| && vs[i] == r && forall j :: 0 <= j < i ==> vs[j].None? || vs[j].value == "";
      assert ws[i] == r;
    }
  }

  lemma MinimumSnoc(vs: seq<Option<Time>>, r: Option<Time>, v: Option<Time>)
    requires IsMinimum(vs, r)
    ensures IsMinimum(vs + [v], Earlier(r, v))
  {
    assert (vs + [v])[|vs|] == v;
    assert r in vs ==> r in vs + [v];
  }

  lemma MaximumSnoc(vs: seq<Option<Time>>, r: Option<Time>, v: Option<Time>)
    requires IsMaximum(vs, r)
    ensures IsMaximum(vs + [v], Later(r, v))
  {
    assert (vs + [v])[|vs|] == v;
    assert r in vs ==> r in vs + [v];
  }

  // ------------------------------------------------------- the closed form

  datatype Cvss = Cvss(score: real, vector: Option<string>, version: Option<string>)
  datatype EpssTriple = EpssTriple(score: real, percentile: Option<real>, date: Option<Time>)

  const DESCRIPTION := (c: Contribution) => c.description
  const VENDOR := (c: Contribution) => c.vendor
  const PUBLISHED := (c: Contribution) => c.publishedAt
  const MODIFIED := (c: Contribution) => c.lastModifiedAt
  const RELEVANCE := (c: Contribution) => c.relevance
  const CVSS := (c: Contribution) =>
    if c.cvssScore.Some? then Some(Cvss(c.cvssScore.value, c.cvssVector, c.cvssVersion)) else None
  const EPSS := (c: Contribution) =>
    if c.epssScore.Some? then Some(EpssTriple(c.epssScore.value, c.epssPercentile, c.epssDate)) else None
  const KEV_ADDED := (c: Contribution) => if c.kevListed == Some(true) then c.kevDateAdded else None
  const KEV_DUE := (c: Contribution) => if c.kevListed == Some(true) then c.kevDueDate else None
  const KEV_RANSOMWARE := (c: Contribution) =>
    if c.kevListed == Some(true) && c.kevRansomware.Some? && c.kevRansomware.value != "" then c.kevRansomware else None

  function CvssOf(v: Vulnerability): Option<Cvss> {
    if v.cvssScore.Some? then Some(Cvss(v.cvssScore.value, v.cvssVector, v.cvssVersion)) else None
  }

  function EpssOf(v: Vulnerability): Option<EpssTriple> {
    if v.epssScore.Some? then Some(EpssTriple(v.epssScore.value, v.epssPercentile, v.epssDate)) else None
  }

  /** Fields one source wins: texts and the CVSS triple are kept from the first that gives them. */
  ghost predicate HeldFields(ss: seq<Sighting>, v: Vulnerability) {
    && IsHeldText(Each(DESCRIPTION, ss), v.description)
    && IsHeldText(Each(VENDOR, ss), v.vendor)
    && IsFirst(Each(CVSS, ss), CvssOf(v))
    && (v.cvssScore.None? ==> v.cvssVector.None? && v.cvssVersion.None?)
  }

  /** Fields that follow the latest contribution giving them. */
  ghost predicate LatestFields(ss: seq<Sighting>, v: Vulnerability) {
    && IsLast(Each(EPSS, ss), EpssOf(v))
    && IsLast(Each(RELEVANCE, ss), v.relevance)
    && (v.epssScore.None? ==> v.epssPercentile.None? && v.epssDate.None?)
  }

  ghost predicate KevFields(ss: seq<Sighting>, v: Vulnerability) {
    && (v.kevListed <==> exists i :: 0 <= i < |ss| && ss[i].c.kevListed == Some(true))
    && IsLast(Each(KEV_ADDED, ss), v.kevDateAdded)
    && IsLast(Each(KEV_DUE, ss), v.kevDueDate)
    && IsLast(Each(KEV_RANSOMWARE, ss), v.kevRansomware)
  }

  ghost predicate DateFields(ss: seq<Sighting>, v: Vulnerability) {
    && IsMinimum(Each(PUBLISHED, ss), v.publishedAt)
    && IsMaximum(Each(MODIFIED, ss), v.lastModifiedAt)
  }

  ghost predicate SetFields(ss: seq<Sighting>, v: Vulnerability) {
    && (forall x :: x in v.cweIds <==> exists i :: 0 <= i < |ss| && x in ss[i].c.cweIds)
    && (forall x :: x in v.sources <==> exists i :: 0 <= i < |ss| && x == ss[i].c.source)
  }

  lemma HeldStep(ss: seq<Sighting>, v: Vulnerability, s: Sighting)
    requires HeldFields(ss, v)
    ensures HeldFields(ss + [s], Absorb(v, s.c, s.at))
  {
    EachSnoc(DESCRIPTION, ss, s);
    EachSnoc(VENDOR, ss, s);
    EachSnoc(CVSS, ss, s);
    HeldSnoc(Each(DESCRIPTION, ss), v.description, s.c.description);
    HeldSnoc(Each(VENDOR, ss), v.vendor, s.c.vendor);
    FirstSnoc(Each(CVSS, ss), CvssOf(v), CVSS(s.c));
  }

  lemma LatestStep(ss: seq<Sighting>, v: Vulnerability, s: Sighting)
    requires LatestFields(ss, v)
    ensures LatestFields(ss + [s], Absorb(v, s.c, s.at))
  {
    EachSnoc(EPSS, ss, s);
    EachSnoc(RELEVANCE, ss, s);
    LastSnoc(Each(EPSS, ss), EpssOf(v), EPSS(s.c));
    LastSnoc(Each(RELEVANCE, ss), v.relevance, s.c.relevance);
  }

  lemma KevStep(ss: seq<Sighting>, v: Vulnerability, s: Sighting)
    requires KevFields(ss, v)
    ensures KevFields(ss + [s], Absorb(v, s.c, s.at))
  {
    var w := Absorb(v, s.c, s.at);
    EachSnoc(KEV_ADDED, ss, s);
    EachSnoc(KEV_DUE, ss, s);
    EachSnoc(KEV_RANSOMWARE, ss, s);
    LastSnoc(Each(KEV_ADDED, ss), v.kevDateAdded, KEV_ADDED(s.c));
    LastSnoc(Each(KEV_DUE, ss), v.kevDueDate, KEV_DUE(s.c));
    LastSnoc(Each(KEV_RANSOMWARE, ss), v.kevRansomware, KEV_RANSOMWARE(s.c));
    assert (ss + [s])[|ss|] == s;
    if v.kevListed {
      var i :| 0 <= i < |ss| && ss[i].c.kevListed == Some(true);
      assert (ss + [s])[i] == ss[i];
    }
  }

  lemma DateStep(ss: seq<Sighting>, v: Vulnerability, s: Sighting)
    requires DateFields(ss, v)
    ensures DateFields(ss + [s], Absorb(v, s.c, s.at))
  {
    EachSnoc(PUBLISHED, ss, s);
    EachSnoc(MODIFIED, ss, s);
    MinimumSnoc(Each(PUBLISHED, ss), v.publishedAt, s.c.publishedAt);
    MaximumSnoc(Each(MODIFIED, ss), v.lastModifiedAt, s.c.lastModifiedAt);
  }

  lemma SetStep(ss: seq<Sighting>, v: Vulnerability, s: Sighting)
    requires SetFields(ss, v)
    ensures SetFields(ss + [s], Absorb(v, s.c, s.at))
  {
    var ws, w := ss + [s], Absorb(v, s.c, s.at);
    assert ws[|ss|] == s && forall i :: 0 <= i < |ss| ==> ws[i] == ss[i];
    forall x ensures x in w.cweIds <==> exists i :: 0 <= i < |ws| && x in ws[i].c.cweIds {
      if x in v.cweIds {
        var i :| 0 <= i < |ss| && x in ss[i].c.cweIds;
        assert x in ws[i].c.cweIds;
      }
    }
    forall x ensures x in w.sources <==> exists i :: 0 <= i < |ws| && x == ws[i].c.source {
      if x in v.sources {
        var i :| 0 <= i < |ss| && x == ss[i].c.source;
        assert x == ws[i].c.source;
      }
    }
  }

  lemma BlankIsClosed(cveId: string, now: Time)
    ensures var v := Blank(cveId, now);
      HeldFields([], v) && LatestFields([], v) && KevFields([], v) && DateFields([], v) && SetFields([], v)
  {
  }

  /** The record is determined field by field by the contributions it was merged from. */
  lemma {:induction false} MergeClosedForm(ss: seq<Sighting>)
    requires ss != []
    ensures HeldFields(ss, Fold(ss))
    ensures LatestFields(ss, Fold(ss))
    ensures KevFields(ss, Fold(ss))
    ensures DateFields(ss, Fold(ss))
    ensures SetFields(ss, Fold(ss))
    ensures Fold(ss).firstSeenAt == ss[0].at && Fold(ss).lastUpdatedAt == ss[|ss| - 1].at
    ensures Fold(ss).cveId == ss[0].c.cveId
  {
    var init, s := ss[..|ss| - 1], ss[|ss| - 1];
    var v := if init == [] then Blank(s.c.cveId, s.at) else Fold(init);
    if init == [] {
      BlankIsClosed(s.c.cveId, s.at);
    } else {
      MergeClosedForm(init);
    }
    assert ss == init + [s];
    HeldStep(init, v, s);
    LatestStep(init, v, s);
    KevStep(init, v, s);
    DateStep(init, v, s);
    SetStep(init, v, s);
  }

  // --------------------------------------------------- order does not matter

  function Contributions(ss: seq<Sighting>): seq<Contribution> {
    seq(|ss|, i requires 0 <= i < |ss| => ss[i].c)
  }

  ghost predicate OccursIn(c: Contribution, ts: seq<Sighting>) {
    exists j :: 0 <= j < |ts| && ts[j].c == c
  }

  /** Every contribution of one sequence occurs in the other. */
  ghost predicate Covers(ss: seq<Sighting>, ts: seq<Sighting>) {
    forall i :: 0 <= i < |ss| ==> OccursIn(ss[i].c, ts)
  }

  lemma PermutationCovers(ss: seq<Sighting>, ts: seq<Sighting>)
    requires multiset(Contributions(ss)) == multiset(Contributions(ts))
    ensures Covers(ss, ts)
  {
    forall i | 0 <= i < |ss| ensures OccursIn(ss[i].c, ts) {
      assert Contributions(ss)[i] in multiset(Contributions(ts));
      var j :| 0 <= j < |ts| && Contributions(ts)[j] == Contributions(ss)[i];
      assert ts[j].c == ss[i].c;
    }
  }

  lemma SetsCovered(ss: seq<Sighting>, ts: seq<Sighting>, v: Vulnerability, w: Vulnerability)
    requires Covers(ss, ts) && SetFields(ss, v) && SetFields(ts, w) && KevFields(ss, v) && KevFields(ts, w)
    ensures v.cweIds <= w.cweIds && v.sources <= w.sources && (v.kevListed ==> w.kevListed)
  {
    forall x | x in v.cweIds ensures x in w.cweIds {
      var i :| 0 <= i < |ss| && x in ss[i].c.cweIds;
      assert OccursIn(ss[i].c, ts);
    }
    forall x | x in v.sources ensures x in w.sources {
      var i :| 0 <= i < |ss| && x == ss[i].c.source;
      assert OccursIn(ss[i].c, ts);
    }
    if v.kevListed {
      var i :| 0 <= i < |ss| && ss[i].c.kevListed == Some(true);
      assert OccursIn(ss[i].c, ts);
    }
  }

  ghost predicate Within<T>(vs: seq<Option<T>>, ws: seq<Option<T>>) {
    forall i :: 0 <= i < |vs| ==> vs[i] in ws
  }

  lemma EachCovered<T>(f: Contribution -> Option<T>, ss: seq<Sighting>, ts: seq<Sighting>)
    requires Covers(ss, ts)
    ensures Within(Each(f, ss), Each(f, ts))
  {
    forall i | 0 <= i < |ss| ensures Each(f, ss)[i] in Each(f, ts) {
      assert OccursIn(ss[i].c, ts);
      var j :| 0 <= j < |ts| && ts[j].c == ss[i].c;
      assert Each(f, ts)[j] == Each(f, ss)[i];
    }
  }

  lemma MinimumUnique(vs: seq<Option<Time>>, ws: seq<Option<Time>>, r: Option<Time>, q: Option<Time>)
    requires Within(vs, ws) && Within(ws, vs) && IsMinimum(vs, r) && IsMinimum(ws, q)
    ensures r == q
  {
  }

  lemma MaximumUnique(vs: seq<Option<Time>>, ws: seq<Option<Time>>, r: Option<Time>, q: Option<Time>)
    requires Within(vs, ws) && Within(ws, vs) && IsMaximum(vs, r) && IsMaximum(ws, q)
    ensures r == q
  {
  }

  lemma DatesCovered(ss: seq<Sighting>, ts: seq<Sighting>, v: Vulnerability, w: Vulnerability)
    requires Covers(ss, ts) && Covers(ts, ss) && DateFields(ss, v) && DateFields(ts, w)
    ensures v.publishedAt == w.publishedAt && v.lastModifiedAt == w.lastModifiedAt
  {
    EachCovered(PUBLISHED, ss, ts);
    EachCovered(PUBLISHED, ts, ss);
    EachCovered(MODIFIED, ss, ts);
    EachCovered(MODIFIED, ts, ss);
    MinimumUnique(Each(PUBLISHED, ss), Each(PUBLISHED, ts), v.publishedAt, w.publishedAt);
    MaximumUnique(Each(MODIFIED, ss), Each(MODIFIED, ts), v.lastModifiedAt, w.lastModifiedAt);
  }

  lemma SymmetricFields(ss: seq<Sighting>, v: Vulnerability)
    requires ss != [] && v == Fold(ss)
    ensures SetFields(ss, v) && KevFields(ss, v) && DateFields(ss, v)
  {
    MergeClosedForm(ss);
  }

  /** CWE ids, sources, KEV listing and both dates are the same for every order of arrival. */
  lemma OrderIrrelevant(ss: seq<Sighting>, ts: seq<Sighting>, v: Vulnerability, w: Vulnerability)
    requires ss != [] && ts != [] && v == Fold(ss) && w == Fold(ts)
    requires multiset(Contributions(ss)) == multiset(Contributions(ts))
    ensures v.cweIds == w.cweIds && v.sources == w.sources && v.kevListed == w.kevListed
    ensures v.publishedAt == w.publishedAt && v.lastModifiedAt == w.lastModifiedAt
  {
    SymmetricFields(ss, v);
    SymmetricFields(ts, w);
    PermutationCovers(ss, ts);
    PermutationCovers(ts, ss);
    SetsCovered(ss, ts, v, w);
    SetsCovered(ts, ss, w, v);
    DatesCovered(ss, ts, v, w);
  }

  // ------------------------------------------- the fold is what is stored

  /** The accepted contributions to one CVE in a run of the repository. */
  function Sightings(events: seq<CveHistory.Event>, cveId: string): seq<Sighting> {
    if events == [] then []
    else
      var e := events[|events| - 1];
      Sightings(events[..|events| - 1], cveId) +
      (if e.Merged? && ValidContribution(e.c) && e.c.cveId == cveId then [Sighting(e.at, e.c)] else [])
  }

  /** A stored record is the fold of its contributions, domain guess aside; unseen CVEs have none. */
  ghost predicate Stored(records: map<string, Vulnerability>, cveId: string, ss: seq<Sighting>) {
    if ss == [] then cveId !in records
    else cveId in records && records[cveId] == Fold(ss).(domainGuess := records[cveId].domainGuess)
  }

  lemma StoredStep(r: CveHistory.Repo, e: CveHistory.Event, cveId: string, ss: seq<Sighting>)
    requires Stored(r.records, cveId, ss)
    ensures var counts := e.Merged? && ValidContribution(e.c) && e.c.cveId == cveId;
      Stored(CveHistory.Apply(r, e).records, cveId, ss + if counts then [Sighting(e.at, e.c)] else [])
  {
    if e.Merged? && ValidContribution(e.c) && e.c.cveId == cveId {
      var ts := ss + [Sighting(e.at, e.c)];
      assert ts[..|ts| - 1] == ss;
      if ss != [] {
        AbsorbKeepsGuess(Fold(ss), r.records[cveId].domainGuess, e.c, e.at);
      }
    } else {
      assert ss + [] == ss;
    }
  }

  lemma AbsorbKeepsGuess(v: Vulnerability, guess: Option<Domain>, c: Contribution, now: Time)
    ensures Absorb(v.(domainGuess := guess), c, now) == Absorb(v, c, now).(domainGuess := guess)
  {
  }

  lemma {:induction false} StoredIsFold(events: seq<CveHistory.Event>, cveId: string)
    ensures Stored(CveHistory.Run(CveHistory.EMPTY, events).records, cveId, Sightings(events, cveId))
  {
    if events == [] {
    } else {
      var init, e := events[..|events| - 1], events[|events| - 1];
      StoredIsFold(init, cveId);
      StoredStep(CveHistory.Run(CveHistory.EMPTY, init), e, cveId, Sightings(init, cveId));
    }
  }
}
