/** Merging one source's contribution into the stored view of a CVE (intelligence/dedup.py). */
module CveMerge {
  import opened Basics

  datatype Source = Nvd | GithubAdvisory | CisaKev | Epss | ManualImport

  datatype Relevance = High | Medium | Low

  datatype Domain = Vpn | Telecom

  /** A normalised contribution. `identifiersOk` is the verdict of the CVE-id and URL patterns. */
  datatype Contribution = Contribution(
    cveId: string, source: Source, identifiersOk: bool,
    description: Option<string>, publishedAt: Option<Time>, lastModifiedAt: Option<Time>,
    cvssScore: Option<real>, cvssVector: Option<string>, cvssVersion: Option<string>,
    epssScore: Option<real>, epssPercentile: Option<real>, epssDate: Option<Time>,
    kevListed: Option<bool>, kevDateAdded: Option<Time>, kevDueDate: Option<Time>, kevRansomware: Option<string>,
    cweIds: seq<string>, vendor: Option<string>, relevance: Option<Relevance>)

  /** The merged record. CWE ids and sources are stored sorted and deduplicated, hence as sets. */
  datatype Vulnerability = Vulnerability(
    cveId: string,
    description: Option<string>, publishedAt: Option<Time>, lastModifiedAt: Option<Time>,
    cvssScore: Option<real>, cvssVector: Option<string>, cvssVersion: Option<string>,
    epssScore: Option<real>, epssPercentile: Option<real>, epssDate: Option<Time>,
    kevListed: bool, kevDateAdded: Option<Time>, kevDueDate: Option<Time>, kevRansomware: Option<string>,
    cweIds: set<string>, vendor: Option<string>, domainGuess: Option<Domain>, relevance: Option<Relevance>,
    sources: set<Source>, firstSeenAt: Time, lastUpdatedAt: Time)

  /** The fields whose changes are logged, in the order the merge visits them. */
  datatype Field = Description | CvssScore | EpssScore | KevListed | KevDateAdded | KevDueDate | ZeroClickRelevance

  /** A logged value before it is printed; printing is injective within a field. */
  datatype FieldValue = Text(text: string) | Score(score: real) | Flag(flag: bool) | Day(day: Time) | Level(level: Relevance)

  datatype Entry = Entry(cveId: string, source: Source, field: Field,
                         oldValue: Option<FieldValue>, newValue: FieldValue, observedAt: Time)

  datatype MergeResult = MergeResult(vulnerability: Vulnerability, history: seq<Entry>, isNew: bool)

  // ------------------------------------------------------ validation gate

  predicate InRange(o: Option<real>, high: real) {
    o.Some? ==> 0.0 <= o.value <= high
  }

  predicate ValidContribution(c: Contribution) {
    c.identifiersOk && InRange(c.cvssScore, 10.0) && InRange(c.epssScore, 1.0) && InRange(c.epssPercentile, 1.0)
  }

  predicate ValidVulnerability(v: Vulnerability) {
    InRange(v.cvssScore, 10.0) && InRange(v.epssScore, 1.0) && InRange(v.epssPercentile, 1.0)
  }

  // -------------------------------------------------------- specification

  function Blank(cveId: string, now: Time): Vulnerability {
    Vulnerability(cveId, None, None, None, None, None, None, None, None, None,
                  false, None, None, None, {}, None, None, None, {}, now, now)
  }

  predicate NonEmpty(o: Option<string>) {
    o.Some? && o.value != ""
  }

  /** A non-empty text, once held, stays; otherwise any text replaces it. */
  function HeldText(held: Option<string>, given: Option<string>): Option<string> {
    if NonEmpty(held) || given.None? then held else given
  }

  function Newest<T>(held: Option<T>, given: Option<T>): Option<T> {
    if given.Some? then given else held
  }

  function Earlier(held: Option<Time>, given: Option<Time>): Option<Time> {
    if given.Some? && (held.None? || given.value < held.value) then given else held
  }

  function Later(held: Option<Time>, given: Option<Time>): Option<Time> {
    if given.Some? && (held.None? || given.value > held.value) then given else held
  }

  function AsSet(ids: seq<string>): set<string> {
    set x | x in ids
  }

  predicate ListsKev(c: Contribution) {
    c.kevListed == Some(true)
  }

  /** Field by field, what one contribution makes of a record. */
  function Absorb(v: Vulnerability, c: Contribution, now: Time): Vulnerability {
    var cvss := v.cvssScore.None? && c.cvssScore.Some?;
    var epss := c.epssScore.Some?;
    var kev := ListsKev(c);
    v.(description := HeldText(v.description, c.description),
       publishedAt := Earlier(v.publishedAt, c.publishedAt),
       lastModifiedAt := Later(v.lastModifiedAt, c.lastModifiedAt),
       cvssScore := if cvss then c.cvssScore else v.cvssScore,
       cvssVector := if cvss then c.cvssVector else v.cvssVector,
       cvssVersion := if cvss then c.cvssVersion else v.cvssVersion,
       epssScore := if epss then c.epssScore else v.epssScore,
       epssPercentile := if epss then c.epssPercentile else v.epssPercentile,
       epssDate := if epss then c.epssDate else v.epssDate,
       kevListed := v.kevListed || kev,
       kevDateAdded := if kev then Newest(v.kevDateAdded, c.kevDateAdded) else v.kevDateAdded,
       kevDueDate := if kev then Newest(v.kevDueDate, c.kevDueDate) else v.kevDueDate,
       kevRansomware := if kev && NonEmpty(c.kevRansomware) then c.kevRansomware else v.kevRansomware,
       cweIds := v.cweIds + AsSet(c.cweIds),
       vendor := HeldText(v.vendor, c.vendor),
       relevance := Newest(v.relevance, c.relevance),
       sources := v.sources + {c.source},
       lastUpdatedAt := now)
  }

  function Base(existing: Option<Vulnerability>, c: Contribution, now: Time): Vulnerability {
    if existing.Some? then existing.value else Blank(c.cveId, now)
  }

  function TextValue(o: Option<string>): Option<FieldValue> { if o.Some? then Some(Text(o.value)) else None }
  function ScoreValue(o: Option<real>): Option<FieldValue> { if o.Some? then Some(Score(o.value)) else None }
  function DayValue(o: Option<Time>): Option<FieldValue> { if o.Some? then Some(Day(o.value)) else None }
  function LevelValue(o: Option<Relevance>): Option<FieldValue> { if o.Some? then Some(Level(o.value)) else None }

  /** The current value of a logged field. */
  function Tracked(v: Vulnerability, f: Field): Option<FieldValue> {
    match f
    case Description => TextValue(v.description)
    case CvssScore => ScoreValue(v.cvssScore)
    case EpssScore => ScoreValue(v.epssScore)
    case KevListed => Some(Flag(v.kevListed))
    case KevDateAdded => DayValue(v.kevDateAdded)
    case KevDueDate => DayValue(v.kevDueDate)
    case ZeroClickRelevance => LevelValue(v.relevance)
  }

  /** The log line for one field between two versions of a record, if that field changed. */
  function ChangeOf(v: Vulnerability, w: Vulnerability, source: Source, now: Time, f: Field): seq<Entry> {
    if Tracked(w, f).Some? && Tracked(w, f) != Tracked(v, f)
    then [Entry(w.cveId, source, f, Tracked(v, f), Tracked(w, f).value, now)] else []
  }

  /** The field-level difference between two versions of a record. */
  function Diff(v: Vulnerability, w: Vulnerability, source: Source, now: Time): seq<Entry> {
    ChangeOf(v, w, source, now, Description) + ChangeOf(v, w, source, now, CvssScore)
    + ChangeOf(v, w, source, now, EpssScore)
    + ChangeOf(v, w, source, now, KevListed) + ChangeOf(v, w, source, now, KevDateAdded)
    + ChangeOf(v, w, source, now, KevDueDate) + ChangeOf(v, w, source, now, ZeroClickRelevance)
  }

  // ------------------------------------------------------ the merge itself

  function Priority(s: Source): nat {
    match s case Nvd => 0 case GithubAdvisory => 1 case CisaKev => 2 case Epss => 3 case ManualImport => 4
  }

  /** Should value b win over value a, given who holds a? */
  predicate Better<T>(holder: Option<Source>, a: Option<T>, source: Source, b: Option<T>) {
    b.Some? && (a.None? || holder.None? || Priority(source) < Priority(holder.value))
  }

  function Track(c: Contribution, now: Time, f: Field, was: Option<FieldValue>, given: Option<FieldValue>): seq<Entry> {
    if was != given && given.Some? then [Entry(c.cveId, c.source, f, was, given.value, now)] else []
  }

  /** Who the merge believes holds a field: always the top-ranked source. */
  function Holder(held: bool): Option<Source> {
    if held then Some(Nvd) else None
  }

  // What each logged field contributes to the difference, in the merge's own terms.

  lemma SharedChanges(v: Vulnerability, c: Contribution, now: Time, w: Vulnerability)
    requires w == Absorb(v, c, now) && v.cveId == c.cveId
    ensures ChangeOf(v, w, c.source, now, Description) ==
      if Better(Holder(NonEmpty(v.description)), v.description, c.source, c.description)
      then Track(c, now, Description, TextValue(v.description), TextValue(c.description)) else []
    ensures ChangeOf(v, w, c.source, now, CvssScore) ==
      if Better(Holder(v.cvssScore.Some?), v.cvssScore, c.source, c.cvssScore)
      then Track(c, now, CvssScore, ScoreValue(v.cvssScore), ScoreValue(c.cvssScore)) else []
  {
  }

  lemma LatestChanges(v: Vulnerability, c: Contribution, now: Time, w: Vulnerability)
    requires w == Absorb(v, c, now) && v.cveId == c.cveId
    ensures ChangeOf(v, w, c.source, now, EpssScore) ==
      if c.epssScore.Some? then Track(c, now, EpssScore, ScoreValue(v.epssScore), ScoreValue(c.epssScore)) else []
    ensures ChangeOf(v, w, c.source, now, ZeroClickRelevance) ==
      if c.relevance.Some?
      then Track(c, now, ZeroClickRelevance, LevelValue(v.relevance), LevelValue(c.relevance)) else []
  {
  }

  lemma KevChanges(v: Vulnerability, c: Contribution, now: Time, w: Vulnerability)
    requires w == Absorb(v, c, now) && v.cveId == c.cveId
    ensures ChangeOf(v, w, c.source, now, KevListed) ==
      if ListsKev(c) then Track(c, now, KevListed, Some(Flag(v.kevListed)), Some(Flag(true))) else []
    ensures ChangeOf(v, w, c.source, now, KevDateAdded) ==
      if ListsKev(c) then Track(c, now, KevDateAdded, DayValue(v.kevDateAdded), DayValue(c.kevDateAdded)) else []
    ensures ChangeOf(v, w, c.source, now, KevDueDate) ==
      if ListsKev(c) then Track(c, now, KevDueDate, DayValue(v.kevDueDate), DayValue(c.kevDueDate)) else []
  {
  }

  lemma DiffByParts(v: Vulnerability, w: Vulnerability, source: Source, now: Time,
                    h2: seq<Entry>, h3: seq<Entry>, h4: seq<Entry>, h5: seq<Entry>)
    requires h2 == ChangeOf(v, w, source, now, Description) + ChangeOf(v, w, source, now, CvssScore)
    requires h3 == h2 + ChangeOf(v, w, source, now, EpssScore)
    requires h4 == h3 + ChangeOf(v, w, source, now, KevListed) + ChangeOf(v, w, source, now, KevDateAdded)
                 + ChangeOf(v, w, source, now, KevDueDate)
    requires h5 == h4 + ChangeOf(v, w, source, now, ZeroClickRelevance)
    ensures h5 == Diff(v, w, source, now)
  {
  }

  /** The fields several sources may supply: a held value yields only to a better-ranked source,
      and the recorded holder already has the best rank. */
  method MergeShared(v: Vulnerability, c: Contribution, now: Time)
    returns (history: seq<Entry>, description: Option<string>,
             score: Option<real>, vector: Option<string>, version: Option<string>)
    requires v.cveId == c.cveId
    ensures var w := Absorb(v, c, now);
      && history == ChangeOf(v, w, c.source, now, Description) + ChangeOf(v, w, c.source, now, CvssScore)
      && description == w.description && score == w.cvssScore && vector == w.cvssVector && version == w.cvssVersion
  {
    SharedChanges(v, c, now, Absorb(v, c, now));
    history := [];
    var holderOfDescription := Holder(NonEmpty(v.description));
    var holderOfCvss := Holder(v.cvssScore.Some?);
    description := v.description;
    if Better(holderOfDescription, description, c.source, c.description) {
      history := history + Track(c, now, Description, TextValue(description), TextValue(c.description));
      description := c.description;
    }
    score, vector, version := v.cvssScore, v.cvssVector, v.cvssVersion;
    if Better(holderOfCvss, score, c.source, c.cvssScore) {
      history := history + Track(c, now, CvssScore, ScoreValue(score), ScoreValue(c.cvssScore));
      score, vector, version := c.cvssScore, c.cvssVector, c.cvssVersion;
    }
  }

  /** The KEV block of the merge: three logged fields and the ransomware note. */
  method MergeKev(v: Vulnerability, c: Contribution, now: Time, logged: seq<Entry>)
    returns (history: seq<Entry>, listed: bool, dateAdded: Option<Time>, dueDate: Option<Time>, ransomware: Option<string>)
    requires v.cveId == c.cveId
    ensures var w := Absorb(v, c, now);
      && history == logged + ChangeOf(v, w, c.source, now, KevListed) + ChangeOf(v, w, c.source, now, KevDateAdded)
                  + ChangeOf(v, w, c.source, now, KevDueDate)
      && listed == w.kevListed && dateAdded == w.kevDateAdded && dueDate == w.kevDueDate
      && ransomware == w.kevRansomware
  {
    KevChanges(v, c, now, Absorb(v, c, now));
    history := logged;
    listed, dateAdded, dueDate, ransomware := v.kevListed, v.kevDateAdded, v.kevDueDate, v.kevRansomware;
    if ListsKev(c) {
      history := history + Track(c, now, KevListed, Some(Flag(listed)), Some(Flag(true)));
      listed := true;
      history := history + Track(c, now, KevDateAdded, DayValue(dateAdded), DayValue(c.kevDateAdded));
      dateAdded := if c.kevDateAdded.Some? then c.kevDateAdded else dateAdded;
      history := history + Track(c, now, KevDueDate, DayValue(dueDate), DayValue(c.kevDueDate));
      dueDate := if c.kevDueDate.Some? then c.kevDueDate else dueDate;
      ransomware := if NonEmpty(c.kevRansomware) then c.kevRansomware else ransomware;
    }
  }

  /** The merge proper, in the order of the source: every local starts from the existing record, is
      reassigned when the contribution wins, and logs its change. The log that comes out is exactly
      the difference of the two records. */
  method MergeFields(v: Vulnerability, c: Contribution, now: Time) returns (merged: Vulnerability, history: seq<Entry>)
    requires v.cveId == c.cveId
    ensures merged == Absorb(v, c, now)
    ensures history == Diff(v, merged, c.source, now)
  {
    ghost var w := Absorb(v, c, now);
    LatestChanges(v, c, now, w);
    var description, cvssScore, cvssVector, cvssVersion;
    history, description, cvssScore, cvssVector, cvssVersion := MergeShared(v, c, now);
    ghost var h2 := history;

    var epssScore, epssPercentile, epssDate := v.epssScore, v.epssPercentile, v.epssDate;
    if c.epssScore.Some? {
      history := history + Track(c, now, EpssScore, ScoreValue(epssScore), ScoreValue(c.epssScore));
      epssScore, epssPercentile, epssDate := c.epssScore, c.epssPercentile, c.epssDate;
    }
    assert history == h2 + ChangeOf(v, w, c.source, now, EpssScore);
    ghost var h3 := history;

    var kevListed, kevDateAdded, kevDueDate, kevRansomware;
    history, kevListed, kevDateAdded, kevDueDate, kevRansomware := MergeKev(v, c, now, history);
    ghost var h4 := history;

    var vendor := v.vendor;
    var holderOfVendor := Holder(NonEmpty(vendor));
    if Better(holderOfVendor, vendor, c.source, c.vendor) {
      vendor := c.vendor;
    }

    var relevance := v.relevance;
    if c.relevance.Some? {
      history := history + Track(c, now, ZeroClickRelevance, LevelValue(relevance), LevelValue(c.relevance));
      relevance := c.relevance;
    }
    assert history == h4 + ChangeOf(v, w, c.source, now, ZeroClickRelevance);
    ghost var h5 := history;

    var publishedAt := v.publishedAt;
    if c.publishedAt.Some? && (publishedAt.None? || c.publishedAt.value < publishedAt.value) {
      publishedAt := c.publishedAt;
    }
    var lastModifiedAt := v.lastModifiedAt;
    if c.lastModifiedAt.Some? && (lastModifiedAt.None? || c.lastModifiedAt.value > lastModifiedAt.value) {
      lastModifiedAt := c.lastModifiedAt;
    }

    merged := Vulnerability(c.cveId, description, publishedAt, lastModifiedAt, cvssScore, cvssVector, cvssVersion,
                            epssScore, epssPercentile, epssDate, kevListed, kevDateAdded, kevDueDate, kevRansomware,
                            v.cweIds + AsSet(c.cweIds), vendor, v.domainGuess, relevance,
                            v.sources + {c.source}, v.firstSeenAt, now);
    DiffByParts(v, w, c.source, now, h2, h3, h4, h5);
  }

  /** Raises exactly when the contribution fails validation, which the merged record then cannot. */
  method Merge(existing: Option<Vulnerability>, c: Contribution, now: Time) returns (r: Result<MergeResult>)
    requires existing.Some? ==> existing.value.cveId == c.cveId && ValidVulnerability(existing.value)
    ensures r.Ok? <==>
      && c.identifiersOk
      && (c.cvssScore.Some? ==> 0.0 <= c.cvssScore.value <= 10.0)
      && (c.epssScore.Some? ==> 0.0 <= c.epssScore.value <= 1.0)
      && (c.epssPercentile.Some? ==> 0.0 <= c.epssPercentile.value <= 1.0)
    ensures r.Ok? <==> ValidContribution(c)
    ensures r.Ok? ==>
      var v := Base(existing, c, now);
      r.value == MergeResult(Absorb(v, c, now), Diff(v, Absorb(v, c, now), c.source, now), existing.None?)
    ensures r.Ok? ==> ValidVulnerability(r.value.vulnerability)
  {
    var merged, history := MergeFields(Base(existing, c, now), c, now);
    if !ValidContribution(c) || !ValidVulnerability(merged) {
      return Raised;
    }
    return Ok(MergeResult(merged, history, existing.None?));
  }
}
