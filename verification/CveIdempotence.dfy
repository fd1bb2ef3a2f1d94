/** What running the same feed a second time does, for every feed (intelligence/sync_service.py). */
module CveIdempotence {
  import opened Basics
  import opened CveMerge
  import opened CveHistory
  import opened CveSync

  /** The same record, but for when it was last touched. */
  ghost predicate SameButTime(v: Vulnerability, w: Vulnerability) {
    w == v.(lastUpdatedAt := w.lastUpdatedAt)
  }

  /** The same records, possibly read at other times. */
  ghost predicate SameFeed(feed: seq<Record>, again: seq<Record>) {
    && |feed| == |again|
    && forall i :: 0 <= i < |feed| ==>
         if feed[i].Usable? then again[i].Usable? && again[i].c == feed[i].c else again[i] == feed[i]
  }

  // ------------------------------------------------------ a feed as one merge

  /** Several contributions to one CVE rolled into one; only the sources cannot be. */
  datatype Batch = Batch(c: Contribution, sources: set<Source>)

  function AbsorbBatch(v: Vulnerability, b: Batch, now: Time): Vulnerability {
    Absorb(v, b.c, now).(sources := v.sources + b.sources)
  }

  /** First of two for what is held, last of two for what follows the newest. */
  function Combine(c: Contribution, d: Contribution): Contribution {
    c.(description := HeldText(c.description, d.description),
       publishedAt := Earlier(c.publishedAt, d.publishedAt),
       lastModifiedAt := Later(c.lastModifiedAt, d.lastModifiedAt),
       cvssScore := if c.cvssScore.Some? then c.cvssScore else d.cvssScore,
       cvssVector := if c.cvssScore.Some? then c.cvssVector else d.cvssVector,
       cvssVersion := if c.cvssScore.Some? then c.cvssVersion else d.cvssVersion,
       epssScore := if d.epssScore.Some? then d.epssScore else c.epssScore,
       epssPercentile := if d.epssScore.Some? then d.epssPercentile else c.epssPercentile,
       epssDate := if d.epssScore.Some? then d.epssDate else c.epssDate,
       kevListed := Some(ListsKev(c) || ListsKev(d)),
       kevDateAdded := Newest(Listed(c, c.kevDateAdded), Listed(d, d.kevDateAdded)),
       kevDueDate := Newest(Listed(c, c.kevDueDate), Listed(d, d.kevDueDate)),
       kevRansomware := if ListsKev(d) && NonEmpty(d.kevRansomware) then d.kevRansomware
                        else Listed(c, c.kevRansomware),
       cweIds := c.cweIds + d.cweIds,
       vendor := HeldText(c.vendor, d.vendor),
       relevance := Newest(c.relevance, d.relevance))
  }

  function Listed<T>(c: Contribution, o: Option<T>): Option<T> {
    if ListsKev(c) then o else None
  }

  /** Merging two contributions one after the other is merging their combination. */
  lemma CombineAbsorbs(v: Vulnerability, b: Batch, s: Time, d: Contribution, t: Time)
    ensures Absorb(AbsorbBatch(v, b, s), d, t) == AbsorbBatch(v, Batch(Combine(b.c, d), b.sources + {d.source}), t)
  {
    var e := Combine(b.c, d);
    assert v.sources + b.sources + {d.source} == v.sources + (b.sources + {d.source});
    var once := AbsorbBatch(v, b, s);
    CombineHeld(v, once, b, s, d, t);
    CombineNewest(v, once, b, s, d, t);
    CombineKev(v, once, b, s, d, t);
    CombineSets(v, b.c, d);
  }

  lemma CombineHeld(v: Vulnerability, once: Vulnerability, b: Batch, s: Time, d: Contribution, t: Time)
    requires once == AbsorbBatch(v, b, s)
    ensures var x, y := Absorb(once, d, t), Absorb(v, Combine(b.c, d), t);
      && x.description == y.description && x.vendor == y.vendor
      && x.cvssScore == y.cvssScore && x.cvssVector == y.cvssVector && x.cvssVersion == y.cvssVersion
  {
  }

  lemma CombineNewest(v: Vulnerability, once: Vulnerability, b: Batch, s: Time, d: Contribution, t: Time)
    requires once == AbsorbBatch(v, b, s)
    ensures var x, y := Absorb(once, d, t), Absorb(v, Combine(b.c, d), t);
      && x.publishedAt == y.publishedAt && x.lastModifiedAt == y.lastModifiedAt && x.relevance == y.relevance
      && x.epssScore == y.epssScore && x.epssPercentile == y.epssPercentile && x.epssDate == y.epssDate
  {
  }

  lemma CombineKev(v: Vulnerability, once: Vulnerability, b: Batch, s: Time, d: Contribution, t: Time)
    requires once == AbsorbBatch(v, b, s)
    ensures var x, y := Absorb(once, d, t), Absorb(v, Combine(b.c, d), t);
      && x.kevListed == y.kevListed && x.kevDateAdded == y.kevDateAdded && x.kevDueDate == y.kevDueDate
      && x.kevRansomware == y.kevRansomware
  {
  }

  lemma CombineSets(v: Vulnerability, c: Contribution, d: Contribution)
    ensures v.cweIds + AsSet(c.cweIds) + AsSet(d.cweIds) == v.cweIds + AsSet(Combine(c, d).cweIds)
  {
    assert AsSet(c.cweIds + d.cweIds) == AsSet(c.cweIds) + AsSet(d.cweIds);
  }

  /** Merging the same combination again changes nothing but the time stamp. */
  lemma BatchSettles(v: Vulnerability, b: Batch, s: Time, w: Vulnerability, t: Time)
    requires w == AbsorbBatch(v, b, s).(domainGuess := w.domainGuess)
    ensures SameButTime(w, AbsorbBatch(w, b, t))
  {
  }

  /** What the accepted records of one CVE in a feed amount to. */
  function BatchOf(feed: seq<Record>, id: string): Option<Batch> {
    if feed == [] then None
    else
      var before, rec := BatchOf(feed[..|feed| - 1], id), feed[|feed| - 1];
      if !Accepted(rec) || rec.c.cveId != id then before
      else if before.None? then Some(Batch(rec.c, {rec.c.source}))
      else Some(Batch(Combine(before.value.c, rec.c), before.value.sources + {rec.c.source}))
  }

  /** A stored record is what the feed's batch makes of the record before, or of a blank one. */
  ghost predicate Batched(r: Repo, after: Repo, id: string, b: Option<Batch>) {
    match b
    case None => Lookup(after.records, id) == Lookup(r.records, id)
    case Some(batch) => id in after.records && exists first, last :: Made(r, after.records[id], id, batch, first, last)
  }

  ghost predicate Made(r: Repo, v: Vulnerability, id: string, b: Batch, first: Time, last: Time) {
    v == AbsorbBatch(if id in r.records then r.records[id] else Blank(id, first), b, last)
  }

  lemma BatchedStep(r: Repo, before: Repo, rec: Record, id: string, b: Option<Batch>)
    requires Batched(r, before, id, b) && Accepted(rec) && rec.c.cveId == id
    ensures Batched(r, Apply(before, Merged(rec.at, rec.c, true)), id,
                    Some(if b.None? then Batch(rec.c, {rec.c.source})
                         else Batch(Combine(b.value.c, rec.c), b.value.sources + {rec.c.source})))
  {
    var after := Apply(before, Merged(rec.at, rec.c, true));
    if b.None? {
      assert Made(r, after.records[id], id, Batch(rec.c, {rec.c.source}), rec.at, rec.at);
    } else {
      var first, last :| Made(r, before.records[id], id, b.value, first, last);
      CombineAbsorbs(if id in r.records then r.records[id] else Blank(id, first), b.value, last, rec.c, rec.at);
      var both := Batch(Combine(b.value.c, rec.c), b.value.sources + {rec.c.source});
      assert Made(r, after.records[id], id, both, first, rec.at);
    }
  }

  lemma {:induction false} IngestBatches(r: Repo, feed: seq<Record>, id: string)
    ensures Batched(r, Ingest(r, feed), id, BatchOf(feed, id))
  {
    if feed == [] {
    } else {
      var init, rec := feed[..|feed| - 1], feed[|feed| - 1];
      IngestBatches(r, init, id);
      if Accepted(rec) && rec.c.cveId == id {
        BatchedStep(r, Ingest(r, init), rec, id, BatchOf(init, id));
      }
    }
  }

  lemma {:induction false} SameBatch(feed: seq<Record>, again: seq<Record>, id: string)
    requires SameFeed(feed, again)
    ensures BatchOf(feed, id) == BatchOf(again, id)
  {
    if feed == [] {
    } else {
      var n := |feed| - 1;
      assert feed[n].Usable? ==> again[n].Usable? && again[n].c == feed[n].c;
      SameBatch(feed[..n], again[..n], id);
    }
  }

  lemma {:induction false} TouchedHasBatch(feed: seq<Record>, id: string)
    ensures id in Touched(feed) <==> BatchOf(feed, id).Some?
  {
    if feed == [] {
    } else {
      var n := |feed| - 1;
      TouchedHasBatch(feed[..n], id);
      TouchedSnoc(feed, n);
      assert feed[..n + 1] == feed;
    }
  }

  /** The first pass leaves every CVE of the feed with a record that its batch no longer changes. */
  lemma OnceSettles(r: Repo, feed: seq<Record>, regenerate: bool, classify: Classifier, id: string, t: Time)
    requires BatchOf(feed, id).Some?
    ensures var once := AfterSync(r, feed, false, regenerate, classify);
      id in once.records && SameButTime(once.records[id], AbsorbBatch(once.records[id], BatchOf(feed, id).value, t))
  {
    var once, b := AfterSync(r, feed, false, regenerate, classify), BatchOf(feed, id).value;
    IngestBatches(r, feed, id);
    var first, last :| Made(r, Ingest(r, feed).records[id], id, b, first, last);
    BatchSettles(if id in r.records then r.records[id] else Blank(id, first), b, last, once.records[id], t);
  }

  /** The second pass leaves each record as it was, time stamp aside. */
  lemma IngestAgain(r: Repo, feed: seq<Record>, again: seq<Record>, regenerate: bool, classify: Classifier, id: string)
    requires SameFeed(feed, again)
    ensures var once := AfterSync(r, feed, false, regenerate, classify);
      var twice := Ingest(once, again);
      && (id in twice.records <==> id in once.records)
      && (id in once.records ==> SameButTime(once.records[id], twice.records[id]))
  {
    var once := AfterSync(r, feed, false, regenerate, classify);
    SameBatch(feed, again, id);
    IngestBatches(once, again, id);
    if BatchOf(feed, id).Some? {
      OnceSettles(r, feed, regenerate, classify, id, 0);
      var b := BatchOf(feed, id).value;
      var first, last :| Made(once, Ingest(once, again).records[id], id, b, first, last);
      OnceSettles(r, feed, regenerate, classify, id, last);
    }
  }

  /** A second classification of the same content gives the same guess. */
  lemma GuessAgain(v: Vulnerability, w: Vulnerability, classify: Classifier)
    requires SameButTime(Guess(v, classify), w)
    ensures SameButTime(Guess(v, classify), Guess(w, classify))
  {
  }

  lemma SyncAgain(r: Repo, feed: seq<Record>, again: seq<Record>, regenerate: bool, classify: Classifier, id: string)
    requires SameFeed(feed, again)
    ensures var once := AfterSync(r, feed, false, regenerate, classify);
      var twice := AfterSync(once, again, false, regenerate, classify);
      && (id in twice.records <==> id in once.records)
      && (id in once.records ==> SameButTime(once.records[id], twice.records[id]))
  {
    var once := AfterSync(r, feed, false, regenerate, classify);
    IngestAgain(r, feed, again, regenerate, classify, id);
    if regenerate && id in once.records && id in Touched(again) {
      TouchedHasBatch(feed, id);
      TouchedHasBatch(again, id);
      SameBatch(feed, again, id);
      GuessAgain(Ingest(r, feed).records[id], Ingest(once, again).records[id], classify);
    }
  }

  // -------------------------------------------------------- what gets logged

  /** Two records agree wherever both give a logged field that follows the newest contribution. */
  predicate Agree<T(==)>(a: Option<T>, b: Option<T>) {
    a.None? || b.None? || a == b
  }

  predicate AgreeOn(c: Contribution, d: Contribution) {
    && Agree(c.epssScore, d.epssScore)
    && Agree(c.relevance, d.relevance)
    && Agree(Listed(c, c.kevDateAdded), Listed(d, d.kevDateAdded))
    && Agree(Listed(c, c.kevDueDate), Listed(d, d.kevDueDate))
  }

  predicate SameCve(a: Record, b: Record) {
    Accepted(a) && Accepted(b) && a.c.cveId == b.c.cveId
  }

  /** Accepted records of one CVE do not contradict each other. */
  ghost predicate Consistent(feed: seq<Record>) {
    forall i, j :: 0 <= i < |feed| && 0 <= j < |feed| && SameCve(feed[i], feed[j]) ==> AgreeOn(feed[i].c, feed[j].c)
  }

  /** Merging the contribution leaves every logged field as it is. */
  ghost predicate Quiet(v: Vulnerability, c: Contribution) {
    forall f :: Tracked(Absorb(v, c, v.lastUpdatedAt), f) == Tracked(v, f)
  }

  ghost predicate SameTracked(v: Vulnerability, w: Vulnerability) {
    forall f :: Tracked(v, f) == Tracked(w, f)
  }

  /** Quietness, field by field. */
  predicate Gives<T(==)>(given: Option<T>, held: Option<T>) {
    given.Some? ==> held == given
  }

  lemma QuietFields(v: Vulnerability, c: Contribution)
    ensures Quiet(v, c) <==>
      && HeldText(v.description, c.description) == v.description
      && (c.cvssScore.Some? ==> v.cvssScore.Some?)
      && Gives(c.epssScore, v.epssScore)
      && (ListsKev(c) ==> v.kevListed)
      && Gives(Listed(c, c.kevDateAdded), v.kevDateAdded)
      && Gives(Listed(c, c.kevDueDate), v.kevDueDate)
      && Gives(c.relevance, v.relevance)
  {
    var w := Absorb(v, c, v.lastUpdatedAt);
    assert Quiet(v, c) ==>
      && Tracked(w, Description) == Tracked(v, Description) && Tracked(w, CvssScore) == Tracked(v, CvssScore)
      && Tracked(w, EpssScore) == Tracked(v, EpssScore) && Tracked(w, KevListed) == Tracked(v, KevListed)
      && Tracked(w, KevDateAdded) == Tracked(v, KevDateAdded) && Tracked(w, KevDueDate) == Tracked(v, KevDueDate)
      && Tracked(w, ZeroClickRelevance) == Tracked(v, ZeroClickRelevance);
  }

  lemma QuietSame(v: Vulnerability, w: Vulnerability, c: Contribution)
    requires SameTracked(v, w)
    ensures Quiet(v, c) <==> Quiet(w, c)
  {
    QuietFields(v, c);
    QuietFields(w, c);
    assert Tracked(v, Description) == Tracked(w, Description) && Tracked(v, CvssScore) == Tracked(w, CvssScore);
    assert Tracked(v, EpssScore) == Tracked(w, EpssScore) && Tracked(v, KevListed) == Tracked(w, KevListed);
    assert Tracked(v, KevDateAdded) == Tracked(w, KevDateAdded) && Tracked(v, KevDueDate) == Tracked(w, KevDueDate);
    assert Tracked(v, ZeroClickRelevance) == Tracked(w, ZeroClickRelevance);
  }

  lemma TrackedIgnoresTime(v: Vulnerability, c: Contribution, now: Time, f: Field)
    ensures Tracked(Absorb(v, c, now), f) == Tracked(Absorb(v, c, v.lastUpdatedAt), f)
  {
  }

  /** A merge logs nothing exactly when it is quiet. */
  lemma QuietLogsNothing(v: Vulnerability, c: Contribution, now: Time)
    ensures Quiet(v, c) <==> Diff(v, Absorb(v, c, now), c.source, now) == []
    ensures Quiet(v, c) ==> SameTracked(v, Absorb(v, c, now))
  {
    var w := Absorb(v, c, now);
    AbsorbNeverResets(v, c, now);
    forall f ensures Tracked(w, f) == Tracked(Absorb(v, c, v.lastUpdatedAt), f) { TrackedIgnoresTime(v, c, now, f); }
    if Diff(v, w, c.source, now) == [] {
      EmptyDiff(v, w, c.source, now);
    }
  }

  lemma EmptyDiff(v: Vulnerability, w: Vulnerability, source: Source, now: Time)
    requires Diff(v, w, source, now) == [] && NeverReset(v, w)
    ensures SameTracked(v, w)
  {
    forall f ensures ChangeOf(v, w, source, now, f) == [] {
      var n := |ChangeOf(v, w, source, now, Description)| + |ChangeOf(v, w, source, now, CvssScore)|
             + |ChangeOf(v, w, source, now, EpssScore)| + |ChangeOf(v, w, source, now, KevListed)|
             + |ChangeOf(v, w, source, now, KevDateAdded)| + |ChangeOf(v, w, source, now, KevDueDate)|
             + |ChangeOf(v, w, source, now, ZeroClickRelevance)|;
      assert n == |Diff(v, w, source, now)|;
    }
    forall f ensures Tracked(v, f) == Tracked(w, f) { assert ChangeOf(v, w, source, now, f) == []; }
  }

  ghost predicate QuietIn(r: Repo, rec: Record) {
    Accepted(rec) ==> rec.c.cveId in r.records && Quiet(r.records[rec.c.cveId], rec.c)
  }

  ghost predicate AllQuiet(r: Repo, feed: seq<Record>) {
    forall i :: 0 <= i < |feed| ==> QuietIn(r, feed[i])
  }

  /** Agreement keeps a record quiet through a further merge. */
  lemma QuietStays(v: Vulnerability, c: Contribution, d: Contribution, now: Time)
    requires Quiet(v, c) && AgreeOn(c, d)
    ensures Quiet(Absorb(v, d, now), c)
  {
    QuietFields(v, c);
    QuietFields(Absorb(v, d, now), c);
  }

  lemma AbsorbIsQuiet(v: Vulnerability, c: Contribution, now: Time)
    ensures Quiet(Absorb(v, c, now), c)
  {
    QuietFields(Absorb(v, c, now), c);
  }

  lemma QuietAgrees(v: Vulnerability, c: Contribution, d: Contribution)
    requires Quiet(v, c) && Quiet(v, d)
    ensures AgreeOn(c, d)
  {
    QuietFields(v, c);
    QuietFields(v, d);
  }

  lemma {:induction false} ConsistentIsQuiet(r: Repo, feed: seq<Record>, k: nat)
    requires Consistent(feed) && k < |feed|
    ensures QuietIn(Ingest(r, feed), feed[k])
  {
    var n := |feed| - 1;
    var before, rec := Ingest(r, feed[..n]), feed[n];
    if Accepted(rec) && Accepted(feed[k]) && rec.c.cveId == feed[k].c.cveId {
      var v := Base(Lookup(before.records, rec.c.cveId), rec.c, rec.at);
      AbsorbIsQuiet(v, rec.c, rec.at);
      if k < n {
        ConsistentIsQuiet(r, feed[..n], k);
        QuietStays(v, feed[k].c, rec.c, rec.at);
      }
    } else if k < n {
      ConsistentIsQuiet(r, feed[..n], k);
    }
  }

  lemma GuessIsQuiet(r: Repo, ids: set<string>, classify: Classifier, rec: Record)
    ensures QuietIn(r, rec) <==> QuietIn(Reclassify(r, ids, classify), rec)
  {
    if Accepted(rec) && rec.c.cveId in r.records {
      var v := r.records[rec.c.cveId];
      assert SameTracked(v, Guess(v, classify));
      QuietSame(v, Guess(v, classify), rec.c);
    }
  }

  /** After the first pass every record of the feed is quiet exactly when the feed is consistent. */
  lemma QuietIffConsistent(r: Repo, feed: seq<Record>, regenerate: bool, classify: Classifier)
    ensures var once := AfterSync(r, feed, false, regenerate, classify);
      Consistent(feed) <==> AllQuiet(once, feed)
  {
    var once := AfterSync(r, feed, false, regenerate, classify);
    if Consistent(feed) {
      forall i | 0 <= i < |feed| ensures QuietIn(once, feed[i]) {
        ConsistentIsQuiet(r, feed, i);
        GuessIsQuiet(Ingest(r, feed), Touched(feed), classify, feed[i]);
      }
    }
    if AllQuiet(once, feed) {
      forall i, j | 0 <= i < |feed| && 0 <= j < |feed| && SameCve(feed[i], feed[j])
        ensures AgreeOn(feed[i].c, feed[j].c)
      {
        assert QuietIn(once, feed[i]) && QuietIn(once, feed[j]);
        QuietAgrees(once.records[feed[i].c.cveId], feed[i].c, feed[j].c);
      }
    }
  }

  ghost predicate SameLogged(r: Repo, s: Repo) {
    && r.records.Keys <= s.records.Keys && r.history == s.history
    && forall id :: id in r.records ==> SameTracked(r.records[id], s.records[id])
  }

  lemma QuietStep(r: Repo, s: Repo, rec: Record)
    requires SameLogged(r, s) && Accepted(rec) && rec.c.cveId in r.records
    ensures QuietIn(r, rec) <==> !Changes(s, rec)
    ensures QuietIn(r, rec) ==> SameLogged(r, Apply(s, Merged(rec.at, rec.c, true)))
  {
    var v, w := r.records[rec.c.cveId], s.records[rec.c.cveId];
    QuietSame(v, w, rec.c);
    QuietLogsNothing(w, rec.c, rec.at);
  }

  lemma AllQuietSnoc(r: Repo, feed: seq<Record>)
    requires feed != []
    ensures AllQuiet(r, feed) <==> AllQuiet(r, feed[..|feed| - 1]) && QuietIn(r, feed[|feed| - 1])
  {
    assert forall i :: 0 <= i < |feed| - 1 ==> feed[..|feed| - 1][i] == feed[i];
  }

  /** Over a table that knows every CVE of the feed, a pass creates nothing, and it updates nothing
      exactly when every record of the feed is quiet; then and only then it logs nothing. */
  lemma {:induction false} PassIsQuiet(r: Repo, feed: seq<Record>)
    requires forall i :: 0 <= i < |feed| && Accepted(feed[i]) ==> feed[i].c.cveId in r.records
    ensures Tally(r, feed).created == 0 && r.records.Keys <= Ingest(r, feed).records.Keys
    ensures r.history <= Ingest(r, feed).history
    ensures AllQuiet(r, feed) <==> Tally(r, feed).updated == 0
    ensures AllQuiet(r, feed) <==> Ingest(r, feed).history == r.history
    ensures AllQuiet(r, feed) ==> SameLogged(r, Ingest(r, feed))
  {
    if feed == [] {
    } else {
      var n := |feed| - 1;
      var init, rec := feed[..n], feed[n];
      assert forall i :: 0 <= i < n ==> init[i] == feed[i];
      PassIsQuiet(r, init);
      AllQuietSnoc(r, feed);
      if Accepted(rec) && SameLogged(r, Ingest(r, init)) { QuietStep(r, Ingest(r, init), rec); }
    }
  }

  lemma {:induction false} IngestKnows(r: Repo, feed: seq<Record>, k: nat)
    requires k < |feed| && Accepted(feed[k])
    ensures feed[k].c.cveId in Ingest(r, feed).records
  {
    var n := |feed| - 1;
    if k < n { IngestKnows(r, feed[..n], k); }
  }

  lemma QuietAgain(once: Repo, feed: seq<Record>, again: seq<Record>)
    requires SameFeed(feed, again)
    ensures AllQuiet(once, feed) <==> AllQuiet(once, again)
  {
    assert forall i :: 0 <= i < |feed| ==> QuietIn(once, feed[i]) == QuietIn(once, again[i]);
  }

  /** Running the same feed again, whatever is in it: it creates nothing and leaves every merged record
      as it was except for its time stamp. It updates nothing, and it logs nothing, if and only if the
      feed's accepted records of one CVE agree on the EPSS score and the relevance wherever both give
      it, and on the KEV dates wherever both list the CVE and give the date. */
  lemma SyncIsIdempotent(r: Repo, feed: seq<Record>, again: seq<Record>, regenerate: bool, classify: Classifier)
    requires SameFeed(feed, again)
    ensures var once := AfterSync(r, feed, false, regenerate, classify);
      var twice := AfterSync(once, again, false, regenerate, classify);
      && Tally(once, again).created == 0
      && twice.records.Keys == once.records.Keys
      && (forall id :: id in once.records ==> SameButTime(once.records[id], twice.records[id]))
      && (Tally(once, again).updated == 0 <==> Consistent(feed))
      && (twice.history == once.history <==> Consistent(feed))
  {
    var once := AfterSync(r, feed, false, regenerate, classify);
    var twice := AfterSync(once, again, false, regenerate, classify);
    forall id ensures (id in twice.records <==> id in once.records)
      && (id in once.records ==> SameButTime(once.records[id], twice.records[id])) {
      SyncAgain(r, feed, again, regenerate, classify, id);
    }
    forall i | 0 <= i < |again| && Accepted(again[i]) ensures again[i].c.cveId in once.records {
      assert Accepted(feed[i]) && feed[i].c == again[i].c;
      IngestKnows(r, feed, i);
    }
    PassIsQuiet(once, again);
    QuietIffConsistent(r, feed, regenerate, classify);
    QuietAgain(once, feed, again);
  }

  /** No two records of the feed are about the same CVE. */
  ghost predicate Distinct(feed: seq<Record>) {
    forall i, j :: 0 <= i < j < |feed| ==> !SameCve(feed[i], feed[j])
  }

  lemma DistinctIsConsistent(feed: seq<Record>)
    requires Distinct(feed)
    ensures Consistent(feed)
  {
    forall i, j | 0 <= i < |feed| && 0 <= j < |feed| && SameCve(feed[i], feed[j]) ensures AgreeOn(feed[i].c, feed[j].c) {
      assert SameCve(feed[j], feed[i]);
      assert i == j;
    }
  }

  /** In particular a feed of distinct CVEs is repeated without a trace. */
  lemma DistinctFeedRepeats(r: Repo, feed: seq<Record>, again: seq<Record>, regenerate: bool, classify: Classifier)
    requires SameFeed(feed, again) && Distinct(feed)
    ensures var once := AfterSync(r, feed, false, regenerate, classify);
      && Tally(once, again).created == 0 && Tally(once, again).updated == 0
      && AfterSync(once, again, false, regenerate, classify).history == once.history
  {
    DistinctIsConsistent(feed);
    SyncIsIdempotent(r, feed, again, regenerate, classify);
  }

  function EpssReading(at: Time, score: real): Record {
    Usable(at, Contribution("CVE-2024-0001", Epss, true, None, None, None, None, None, None,
                            Some(score), None, None, None, None, None, None, [], None, None))
  }

  lemma PairConsistent(a: Record, b: Record)
    requires SameCve(a, b)
    ensures Consistent([a, b]) <==> AgreeOn(a.c, b.c)
  {
    var feed := [a, b];
    assert SameCve(feed[0], feed[1]);
  }

  lemma ReadingsAgree(x: Record, y: Record, a: real, b: real)
    requires 0.0 <= a <= 1.0 && 0.0 <= b <= 1.0 && x == EpssReading(0, a) && y == EpssReading(0, b)
    ensures SameCve(x, y) && (AgreeOn(x.c, y.c) <==> a == b)
  {
  }

  /** Two different readings of one CVE in a feed overwrite each other on every pass, equal ones do not. */
  lemma RepeatedReadings(r: Repo, x: Record, y: Record, a: real, b: real, regenerate: bool, classify: Classifier)
    requires 0.0 <= a <= 1.0 && 0.0 <= b <= 1.0 && x == EpssReading(0, a) && y == EpssReading(0, b)
    ensures Tally(AfterSync(r, [x, y], false, regenerate, classify), [x, y]).updated == 0 <==> a == b
  {
    ReadingsAgree(x, y, a, b);
    PairConsistent(x, y);
    SyncIsIdempotent(r, [x, y], [x, y], regenerate, classify);
  }
}
