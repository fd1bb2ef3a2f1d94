/** What the report of a sync says about its feed and its repository. */
module SyncMeaning {
  import opened CveMerge
  import opened CveHistory
  import opened CveSync
  import opened Basics

  /** A record that names a CVE and can be merged into it. */
  predicate Mergeable(rec: Record) {
    && rec.Usable? && rec.c.identifiersOk
    && (rec.c.cvssScore.Some? ==> 0.0 <= rec.c.cvssScore.value <= 10.0)
    && (rec.c.epssScore.Some? ==> 0.0 <= rec.c.epssScore.value <= 1.0)
    && (rec.c.epssPercentile.Some? ==> 0.0 <= rec.c.epssPercentile.value <= 1.0)
  }

  predicate Refused(rec: Record) {
    !Mergeable(rec) && rec != AdvisoryOnly
  }

  /** Record `i` is the first to tell of its CVE. */
  predicate IsFirst(r: Repo, feed: seq<Record>, i: nat)
    requires i < |feed|
  {
    && Mergeable(feed[i]) && feed[i].c.cveId !in r.records
    && forall j :: 0 <= j < i && Mergeable(feed[j]) ==> feed[j].c.cveId != feed[i].c.cveId
  }

  /** Record `i` tells something new of a CVE known before: its merge makes the log longer. */
  predicate IsNews(r: Repo, feed: seq<Record>, i: nat)
    requires i < |feed|
  {
    Mergeable(feed[i]) && !IsFirst(r, feed, i) && |Ingest(r, feed[..i + 1]).history| > |Ingest(r, feed[..i]).history|
  }

  lemma MergeableIff(rec: Record)
    ensures Mergeable(rec) <==> Accepted(rec)
  {
  }

  // ---------------------------------------------------------------- the counters

  function RefusedAt(feed: seq<Record>): set<nat> { set i: nat | i < |feed| && Refused(feed[i]) }
  function FirstAt(r: Repo, feed: seq<Record>): set<nat> { set i: nat | i < |feed| && IsFirst(r, feed, i) }
  function NewsAt(r: Repo, feed: seq<Record>): set<nat> { set i: nat | i < |feed| && IsNews(r, feed, i) }

  lemma {:induction false} IngestedKeys(r: Repo, feed: seq<Record>, id: string)
    ensures id in Ingest(r, feed).records <==>
      id in r.records || exists j :: 0 <= j < |feed| && Mergeable(feed[j]) && feed[j].c.cveId == id
  {
    if feed == [] {
    } else {
      var n := |feed| - 1;
      IngestedKeys(r, feed[..n], id);
      MergeableIff(feed[n]);
      if j :| 0 <= j < |feed| && Mergeable(feed[j]) && feed[j].c.cveId == id {
        if j < n { assert feed[..n][j] == feed[j]; }
      }
      if j :| 0 <= j < n && Mergeable(feed[..n][j]) && feed[..n][j].c.cveId == id { assert feed[j] == feed[..n][j]; }
    }
  }

  lemma PrefixAt(r: Repo, feed: seq<Record>, n: nat, i: nat)
    requires i < n <= |feed|
    ensures feed[..n][i] == feed[i]
    ensures IsFirst(r, feed[..n], i) <==> IsFirst(r, feed, i)
    ensures IsNews(r, feed[..n], i) <==> IsNews(r, feed, i)
  {
    assert forall j :: 0 <= j <= i ==> feed[..n][j] == feed[j];
    assert feed[..n][..i] == feed[..i] && feed[..n][..i + 1] == feed[..i + 1];
  }

  /** The index sets of a longer feed. */
  lemma SetsSnoc(r: Repo, feed: seq<Record>)
    requires feed != []
    ensures var n := |feed| - 1;
      && FirstAt(r, feed) == FirstAt(r, feed[..n]) + (if IsFirst(r, feed, n) then {n} else {})
      && NewsAt(r, feed) == NewsAt(r, feed[..n]) + (if IsNews(r, feed, n) then {n} else {})
  {
    var n := |feed| - 1;
    forall i: nat | i < n ensures IsFirst(r, feed[..n], i) <==> IsFirst(r, feed, i) { PrefixAt(r, feed, n, i); }
    forall i: nat | i < n ensures IsNews(r, feed[..n], i) <==> IsNews(r, feed, i) { PrefixAt(r, feed, n, i); }
  }

  lemma RefusedSnoc(feed: seq<Record>)
    requires feed != []
    ensures var n := |feed| - 1; RefusedAt(feed) == RefusedAt(feed[..n]) + (if Refused(feed[n]) then {n} else {})
  {
    assert forall i :: 0 <= i < |feed| - 1 ==> feed[..|feed| - 1][i] == feed[i];
  }

  lemma Grows(at: set<nat>, n: nat, grows: bool)
    requires n !in at
    ensures |at + if grows then {n} else {}| == |at| + if grows then 1 else 0
  {
  }

  lemma SizesSnoc(r: Repo, feed: seq<Record>)
    requires feed != []
    ensures var n := |feed| - 1;
      && |RefusedAt(feed)| == |RefusedAt(feed[..n])| + (if Refused(feed[n]) then 1 else 0)
      && |FirstAt(r, feed)| == |FirstAt(r, feed[..n])| + (if IsFirst(r, feed, n) then 1 else 0)
      && |NewsAt(r, feed)| == |NewsAt(r, feed[..n])| + (if IsNews(r, feed, n) then 1 else 0)
  {
    var n := |feed| - 1;
    SetsSnoc(r, feed);
    RefusedSnoc(feed);
    Grows(RefusedAt(feed[..n]), n, Refused(feed[n]));
    Grows(FirstAt(r, feed[..n]), n, IsFirst(r, feed, n));
    Grows(NewsAt(r, feed[..n]), n, IsNews(r, feed, n));
  }

  lemma RecordCounts(r: Repo, feed: seq<Record>)
    requires feed != []
    ensures var n := |feed| - 1; var t, u := Tally(r, feed[..n]), Tally(r, feed);
      && u.failed == t.failed + (if Refused(feed[n]) then 1 else 0)
      && u.created == t.created + (if IsFirst(r, feed, n) then 1 else 0)
      && u.updated == t.updated + (if IsNews(r, feed, n) then 1 else 0)
  {
    var n := |feed| - 1;
    MergeableIff(feed[n]);
    assert feed[..n + 1] == feed;
    if Mergeable(feed[n]) {
      IngestedKeys(r, feed[..n], feed[n].c.cveId);
      assert forall j :: 0 <= j < n ==> feed[..n][j] == feed[j];
    }
  }

  /** For every feed: failed counts the records that are refused, created those that are the first of
      their CVE, and updated those of a CVE known before that make the log longer. */
  lemma {:induction false} CountersMean(r: Repo, feed: seq<Record>)
    ensures var n := Tally(r, feed);
      n.fetched == |feed| && n.failed == |RefusedAt(feed)| && n.created == |FirstAt(r, feed)| && n.updated == |NewsAt(r, feed)|
  {
    if feed == [] {
    } else {
      var n := |feed| - 1;
      CountersMean(r, feed[..n]);
      SizesSnoc(r, feed);
      RecordCounts(r, feed);
    }
  }

  /** For every feed: the status is FAILED when the fetch broke off or every record was refused,
      COMPLETED when the fetch got through and no record was, and PARTIAL in between. */
  lemma StatusMeans(r: Repo, feed: seq<Record>, fetchFails: bool)
    ensures var status := StatusOf(Tally(r, feed), fetchFails);
      && (status == Completed <==> !fetchFails && forall i :: 0 <= i < |feed| ==> !Refused(feed[i]))
      && (status == Failed <==> fetchFails || (feed != [] && forall i :: 0 <= i < |feed| ==> Refused(feed[i])))
      && (status == Partial <==> !fetchFails && (exists i :: 0 <= i < |feed| && Refused(feed[i]))
                                 && exists i :: 0 <= i < |feed| && !Refused(feed[i]))
  {
    FailuresMean(r, feed);
  }

  lemma {:induction false} FailuresMean(r: Repo, feed: seq<Record>)
    ensures var n := Tally(r, feed);
      && n.fetched == |feed| && n.failed <= |feed|
      && (n.failed == 0 <==> NoneRefused(feed)) && (n.failed == |feed| <==> AllRefused(feed))
  {
    if feed == [] {
    } else {
      FailuresMean(r, feed[..|feed| - 1]);
      RecordCounts(r, feed);
      RefusalsSnoc(feed);
    }
  }

  predicate NoneRefused(feed: seq<Record>) { forall i :: 0 <= i < |feed| ==> !Refused(feed[i]) }
  predicate AllRefused(feed: seq<Record>) { forall i :: 0 <= i < |feed| ==> Refused(feed[i]) }

  lemma RefusalsSnoc(feed: seq<Record>)
    requires feed != []
    ensures var init, last := feed[..|feed| - 1], feed[|feed| - 1];
      && (NoneRefused(feed) <==> NoneRefused(init) && !Refused(last))
      && (AllRefused(feed) <==> AllRefused(init) && Refused(last))
  {
    var init := feed[..|feed| - 1];
    assert forall i :: 0 <= i < |init| ==> init[i] == feed[i];
  }

  // -------------------------------------------------------------- the repository

  function EventsOf(feed: seq<Record>): seq<Event> {
    if feed == [] then []
    else
      var rec := feed[|feed| - 1];
      EventsOf(feed[..|feed| - 1]) + if rec.Usable? then [Merged(rec.at, rec.c, true)] else []
  }

  /** A sync without regeneration is a stretch of a repository run: one logged merge for each record. */
  lemma {:induction false} IngestIsRun(events: seq<Event>, feed: seq<Record>)
    ensures Ingest(Run(EMPTY, events), feed) == Run(EMPTY, events + EventsOf(feed))
  {
    if feed == [] {
      assert events + [] == events;
    } else {
      var init, rec := feed[..|feed| - 1], feed[|feed| - 1];
      IngestIsRun(events, init);
      var all := events + EventsOf(init);
      if rec.Usable? {
        assert events + EventsOf(feed) == all + [Merged(rec.at, rec.c, true)];
        assert (all + [Merged(rec.at, rec.c, true)])[..|all|] == all;
      } else {
        assert EventsOf(feed) == EventsOf(init);
      }
    }
  }

  /** After a sync that got through with regeneration, each record the feed merged carries the
      classifier's answer on what it now holds; otherwise, and everywhere else, nothing but the merges
      made a difference. */
  lemma RegenerationMeans(r: Repo, feed: seq<Record>, fetchFails: bool, regenerate: bool, classify: Classifier, id: string)
    requires id in Ingest(r, feed).records
    ensures var merged, t := Ingest(r, feed), AfterSync(r, feed, fetchFails, regenerate, classify);
      && t.history == merged.history && t.records.Keys == merged.records.Keys
      && var v := merged.records[id];
        if regenerate && !fetchFails && exists i :: 0 <= i < |feed| && Mergeable(feed[i]) && feed[i].c.cveId == id
        then t.records[id] == v.(domainGuess := classify(v.vendor, v.description, v.cweIds))
        else t.records[id] == v
  {
    forall i | 0 <= i < |feed| ensures Mergeable(feed[i]) <==> Accepted(feed[i]) { MergeableIff(feed[i]); }
    if i :| 0 <= i < |feed| && Mergeable(feed[i]) && feed[i].c.cveId == id { assert id in Touched(feed); }
  }
}
