/** One connector sync, end to end (intelligence/sync_service.py). */
module CveSync {
  import opened Basics
  import opened CveMerge
  import opened CveHistory

  /** A fetched record after normalisation: rejected, an advisory that names no CVE, or a
      contribution together with the clock reading of its merge. */
  datatype Record = Unusable | AdvisoryOnly | Usable(at: Time, c: Contribution)

  datatype Counts = Counts(fetched: nat, created: nat, updated: nat, same: nat, failed: nat)

  datatype Status = Completed | Partial | Failed

  datatype Sync = Sync(status: Status, counts: Counts)

  /** The domain classifier reads the vendor, the description and the CWE ids only. */
  type Classifier = (Option<string>, Option<string>, set<string>) -> Option<Domain>

  predicate Accepted(rec: Record) {
    rec.Usable? && ValidContribution(rec.c)
  }

  function Ingest(r: Repo, feed: seq<Record>): Repo {
    if feed == [] then r
    else
      var before, rec := Ingest(r, feed[..|feed| - 1]), feed[|feed| - 1];
      if rec.Usable? then Apply(before, Merged(rec.at, rec.c, true)) else before
  }

  /** Does merging this contribution change a logged field? */
  predicate Changes(r: Repo, rec: Record)
    requires rec.Usable?
  {
    var v := Base(Lookup(r.records, rec.c.cveId), rec.c, rec.at);
    Diff(v, Absorb(v, rec.c, rec.at), rec.c.source, rec.at) != []
  }

  function Tally(r: Repo, feed: seq<Record>): Counts {
    if feed == [] then Counts(0, 0, 0, 0, 0)
    else
      var init, rec := feed[..|feed| - 1], feed[|feed| - 1];
      var t, before := Tally(r, init), Ingest(r, init);
      var n := t.(fetched := t.fetched + 1);
      if rec.AdvisoryOnly? then n.(same := n.same + 1)
      else if !Accepted(rec) then n.(failed := n.failed + 1)
      else if rec.c.cveId !in before.records then n.(created := n.created + 1)
      else if Changes(before, rec) then n.(updated := n.updated + 1)
      else n.(same := n.same + 1)
  }

  function Touched(feed: seq<Record>): set<string> {
    set i | 0 <= i < |feed| && Accepted(feed[i]) :: feed[i].c.cveId
  }

  function Guess(v: Vulnerability, classify: Classifier): Vulnerability {
    v.(domainGuess := classify(v.vendor, v.description, v.cweIds))
  }

  /** Stores the classifier's answer on every touched record. */
  function Reclassify(r: Repo, ids: set<string>, classify: Classifier): Repo {
    r.(records := map id | id in r.records :: if id in ids then Guess(r.records[id], classify) else r.records[id])
  }

  function AfterSync(r: Repo, feed: seq<Record>, fetchFails: bool, regenerate: bool, classify: Classifier): Repo {
    if fetchFails || !regenerate then Ingest(r, feed) else Reclassify(Ingest(r, feed), Touched(feed), classify)
  }

  function StatusOf(counts: Counts, fetchFails: bool): Status {
    if fetchFails then Failed
    else if counts.fetched == 0 || counts.failed == 0 then Completed
    else if counts.failed < counts.fetched then Partial
    else Failed
  }

  class SyncService {

    /** Fetches, merges and logs record by record; `fetchFails` says the stream broke off after `feed`. */
    static method RunSync(repo: VulnerabilityRepository, feed: seq<Record>, fetchFails: bool, regenerate: bool,
                          classify: Classifier) returns (sync: Sync)
      requires ValidRepo(repo.Contents())
      modifies repo
      ensures ValidRepo(repo.Contents())
      ensures repo.Contents() == AfterSync(old(repo.Contents()), feed, fetchFails, regenerate, classify)
      ensures var n := sync.counts;
        && n == Tally(old(repo.Contents()), feed)
        && n.fetched == |feed| == n.created + n.updated + n.same + n.failed
        && n.created == |repo.records| - |old(repo.records)|
        && sync.status == StatusOf(n, fetchFails)
    {
      ghost var start := repo.Contents();
      var counts, touched := ConsumeAll(repo, feed);
      TallyConserves(start, feed);
      if !fetchFails && regenerate {
        Regenerate(repo, touched, classify);
        assert repo.records.Keys == Ingest(start, feed).records.Keys;
        assert |repo.records| == |repo.records.Keys| && |Ingest(start, feed).records| == |Ingest(start, feed).records.Keys|;
      }
      sync := Sync(StatusOf(counts, fetchFails), counts);
    }

    /** The sync loop with its counters. */
    static method ConsumeAll(repo: VulnerabilityRepository, feed: seq<Record>) returns (counts: Counts, touched: set<string>)
      requires ValidRepo(repo.Contents())
      modifies repo
      ensures ValidRepo(repo.Contents()) && repo.Contents() == Ingest(old(repo.Contents()), feed)
      ensures counts == Tally(old(repo.Contents()), feed) && touched == Touched(feed)
    {
      var fetched, created, updated, same, failed := 0, 0, 0, 0, 0;
      touched := {};
      ghost var start := repo.Contents();
      for i := 0 to |feed|
        invariant repo.Contents() == Ingest(start, feed[..i]) && ValidRepo(repo.Contents())
        invariant Counts(fetched, created, updated, same, failed) == Tally(start, feed[..i])
        invariant touched == Touched(feed[..i])
      {
        assert feed[..i + 1][..i] == feed[..i];
        TouchedSnoc(feed, i);
        var outcome := Consume(repo, feed[i], true);
        fetched := fetched + 1;
        match outcome {
          case Rejected => failed := failed + 1;
          case NoCve => same := same + 1;
          case Created => created := created + 1; touched := touched + {feed[i].c.cveId};
          case Updated => updated := updated + 1; touched := touched + {feed[i].c.cveId};
          case Unchanged => same := same + 1; touched := touched + {feed[i].c.cveId};
        }
      }
      assert feed[..|feed|] == feed;
      counts := Counts(fetched, created, updated, same, failed);
    }

    /** The body of the sync loop: look up, merge, upsert, append. Upsert and append are separate commits;
        `survives` says the process lives from the one to the other. */
    static method Consume(repo: VulnerabilityRepository, rec: Record, survives: bool) returns (outcome: Consumed)
      requires ValidRepo(repo.Contents())
      modifies repo
      ensures ValidRepo(repo.Contents())
      ensures repo.Contents() ==
        if rec.Usable? then Apply(old(repo.Contents()), Merged(rec.at, rec.c, survives)) else old(repo.Contents())
      ensures outcome ==
        if rec.AdvisoryOnly? then NoCve
        else if !Accepted(rec) then Rejected
        else if !survives then Died
        else if rec.c.cveId !in old(repo.records) then Created
        else if Changes(old(repo.Contents()), rec) then Updated
        else Unchanged
    {
      if rec.AdvisoryOnly? {
        return NoCve;
      }
      if rec.Unusable? {
        return Rejected;
      }
      var existing := if rec.c.cveId in repo.records then Some(repo.records[rec.c.cveId]) else None;
      var result := Merge(existing, rec.c, rec.at);
      if result.Raised? {
        return Rejected;
      }
      repo.UpsertVulnerability(result.value.vulnerability);
      if !survives {
        return Died;
      }
      repo.AppendHistory(result.value.history);
      if result.value.isNew {
        return Created;
      }
      return if result.value.history != [] then Updated else Unchanged;
    }

    static method Regenerate(repo: VulnerabilityRepository, touched: set<string>, classify: Classifier)
      requires ValidRepo(repo.Contents())
      modifies repo`records
      ensures ValidRepo(repo.Contents())
      ensures repo.Contents() == Reclassify(old(repo.Contents()), touched, classify)
    {
      var todo := touched;
      ghost var start := repo.Contents();
      assert repo.records == Reclassify(start, {}, classify).records;
      while todo != {}
        invariant todo <= touched && ValidRepo(repo.Contents())
        invariant repo.records == Reclassify(start, touched - todo, classify).records
        decreases |todo|
      {
        var id :| id in todo;
        if id in repo.records {
          var v := repo.records[id];
          var domain := classify(v.vendor, v.description, v.cweIds);
          if v.domainGuess != domain {
            repo.UpsertVulnerability(v.(domainGuess := domain));
          }
        }
        todo := todo - {id};
      }
      assert touched - todo == touched;
    }
  }

  datatype Consumed = Rejected | NoCve | Created | Updated | Unchanged | Died

  lemma TouchedSnoc(feed: seq<Record>, i: nat)
    requires i < |feed|
    ensures Touched(feed[..i + 1]) == Touched(feed[..i]) + if Accepted(feed[i]) then {feed[i].c.cveId} else {}
  {
    var a, b := feed[..i], feed[..i + 1];
    forall id | id in Touched(b) ensures id in Touched(a) || (Accepted(feed[i]) && id == feed[i].c.cveId) {
      var j :| 0 <= j < |b| && Accepted(b[j]) && b[j].c.cveId == id;
      if j < i { assert a[j] == b[j]; }
    }
    forall id | id in Touched(a) ensures id in Touched(b) {
      var j :| 0 <= j < |a| && Accepted(a[j]) && a[j].c.cveId == id;
      assert b[j] == a[j];
    }
    if Accepted(feed[i]) { assert b[i] == feed[i]; }
  }

  lemma MergeGrows(r: Repo, rec: Record)
    requires rec.Usable?
    ensures |Apply(r, Merged(rec.at, rec.c, true)).records|
         == |r.records| + if Accepted(rec) && rec.c.cveId !in r.records then 1 else 0
  {
    var after := Apply(r, Merged(rec.at, rec.c, true)).records;
    if Accepted(rec) { UpdateSize(r.records, rec.c.cveId, after[rec.c.cveId]); }
  }

  /** Every fetched record is counted once, and the created ones are exactly the growth of the table. */
  lemma {:induction false} TallyConserves(r: Repo, feed: seq<Record>)
    ensures var n := Tally(r, feed);
      && n.fetched == |feed| == n.created + n.updated + n.same + n.failed
      && |Ingest(r, feed).records| == |r.records| + n.created
  {
    if feed == [] {
    } else {
      var init, rec := feed[..|feed| - 1], feed[|feed| - 1];
      TallyConserves(r, init);
      if rec.Usable? { MergeGrows(Ingest(r, init), rec); }
    }
  }

  lemma UpdateSize<K, V>(m: map<K, V>, k: K, v: V)
    ensures |m[k := v]| == |m| + if k in m then 0 else 1
  {
    var n := m[k := v];
    assert n.Keys == m.Keys + {k};
    assert |n.Keys| == |n| && |m.Keys| == |m|;
    if k in m { assert n.Keys == m.Keys; }
  }
}
