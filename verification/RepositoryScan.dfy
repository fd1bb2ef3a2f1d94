/** From the merges of a repository run to the candidates of the next scan. */
module RepositoryScan {
  import opened Basics
  import opened CveMerge
  import opened CveHistory
  import CveLog
  import opened Regression
  import opened Assurance
  import opened Revalidation
  import opened ScanMeaning

  /** The scan reads the logs of this repository. */
  ghost predicate ReadsLog(w: World, r: Repo) {
    forall cve :: w.historyOf(cve) == GetHistory(r.history, cve)
  }

  /** Event `i` is a merge about the CVE, made after `t`, that lived to log what it did. */
  ghost predicate LoggedMerge(events: seq<Event>, i: int, cve: string, t: Time) {
    0 <= i < |events| && events[i].Merged? && events[i].logged && events[i].c.cveId == cve && events[i].at > t
  }

  /** The stored record of the CVE as event `i` finds it. */
  function Before(events: seq<Event>, i: nat, cve: string): Vulnerability
    requires i <= |events|
  {
    CveLog.Stored(Run(EMPTY, events[..i]), cve)
  }

  /** Event `i` takes the stored EPSS score up or down by at least 0.2. */
  ghost predicate MovesEpss(events: seq<Event>, i: int, cve: string, t: Time) {
    && LoggedMerge(events, i, cve, t)
    && var x, y := Before(events, i, cve).epssScore, Before(events, i + 1, cve).epssScore;
      x.Some? && y.Some? && (y.value - x.value >= 0.2 || x.value - y.value >= 0.2)
  }

  /** Event `i` puts the CVE on the stored KEV list. */
  ghost predicate AddsToKev(events: seq<Event>, i: int, cve: string, t: Time) {
    LoggedMerge(events, i, cve, t) && !Before(events, i, cve).kevListed && Before(events, i + 1, cve).kevListed
  }

  // ------------------------------------------------------------- lines and merges

  lemma {:induction false} HistoryMember(history: seq<Entry>, cve: string, e: Entry)
    ensures e in HistoryOf(history, cve) <==> e in history && e.cveId == cve
  {
    if history == [] {
    } else {
      HistoryMember(history[..|history| - 1], cve, e);
      assert history == history[..|history| - 1] + [history[|history| - 1]];
    }
  }

  lemma ReadMember(w: World, r: Repo, cve: string, e: Entry)
    requires ReadsLog(w, r)
    ensures e in w.historyOf(cve) <==> e in r.history && e.cveId == cve
  {
    HistoryMember(r.history, cve, e);
    OrderMember(OBSERVED, HistoryOf(r.history, cve), e);
  }

  lemma {:induction false} LinesStay(events: seq<Event>, i: nat)
    requires i <= |events|
    ensures Run(EMPTY, events[..i]).history <= Run(EMPTY, events).history
  {
    if i == |events| {
      assert events[..i] == events;
    } else {
      var n := |events| - 1;
      assert events[..n][..i] == events[..i];
      LinesStay(events[..n], i);
      CveLog.HistoryGrows(Run(EMPTY, events[..n]), events[n]);
    }
  }

  lemma OneMore(events: seq<Event>, i: nat)
    requires i < |events|
    ensures Run(EMPTY, events[..i + 1]) == Apply(Run(EMPTY, events[..i]), events[i])
  {
    assert events[..i + 1][..i] == events[..i];
  }

  /** A line of the log is among those of some logged merge. */
  lemma LineToMerge(events: seq<Event>, e: Entry) returns (i: nat)
    requires e in Run(EMPTY, events).history
    ensures i < |events| && events[i].Merged? && events[i].logged && ValidContribution(events[i].c)
    ensures Run(EMPTY, events[..i]).history <= Apply(Run(EMPTY, events[..i]), events[i]).history
    ensures e in CveLog.NewLines(Run(EMPTY, events[..i]), events[i])
  {
    var k :| 0 <= k < |Run(EMPTY, events).history| && Run(EMPTY, events).history[k] == e;
    i := CveLog.EveryLineHasItsMerge(events, k);
    LineAmong(Run(EMPTY, events[..i]).history, Apply(Run(EMPTY, events[..i]), events[i]).history, Run(EMPTY, events).history, k);
  }

  lemma LineAmong(before: seq<Entry>, after: seq<Entry>, all: seq<Entry>, k: nat)
    requires before <= after <= all && |before| <= k < |after|
    ensures all[k] in after[|before|..]
  {
    assert after[|before|..][k - |before|] == all[k];
  }

  /** What a logged merge says of its lines is in the log for good. */
  lemma MergeToLines(events: seq<Event>, i: nat)
    requires i < |events| && events[i].Merged? && events[i].logged && ValidContribution(events[i].c)
    ensures Run(EMPTY, events[..i]).history <= Apply(Run(EMPTY, events[..i]), events[i]).history
    ensures CveLog.Accounted(Run(EMPTY, events[..i]), events[i])
    ensures forall e :: e in CveLog.NewLines(Run(EMPTY, events[..i]), events[i]) ==> e in Run(EMPTY, events).history
    ensures Run(EMPTY, events[..i + 1]) == Apply(Run(EMPTY, events[..i]), events[i])
  {
    CveLog.LinesAreAccounts(events[..i], events[i]);
    OneMore(events, i);
    LinesStay(events, i + 1);
  }

  lemma RefusedChangesNothing(events: seq<Event>, i: nat)
    requires i < |events| && events[i].Merged? && !ValidContribution(events[i].c)
    ensures Run(EMPTY, events[..i + 1]) == Run(EMPTY, events[..i])
  {
    OneMore(events, i);
  }

  lemma EpssLineHasMove(w: World, events: seq<Event>, last: Validation, cve: string, e: Entry) returns (i: nat)
    requires ReadsLog(w, Run(EMPTY, events)) && EpssLine(w, last, cve, e)
    ensures MovesEpss(events, i, cve, last.validatedAt)
  {
    ReadMember(w, Run(EMPTY, events), cve, e);
    i := LineToMerge(events, e);
    MergeToLines(events, i);
    var r, v := Run(EMPTY, events[..i]), events[i];
    var id := v.c.cveId;
    CveLog.TheLine(CveLog.NewLines(r, v), e,
      CveLog.Move(v, EpssScore, CveLog.Stored(r, id).epssScore, CveLog.Stored(Apply(r, v), id).epssScore, x => Score(x)));
  }

  lemma MoveHasEpssLine(w: World, events: seq<Event>, last: Validation, cve: string, i: int) returns (e: Entry)
    requires ReadsLog(w, Run(EMPTY, events)) && MovesEpss(events, i, cve, last.validatedAt)
    ensures EpssLine(w, last, cve, e)
  {
    if !ValidContribution(events[i].c) { RefusedChangesNothing(events, i); }
    MergeToLines(events, i);
    var r, v := Run(EMPTY, events[..i]), events[i];
    var x, y := CveLog.Stored(r, cve).epssScore, CveLog.Stored(Apply(r, v), cve).epssScore;
    e := Entry(cve, v.c.source, EpssScore, Some(Score(x.value)), Score(y.value), v.at);
    assert CveLog.Move(v, EpssScore, x, y, x => Score(x)) == Some(e);
    assert e in CveLog.NewLines(r, v);
    ReadMember(w, Run(EMPTY, events), cve, e);
  }

  lemma KevLineHasMove(w: World, events: seq<Event>, last: Validation, cve: string, e: Entry) returns (i: nat)
    requires ReadsLog(w, Run(EMPTY, events)) && KevLine(w, last, cve, e)
    ensures AddsToKev(events, i, cve, last.validatedAt)
  {
    ReadMember(w, Run(EMPTY, events), cve, e);
    i := LineToMerge(events, e);
    MergeToLines(events, i);
    var r, v := Run(EMPTY, events[..i]), events[i];
    var id := v.c.cveId;
    CveLog.TheLine(CveLog.NewLines(r, v), e,
      CveLog.Move(v, KevListed, Some(CveLog.Stored(r, id).kevListed), Some(CveLog.Stored(Apply(r, v), id).kevListed), x => Flag(x)));
  }

  lemma MoveHasKevLine(w: World, events: seq<Event>, last: Validation, cve: string, i: int) returns (e: Entry)
    requires ReadsLog(w, Run(EMPTY, events)) && AddsToKev(events, i, cve, last.validatedAt)
    ensures KevLine(w, last, cve, e)
  {
    if !ValidContribution(events[i].c) { RefusedChangesNothing(events, i); }
    MergeToLines(events, i);
    var r, v := Run(EMPTY, events[..i]), events[i];
    e := Entry(cve, v.c.source, KevListed, Some(Flag(false)), Flag(true), v.at);
    assert CveLog.Move(v, KevListed, Some(false), Some(true), x => Flag(x)) == Some(e);
    assert e in CveLog.NewLines(r, v);
    ReadMember(w, Run(EMPTY, events), cve, e);
  }

  // ------------------------------------------------------------------ to the scan

  ghost predicate EpssMovedSince(events: seq<Event>, cve: string, t: Time) {
    exists i :: MovesEpss(events, i, cve, t)
  }

  ghost predicate KevAddedSince(events: seq<Event>, cve: string, t: Time) {
    exists i :: AddsToKev(events, i, cve, t)
  }


  /** A related CVE's stored EPSS score moved by at least 0.2 since the newest validation. */
  ghost predicate EpssCalls(w: World, events: seq<Event>, rows: seq<Validation>, control: string) {
    control in w.controls && exists i, cve :: NewestOf(rows, control, i) && RelatedTo(w, rows[i], cve)
                                              && EpssMovedSince(events, cve, rows[i].validatedAt)
  }

  /** A related CVE was put on the stored KEV list since the newest validation. */
  ghost predicate KevCalls(w: World, events: seq<Event>, rows: seq<Validation>, control: string) {
    control in w.controls && exists i, cve :: NewestOf(rows, control, i) && RelatedTo(w, rows[i], cve)
                                              && KevAddedSince(events, cve, rows[i].validatedAt)
  }

  lemma WantedForEpss(w: World, events: seq<Event>, rows: seq<Validation>, now: Time, window: int, control: string)
    requires ReadsLog(w, Run(EMPTY, events))
    ensures Wanted(w, rows, now, window, Key(control, EpssMaterialChange)) <==> EpssCalls(w, events, rows, control)
  {
    var k := Key(control, EpssMaterialChange);
    if Wanted(w, rows, now, window, k) {
      var i :| NewestOf(rows, control, i) && Grounds(w, rows, rows[i], now, window, k);
      var cve, e :| RelatedTo(w, rows[i], cve) && EpssLine(w, rows[i], cve, e);
      var j := EpssLineHasMove(w, events, rows[i], cve, e);
    }
    if EpssCalls(w, events, rows, control) {
      var i, cve :| NewestOf(rows, control, i) && RelatedTo(w, rows[i], cve) && EpssMovedSince(events, cve, rows[i].validatedAt);
      var j :| MovesEpss(events, j, cve, rows[i].validatedAt);
      var e := MoveHasEpssLine(w, events, rows[i], cve, j);
      assert Grounds(w, rows, rows[i], now, window, k);
    }
  }

  lemma WantedForKev(w: World, events: seq<Event>, rows: seq<Validation>, now: Time, window: int, control: string)
    requires ReadsLog(w, Run(EMPTY, events))
    ensures Wanted(w, rows, now, window, Key(control, KevStateChange)) <==> KevCalls(w, events, rows, control)
  {
    var k := Key(control, KevStateChange);
    if Wanted(w, rows, now, window, k) {
      var i :| NewestOf(rows, control, i) && Grounds(w, rows, rows[i], now, window, k);
      var cve, e :| RelatedTo(w, rows[i], cve) && KevLine(w, rows[i], cve, e);
      var j := KevLineHasMove(w, events, rows[i], cve, e);
    }
    if KevCalls(w, events, rows, control) {
      var i, cve :| NewestOf(rows, control, i) && RelatedTo(w, rows[i], cve) && KevAddedSince(events, cve, rows[i].validatedAt);
      var j :| AddsToKev(events, j, cve, rows[i].validatedAt);
      var e := MoveHasKevLine(w, events, rows[i], cve, j);
      assert Grounds(w, rows, rows[i], now, window, k);
    }
  }

  /** From the runs of the repository to the scan: after a scan that returns normally an EPSS candidate
      awaits a decision exactly when one did before, or a merge that was logged after the control's newest
      validation moved the stored EPSS score of a related CVE by 0.2 or more, up or down; and a KEV
      candidate exactly when one did before, or such a merge put a related CVE on the stored KEV list. */
  lemma ScanFollowsRepository(w: World, events: seq<Event>, rows: seq<Validation>, now: Time, window: int,
                              before: seq<Candidate>, after: seq<Candidate>, control: string)
    requires ReadsLog(w, Run(EMPTY, events)) && Swept(rows, before, after, Fired(w, rows, now, window), true)
    ensures var k := Key(control, EpssMaterialChange);
      AwaitsDecision(after, k) <==> AwaitsDecision(before, k) || EpssCalls(w, events, rows, control)
    ensures var k := Key(control, KevStateChange);
      AwaitsDecision(after, k) <==> AwaitsDecision(before, k) || KevCalls(w, events, rows, control)
    ensures before <= after && forall i :: |before| <= i < |after| ==>
      && (after[i].key.trigger == EpssMaterialChange ==> EpssCalls(w, events, rows, after[i].key.controlId))
      && (after[i].key.trigger == KevStateChange ==> KevCalls(w, events, rows, after[i].key.controlId))
  {
    ScanCreatesWhatIsWanted(w, rows, now, window, before, after);
    forall c { WantedForEpss(w, events, rows, now, window, c); }
    forall c { WantedForKev(w, events, rows, now, window, c); }
    forall i | |before| <= i < |after|
      ensures after[i].key.trigger == EpssMaterialChange ==> EpssCalls(w, events, rows, after[i].key.controlId)
      ensures after[i].key.trigger == KevStateChange ==> KevCalls(w, events, rows, after[i].key.controlId)
    {
      assert after[i].key == Key(after[i].key.controlId, after[i].key.trigger);
      assert Wanted(w, rows, now, window, after[i].key);
    }
  }
}
