/** What the lines of the change log say, read against the stored records (intelligence/dedup.py). */
module CveLog {
  import opened Basics
  import opened CveMerge
  import opened CveHistory

  /** The lines an event adds to the log. */
  function NewLines(r: Repo, e: Event): seq<Entry>
    requires r.history <= Apply(r, e).history
  {
    Apply(r, e).history[|r.history|..]
  }

  /** Exactly this line, if any, is about the field. */
  ghost predicate OnlyLine(lines: seq<Entry>, f: Field, line: Option<Entry>) {
    match line
    case None => forall i :: 0 <= i < |lines| ==> lines[i].field != f
    case Some(x) => exists i :: 0 <= i < |lines| && lines[i] == x && forall j :: 0 <= j < |lines| && lines[j].field == f ==> j == i
  }

  /** The line of a field that goes from `x` to `y`, when that is a change. */
  function Move<T(==)>(e: Event, f: Field, x: Option<T>, y: Option<T>, show: T -> FieldValue): Option<Entry>
    requires e.Merged?
  {
    if y.None? || y == x then None
    else Some(Entry(e.c.cveId, e.c.source, f, if x.Some? then Some(show(x.value)) else None, show(y.value), e.at))
  }

  /** The stored record; a CVE that is not stored reads as a blank one. */
  function Stored(r: Repo, cveId: string): Vulnerability {
    if cveId in r.records then r.records[cveId] else Blank(cveId, 0)
  }

  /** Field by field, one line for each change of the stored record and none for the others; the line
      carries the CVE, the source, the time, the value before and the value after. */
  ghost predicate Accounted(r: Repo, e: Event)
    requires e.Merged? && r.history <= Apply(r, e).history
  {
    var v, w, lines := Stored(r, e.c.cveId), Stored(Apply(r, e), e.c.cveId), NewLines(r, e);
    && OnlyLine(lines, Description, Move(e, Description, v.description, w.description, x => Text(x)))
    && OnlyLine(lines, CvssScore, Move(e, CvssScore, v.cvssScore, w.cvssScore, x => Score(x)))
    && OnlyLine(lines, EpssScore, Move(e, EpssScore, v.epssScore, w.epssScore, x => Score(x)))
    && OnlyLine(lines, KevListed, Move(e, KevListed, Some(v.kevListed), Some(w.kevListed), x => Flag(x)))
    && OnlyLine(lines, KevDateAdded, Move(e, KevDateAdded, v.kevDateAdded, w.kevDateAdded, x => Day(x)))
    && OnlyLine(lines, KevDueDate, Move(e, KevDueDate, v.kevDueDate, w.kevDueDate, x => Day(x)))
    && OnlyLine(lines, ZeroClickRelevance, Move(e, ZeroClickRelevance, v.relevance, w.relevance, x => Level(x)))
  }

  /** The order in which the fields are visited. */
  function Place(f: Field): nat {
    match f
    case Description => 0
    case CvssScore => 1
    case EpssScore => 2
    case KevListed => 3
    case KevDateAdded => 4
    case KevDueDate => 5
    case ZeroClickRelevance => 6
  }

  ghost predicate InOrder(lines: seq<Entry>) {
    forall i, j :: 0 <= i < j < |lines| ==> Place(lines[i].field) < Place(lines[j].field)
  }

  lemma {:induction false} DiffInOrder(v: Vulnerability, w: Vulnerability, source: Source, now: Time, k: nat)
    requires k <= 7
    ensures var lines := DiffUpTo(v, w, source, now, k);
      InOrder(lines) && forall i :: 0 <= i < |lines| ==> Place(lines[i].field) < k
  {
    if k > 0 {
      DiffInOrder(v, w, source, now, k - 1);
      assert Place(FIELDS[k - 1]) == k - 1;
    }
  }

  lemma HistoryGrows(r: Repo, e: Event)
    ensures r.history <= Apply(r, e).history
    ensures e.Classified? || !ValidContribution(e.c) || !e.logged ==> NewLines(r, e) == []
  {
  }

  /** The log line of one field stands alone among the lines of a difference. */
  lemma {:induction false} OnlyChange(v: Vulnerability, w: Vulnerability, source: Source, now: Time, f: Field, k: nat)
    requires k <= 7
    ensures var change := ChangeOf(v, w, source, now, f);
      OnlyLine(DiffUpTo(v, w, source, now, k), f, if Rank(f) < k && change != [] then Some(change[0]) else None)
  {
    if k == 0 {
    } else {
      var g := FIELDS[k - 1];
      var init, last := DiffUpTo(v, w, source, now, k - 1), ChangeOf(v, w, source, now, g);
      OnlyChange(v, w, source, now, f, k - 1);
      assert Rank(g) == k - 1 && (Rank(f) == k - 1 <==> f == g);
      OnlySnoc(init, last, f, g, if Rank(f) < k - 1 && ChangeOf(v, w, source, now, f) != [] then Some(ChangeOf(v, w, source, now, f)[0]) else None);
    }
  }

  lemma OnlySnoc(init: seq<Entry>, last: seq<Entry>, f: Field, g: Field, line: Option<Entry>)
    requires OnlyLine(init, f, line) && |last| <= 1 && forall i :: 0 <= i < |last| ==> last[i].field == g
    requires f == g ==> line.None?
    ensures OnlyLine(init + last, f, if f == g && last != [] then Some(last[0]) else line)
  {
    var all := init + last;
    if f == g && last != [] {
      assert all[|init|] == last[0];
    } else if line.Some? {
      var i :| 0 <= i < |init| && init[i] == line.value && forall j :: 0 <= j < |init| && init[j].field == f ==> j == i;
      assert all[i] == line.value;
    }
  }

  function LineOf(v: Vulnerability, w: Vulnerability, e: Event, f: Field): Option<Entry>
    requires e.Merged?
  {
    var change := ChangeOf(v, w, e.c.source, e.at, f);
    if change != [] then Some(change[0]) else None
  }

  lemma LinesAlone(v: Vulnerability, w: Vulnerability, e: Event, lines: seq<Entry>, f: Field)
    requires e.Merged? && lines == Diff(v, w, e.c.source, e.at)
    ensures OnlyLine(lines, f, LineOf(v, w, e, f))
  {
    DiffIsAll(v, w, e.c.source, e.at);
    OnlyChange(v, w, e.c.source, e.at, f, 7);
  }

  /** What is a change of a logged field is a move of the stored value. */
  lemma MovesAreLines(v: Vulnerability, w: Vulnerability, e: Event)
    requires e.Merged? && v.cveId == e.c.cveId && w == Absorb(v, e.c, e.at)
    ensures LineOf(v, w, e, Description) == Move(e, Description, v.description, w.description, x => Text(x))
    ensures LineOf(v, w, e, CvssScore) == Move(e, CvssScore, v.cvssScore, w.cvssScore, x => Score(x))
    ensures LineOf(v, w, e, EpssScore) == Move(e, EpssScore, v.epssScore, w.epssScore, x => Score(x))
    ensures LineOf(v, w, e, KevListed) == Move(e, KevListed, Some(v.kevListed), Some(w.kevListed), x => Flag(x))
  {
  }

  lemma MoreMovesAreLines(v: Vulnerability, w: Vulnerability, e: Event)
    requires e.Merged? && v.cveId == e.c.cveId && w == Absorb(v, e.c, e.at)
    ensures LineOf(v, w, e, KevDateAdded) == Move(e, KevDateAdded, v.kevDateAdded, w.kevDateAdded, x => Day(x))
    ensures LineOf(v, w, e, KevDueDate) == Move(e, KevDueDate, v.kevDueDate, w.kevDueDate, x => Day(x))
    ensures LineOf(v, w, e, ZeroClickRelevance) == Move(e, ZeroClickRelevance, v.relevance, w.relevance, x => Level(x))
  {
  }

  /** A CVE that was not stored is merged into a record that only the time tells from a blank one. */
  lemma StoredBefore(r: Repo, e: Event)
    requires ValidRepo(r) && e.Merged? && ValidContribution(e.c)
    ensures var v := Base(Lookup(r.records, e.c.cveId), e.c, e.at);
      && Stored(Apply(r, e), e.c.cveId) == Absorb(v, e.c, e.at) && v.cveId == e.c.cveId
      && Stored(r, e.c.cveId) == v.(firstSeenAt := Stored(r, e.c.cveId).firstSeenAt, lastUpdatedAt := Stored(r, e.c.cveId).lastUpdatedAt)
  {
  }

  /** Over every run: a merge that logs what it does accounts for every change of the stored record, in
      the order of the fields. */
  lemma LinesAreAccounts(events: seq<Event>, e: Event)
    requires e.Merged? && e.logged && ValidContribution(e.c)
    ensures var r := Run(EMPTY, events); r.history <= Apply(r, e).history && Accounted(r, e) && InOrder(NewLines(r, e))
  {
    RunIsValid(EMPTY, events);
    HistoryGrows(Run(EMPTY, events), e);
    Accounts(Run(EMPTY, events), e);
    LinesInOrder(Run(EMPTY, events), e);
  }

  lemma LinesInOrder(r: Repo, e: Event)
    requires e.Merged? && e.logged && ValidContribution(e.c) && r.history <= Apply(r, e).history
    ensures InOrder(NewLines(r, e))
  {
    var v := Base(Lookup(r.records, e.c.cveId), e.c, e.at);
    var w := Absorb(v, e.c, e.at);
    assert NewLines(r, e) == Diff(v, w, e.c.source, e.at);
    DiffIsAll(v, w, e.c.source, e.at);
    DiffInOrder(v, w, e.c.source, e.at, 7);
  }

  lemma Accounts(r: Repo, e: Event)
    requires ValidRepo(r) && e.Merged? && e.logged && ValidContribution(e.c) && r.history <= Apply(r, e).history
    ensures Accounted(r, e)
  {
    var v := Base(Lookup(r.records, e.c.cveId), e.c, e.at);
    var w := Absorb(v, e.c, e.at);
    var lines := NewLines(r, e);
    assert lines == Diff(v, w, e.c.source, e.at);
    StoredBefore(r, e);
    forall f ensures OnlyLine(lines, f, LineOf(v, w, e, f)) { LinesAlone(v, w, e, lines, f); }
    MovesAreLines(v, w, e);
    MoreMovesAreLines(v, w, e);
  }

  /** Every line of the log was written by a merge that lived to log it. */
  lemma {:induction false} EveryLineHasItsMerge(events: seq<Event>, k: nat) returns (i: nat)
    requires k < |Run(EMPTY, events).history|
    ensures i < |events| && events[i].Merged? && events[i].logged && ValidContribution(events[i].c)
    ensures var r := Run(EMPTY, events[..i]);
      && r.history <= Apply(r, events[i]).history <= Run(EMPTY, events).history
      && |r.history| <= k < |Apply(r, events[i]).history|
  {
    var n := |events| - 1;
    var r := Run(EMPTY, events[..n]);
    HistoryGrows(r, events[n]);
    if k < |r.history| {
      i := EveryLineHasItsMerge(events[..n], k);
      assert events[..n][..i] == events[..i];
    } else {
      i := n;
    }
  }

  /** A line that nothing is missing before records as the old value what the lines before it show. */
  lemma OldValueIsReplayed(events: seq<Event>, e: Event, x: Entry)
    requires e.Merged? && e.logged && ValidContribution(e.c) && Clocked(events + [e])
    requires Run(EMPTY, events).history <= Apply(Run(EMPTY, events), e).history
    requires x in NewLines(Run(EMPTY, events), e) && LostSince(events, e.c.cveId, x.field).None?
    ensures x.oldValue == Shown(Replay(map[], LogOf(events, e.c.cveId), e.at), x.field)
  {
    var r := Run(EMPTY, events);
    forall i | 0 <= i < |events| && events[i].Merged? ensures events[i].at <= e.at {
      assert (events + [e])[i] == events[i] && (events + [e])[|events|] == e;
    }
    LogShows(events, e.c.cveId, x.field, e.at);
    LinesAreAccounts(events, e);
    assert Logged(events, e.c.cveId, x.field) == ValueOf(r, e.c.cveId, x.field);
    OldValueOf(r, e, x);
  }

  lemma OldValueOf(r: Repo, e: Event, x: Entry)
    requires e.Merged? && r.history <= Apply(r, e).history && Accounted(r, e) && x in NewLines(r, e)
    ensures x.oldValue == ValueOf(r, e.c.cveId, x.field)
  {
    var lines, v, w := NewLines(r, e), Stored(r, e.c.cveId), Stored(Apply(r, e), e.c.cveId);
    match x.field
    case Description => TheLine(lines, x, Move(e, Description, v.description, w.description, x => Text(x)));
    case CvssScore => TheLine(lines, x, Move(e, CvssScore, v.cvssScore, w.cvssScore, x => Score(x)));
    case EpssScore => TheLine(lines, x, Move(e, EpssScore, v.epssScore, w.epssScore, x => Score(x)));
    case KevListed => TheLine(lines, x, Move(e, KevListed, Some(v.kevListed), Some(w.kevListed), x => Flag(x)));
    case KevDateAdded => TheLine(lines, x, Move(e, KevDateAdded, v.kevDateAdded, w.kevDateAdded, x => Day(x)));
    case KevDueDate => TheLine(lines, x, Move(e, KevDueDate, v.kevDueDate, w.kevDueDate, x => Day(x)));
    case ZeroClickRelevance => TheLine(lines, x, Move(e, ZeroClickRelevance, v.relevance, w.relevance, x => Level(x)));
  }

  lemma TheLine(lines: seq<Entry>, x: Entry, line: Option<Entry>)
    requires x in lines && OnlyLine(lines, x.field, line)
    ensures line == Some(x)
  {
  }

  /** Whatever was fed in, stored scores are in range. */
  lemma {:induction false} ScoresInRange(events: seq<Event>, cveId: string)
    requires cveId in Run(EMPTY, events).records
    ensures var v := Run(EMPTY, events).records[cveId];
      && (v.cvssScore.Some? ==> 0.0 <= v.cvssScore.value <= 10.0)
      && (v.epssScore.Some? ==> 0.0 <= v.epssScore.value <= 1.0)
      && (v.epssPercentile.Some? ==> 0.0 <= v.epssPercentile.value <= 1.0)
  {
    RunIsValid(EMPTY, events);
  }
}
