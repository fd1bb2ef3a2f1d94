/** The vulnerability repository, its change log and point-in-time replay (intelligence/repository.py). */
module CveHistory {
  import opened Basics
  import opened CveMerge

  datatype Repo = Repo(records: map<string, Vulnerability>, history: seq<Entry>)

  const EMPTY := Repo(map[], [])

  /** What happens to the repository: a sync merges a contribution, or stores a domain guess. A merge
      stores the record and then appends its log lines; `logged` says that it lived to do so. */
  datatype Event = Merged(at: Time, c: Contribution, logged: bool) | Classified(cveId: string, domain: Option<Domain>)

  function Lookup(records: map<string, Vulnerability>, cveId: string): Option<Vulnerability> {
    if cveId in records then Some(records[cveId]) else None
  }

  function Apply(r: Repo, e: Event): Repo {
    match e
    case Merged(at, c, logged) =>
      if !ValidContribution(c) then r
      else
        var v := Base(Lookup(r.records, c.cveId), c, at);
        var w := Absorb(v, c, at);
        Repo(r.records[c.cveId := w], r.history + if logged then Diff(v, w, c.source, at) else [])
    case Classified(cveId, domain) =>
      if cveId in r.records then r.(records := r.records[cveId := r.records[cveId].(domainGuess := domain)]) else r
  }

  function Run(r: Repo, events: seq<Event>): Repo {
    if events == [] then r else Apply(Run(r, events[..|events| - 1]), events[|events| - 1])
  }

  ghost predicate ValidRepo(r: Repo) {
    forall id :: id in r.records ==> r.records[id].cveId == id && ValidVulnerability(r.records[id])
  }

  lemma {:induction false} RunIsValid(r: Repo, events: seq<Event>)
    requires ValidRepo(r)
    ensures ValidRepo(Run(r, events))
  {
    if events == [] {
    } else {
      RunIsValid(r, events[..|events| - 1]);
    }
  }

  // --------------------------------------------------------------- queries

  function HistoryOf(history: seq<Entry>, cveId: string): seq<Entry> {
    if history == [] then []
    else HistoryOf(history[..|history| - 1], cveId)
         + (if history[|history| - 1].cveId == cveId then [history[|history| - 1]] else [])
  }

  const OBSERVED: Entry -> Time := (e: Entry) => e.observedAt

  /** The rows of one CVE, ordered by observation time and then by row id. */
  function GetHistory(history: seq<Entry>, cveId: string): seq<Entry> {
    OrderByTime(OBSERVED, HistoryOf(history, cveId))
  }

  /** Replays log rows up to `t`, the latest value of a field winning. */
  function Replay(m: map<Field, FieldValue>, rows: seq<Entry>, t: Time): map<Field, FieldValue> {
    if rows == [] then m
    else
      var before, last := Replay(m, rows[..|rows| - 1], t), rows[|rows| - 1];
      if last.observedAt <= t then before[last.field := last.newValue] else before
  }

  /** The repository as an object: a table of records and an append-only log. */
  class VulnerabilityRepository {
    var records: map<string, Vulnerability>
    var history: seq<Entry>

    function Contents(): Repo
      reads this
    {
      Repo(records, history)
    }

    constructor ()
      ensures Contents() == EMPTY
    {
      records, history := map[], [];
    }

    method UpsertVulnerability(v: Vulnerability)
      modifies this`records
      ensures records == old(records)[v.cveId := v]
    {
      records := records[v.cveId := v];
    }

    method AppendHistory(entries: seq<Entry>)
      modifies this`history
      ensures history == old(history) + entries
    {
      for i := 0 to |entries|
        invariant history == old(history) + entries[..i]
      {
        history := history + [entries[i]];
      }
      assert entries[..|entries|] == entries;
    }

    /** One pass over the CVE's log; `None` when nothing was observed by then. */
    method GetVulnerabilityAsOf(cveId: string, t: Time) returns (asOf: Option<map<Field, FieldValue>>)
      ensures asOf == AsOf(history, cveId, t)
    {
      var rows := GetHistory(history, cveId);
      var fields: map<Field, FieldValue> := map[];
      var seenAny := false;
      for i := 0 to |rows|
        invariant fields == Replay(map[], rows[..i], t)
        invariant seenAny <==> exists j :: 0 <= j < i && rows[j].observedAt <= t
      {
        assert rows[..i + 1][..i] == rows[..i];
        if rows[i].observedAt <= t {
          fields := fields[rows[i].field := rows[i].newValue];
          seenAny := true;
        }
      }
      assert rows[..|rows|] == rows;
      ReplayEmptyIff(rows, t);
      asOf := if seenAny then Some(fields) else None;
    }
  }

  // ---------------------------------------------------- replaying one merge

  function Initial(f: Field): Option<FieldValue> {
    if f.KevListed? then Some(Flag(false)) else None
  }

  predicate Changed(v: Vulnerability, w: Vulnerability, f: Field) {
    Tracked(w, f).Some? && Tracked(w, f) != Tracked(v, f)
  }

  /** Where the merge visits a field. */
  function Rank(f: Field): nat {
    match f
    case Description => 0 case CvssScore => 1 case EpssScore => 2 case KevListed => 3
    case KevDateAdded => 4 case KevDueDate => 5 case ZeroClickRelevance => 6
  }

  /** The new values of the changed ones among the first `k` fields. */
  function ChangesUpTo(v: Vulnerability, w: Vulnerability, k: nat): map<Field, FieldValue> {
    map f: Field | Rank(f) < k && Changed(v, w, f) :: Tracked(w, f).value
  }

  lemma {:induction false} ReplayConcat(m: map<Field, FieldValue>, a: seq<Entry>, b: seq<Entry>, t: Time)
    ensures Replay(m, a + b, t) == Replay(Replay(m, a, t), b, t)
  {
    if b == [] {
      assert a + b == a;
    } else {
      ReplayConcat(m, a, b[..|b| - 1], t);
      assert (a + b)[..|a + b| - 1] == a + b[..|b| - 1];
    }
  }

  lemma ReplayLine(m: map<Field, FieldValue>, v: Vulnerability, w: Vulnerability, source: Source, now: Time, f: Field, t: Time)
    requires now <= t
    ensures Replay(m, ChangeOf(v, w, source, now, f), t) == if Changed(v, w, f) then m[f := Tracked(w, f).value] else m
  {
    var change := ChangeOf(v, w, source, now, f);
    if change != [] { assert change[..0] == []; }
  }

  lemma OverlayNext(m: map<Field, FieldValue>, v: Vulnerability, w: Vulnerability, f: Field)
    ensures var done := m + ChangesUpTo(v, w, Rank(f));
      m + ChangesUpTo(v, w, Rank(f) + 1) == if Changed(v, w, f) then done[f := Tracked(w, f).value] else done
  {
    assert forall g: Field :: Rank(g) < Rank(f) + 1 <==> Rank(g) < Rank(f) || g == f;
    var before, after := ChangesUpTo(v, w, Rank(f)), ChangesUpTo(v, w, Rank(f) + 1);
    assert after == if Changed(v, w, f) then before[f := Tracked(w, f).value] else before;
  }

  lemma ReplayOne(m: map<Field, FieldValue>, rows: seq<Entry>, v: Vulnerability, w: Vulnerability, source: Source,
                  now: Time, f: Field, t: Time)
    requires now <= t && Replay(m, rows, t) == m + ChangesUpTo(v, w, Rank(f))
    ensures Replay(m, rows + ChangeOf(v, w, source, now, f), t) == m + ChangesUpTo(v, w, Rank(f) + 1)
  {
    ReplayConcat(m, rows, ChangeOf(v, w, source, now, f), t);
    ReplayLine(Replay(m, rows, t), v, w, source, now, f, t);
    OverlayNext(m, v, w, f);
  }

  const FIELDS := [Description, CvssScore, EpssScore, KevListed, KevDateAdded, KevDueDate, ZeroClickRelevance]

  /** The log lines of the first `k` fields. */
  function DiffUpTo(v: Vulnerability, w: Vulnerability, source: Source, now: Time, k: nat): seq<Entry>
    requires k <= 7
  {
    if k == 0 then [] else DiffUpTo(v, w, source, now, k - 1) + ChangeOf(v, w, source, now, FIELDS[k - 1])
  }

  lemma {:induction false} ReplayLines(m: map<Field, FieldValue>, v: Vulnerability, w: Vulnerability, source: Source,
                                       now: Time, t: Time, k: nat)
    requires now <= t && k <= 7
    ensures Replay(m, DiffUpTo(v, w, source, now, k), t) == m + ChangesUpTo(v, w, k)
  {
    if k == 0 {
      assert m + ChangesUpTo(v, w, 0) == m;
    } else {
      var f := FIELDS[k - 1];
      assert Rank(f) == k - 1;
      ReplayLines(m, v, w, source, now, t, k - 1);
      ReplayOne(m, DiffUpTo(v, w, source, now, k - 1), v, w, source, now, f, t);
    }
  }

  lemma DiffIsAll(v: Vulnerability, w: Vulnerability, source: Source, now: Time)
    ensures Diff(v, w, source, now) == DiffUpTo(v, w, source, now, 7)
  {
    assert DiffUpTo(v, w, source, now, 1) == ChangeOf(v, w, source, now, Description);
    assert DiffUpTo(v, w, source, now, 3) == DiffUpTo(v, w, source, now, 1)
      + ChangeOf(v, w, source, now, CvssScore) + ChangeOf(v, w, source, now, EpssScore);
    assert DiffUpTo(v, w, source, now, 5) == DiffUpTo(v, w, source, now, 3)
      + ChangeOf(v, w, source, now, KevListed) + ChangeOf(v, w, source, now, KevDateAdded);
  }

  /** Replaying the log lines of a merge overwrites exactly the fields it changed, whatever was there. */
  lemma ReplayDiff(m: map<Field, FieldValue>, v: Vulnerability, w: Vulnerability, source: Source, now: Time, t: Time)
    requires now <= t
    ensures var r := Replay(m, Diff(v, w, source, now), t); forall f ::
      if Changed(v, w, f) then f in r && Some(r[f]) == Tracked(w, f)
      else (f in r <==> f in m) && (f in m ==> r[f] == m[f])
  {
    DiffIsAll(v, w, source, now);
    ReplayLines(m, v, w, source, now, t, 7);
  }

  // ----------------------------------------------------------- log and record

  lemma {:induction false} HistoryOfConcat(a: seq<Entry>, b: seq<Entry>, cveId: string)
    ensures HistoryOf(a + b, cveId) == HistoryOf(a, cveId) + HistoryOf(b, cveId)
  {
    if b == [] {
      assert a + b == a;
    } else {
      HistoryOfConcat(a, b[..|b| - 1], cveId);
      assert (a + b)[..|a + b| - 1] == a + b[..|b| - 1];
    }
  }

  /** Log lines that all belong to one CVE, or all to other CVEs. */
  lemma {:induction false} HistoryOfUniform(rows: seq<Entry>, id: string, cveId: string)
    requires forall i :: 0 <= i < |rows| ==> rows[i].cveId == id
    ensures HistoryOf(rows, cveId) == if id == cveId then rows else []
  {
    if rows == [] {
    } else {
      HistoryOfUniform(rows[..|rows| - 1], id, cveId);
      assert rows == rows[..|rows| - 1] + [rows[|rows| - 1]];
    }
  }

  /** The rows are all of one CVE and of one instant. */
  ghost predicate Uniform(rows: seq<Entry>, cveId: string, at: Time) {
    forall i :: 0 <= i < |rows| ==> rows[i].cveId == cveId && rows[i].observedAt == at
  }

  lemma UniformConcat(a: seq<Entry>, b: seq<Entry>, cveId: string, at: Time)
    requires Uniform(a, cveId, at) && Uniform(b, cveId, at)
    ensures Uniform(a + b, cveId, at)
  {
  }

  lemma {:induction false} DiffUpToRows(v: Vulnerability, w: Vulnerability, source: Source, now: Time, k: nat)
    requires k <= 7
    ensures Uniform(DiffUpTo(v, w, source, now, k), w.cveId, now)
  {
    if k == 0 {
    } else {
      DiffUpToRows(v, w, source, now, k - 1);
      UniformConcat(DiffUpTo(v, w, source, now, k - 1), ChangeOf(v, w, source, now, FIELDS[k - 1]), w.cveId, now);
    }
  }

  lemma DiffRows(v: Vulnerability, w: Vulnerability, source: Source, now: Time)
    ensures Uniform(Diff(v, w, source, now), w.cveId, now)
  {
    DiffIsAll(v, w, source, now);
    DiffUpToRows(v, w, source, now, 7);
  }

  /** The lines an event appends to the log: all of its CVE and time. */
  function Lines(r: Repo, e: Event): seq<Entry> {
    if e.Merged? && ValidContribution(e.c) && e.logged then
      var v := Base(Lookup(r.records, e.c.cveId), e.c, e.at);
      Diff(v, Absorb(v, e.c, e.at), e.c.source, e.at)
    else []
  }

  lemma LinesRows(r: Repo, e: Event)
    requires ValidRepo(r)
    ensures Apply(r, e).history == r.history + Lines(r, e)
    ensures Lines(r, e) != [] ==> e.Merged?
    ensures forall i :: 0 <= i < |Lines(r, e)| ==> Lines(r, e)[i].cveId == e.c.cveId && Lines(r, e)[i].observedAt == e.at
  {
    if Lines(r, e) != [] {
      var v := Base(Lookup(r.records, e.c.cveId), e.c, e.at);
      DiffRows(v, Absorb(v, e.c, e.at), e.c.source, e.at);
    }
  }

  /** The clock read by successive merges never runs backwards. */
  ghost predicate Clocked(events: seq<Event>) {
    forall i, j :: 0 <= i < j < |events| && events[i].Merged? && events[j].Merged? ==> events[i].at <= events[j].at
  }

  predicate AllBy(events: seq<Event>, t: Time) {
    forall i :: 0 <= i < |events| && events[i].Merged? ==> events[i].at <= t
  }

  /** The events up to and including the last merge observed at or before `t`, and no later one. */
  function Until(events: seq<Event>, t: Time): seq<Event> {
    if AllBy(events, t) then events else Until(events[..|events| - 1], t)
  }

  /** The value of a logged field of the stored record; a CVE without one has initial values. */
  function ValueOf(r: Repo, cveId: string, f: Field): Option<FieldValue> {
    if cveId in r.records then Tracked(r.records[cveId], f) else Initial(f)
  }

  /** The event changes this field of this CVE. */
  predicate Touches(r: Repo, e: Event, cveId: string, f: Field) {
    ValueOf(Apply(r, e), cveId, f) != ValueOf(r, cveId, f)
  }

  /** The value a replay gives a field. */
  function Shown(m: map<Field, FieldValue>, f: Field): Option<FieldValue> {
    if f in m then Some(m[f]) else Initial(f)
  }

  /** No log line returns a field to its initial value. */
  ghost predicate Proper(m: map<Field, FieldValue>) {
    forall f :: f in m ==> Some(m[f]) != Initial(f)
  }

  /** No merge ever returns a logged field to its initial value. */
  ghost predicate NeverReset(v: Vulnerability, w: Vulnerability) {
    forall f :: Tracked(w, f) == Tracked(v, f) || (Tracked(w, f).Some? && Tracked(w, f) != Initial(f))
  }

  lemma AbsorbNeverResets(v: Vulnerability, c: Contribution, now: Time)
    ensures NeverReset(v, Absorb(v, c, now))
  {
  }

  lemma OnlyMergesTouch(r: Repo, e: Event, cveId: string, f: Field)
    requires ValidRepo(r) && Touches(r, e, cveId, f)
    ensures e.Merged? && ValidContribution(e.c) && e.c.cveId == cveId
  {
  }

  /** What one merge does to a field of its CVE: nothing, or a logged value other than the initial one. */
  lemma MergeTouches(r: Repo, e: Event, f: Field)
    requires e.Merged? && ValidContribution(e.c)
    ensures var v := Base(Lookup(r.records, e.c.cveId), e.c, e.at); var w := Absorb(v, e.c, e.at);
      && (Touches(r, e, e.c.cveId, f) <==> Changed(v, w, f))
      && (Changed(v, w, f) ==> Tracked(w, f) == ValueOf(Apply(r, e), e.c.cveId, f) != Initial(f))
  {
  }

  /** The lines of a logged merge of the CVE itself. */
  lemma OwnLinesShow(r: Repo, e: Event, m: map<Field, FieldValue>, f: Field, t: Time)
    requires ValidRepo(r) && e.Merged? && e.at <= t && ValidContribution(e.c) && e.logged
    ensures var n := Replay(m, Lines(r, e), t);
      && (f in n ==> (f in m && n[f] == m[f]) || Some(n[f]) != Initial(f))
      && Shown(n, f) == if Touches(r, e, e.c.cveId, f) then ValueOf(Apply(r, e), e.c.cveId, f) else Shown(m, f)
  {
    MergeTouches(r, e, f);
    var v := Base(Lookup(r.records, e.c.cveId), e.c, e.at);
    ReplayDiff(m, v, Absorb(v, e.c, e.at), e.c.source, e.at, t);
  }

  /** An event that logs nothing for the CVE does not change it either, unless it is a merge whose lines
      are lost. */
  lemma NoLinesNoTouch(r: Repo, e: Event, cveId: string, f: Field)
    requires ValidRepo(r) && !(e.Merged? && ValidContribution(e.c) && e.c.cveId == cveId)
    ensures !Touches(r, e, cveId, f)
  {
    if Touches(r, e, cveId, f) { OnlyMergesTouch(r, e, cveId, f); }
  }

  /** An event's lines put into a replay exactly the fields that it changes and logs. */
  lemma StepShows(r: Repo, e: Event, cveId: string, m: map<Field, FieldValue>, t: Time)
    requires ValidRepo(r) && (e.Merged? ==> e.at <= t)
    ensures var n := Replay(m, HistoryOf(Lines(r, e), cveId), t);
      && (Proper(m) ==> Proper(n))
      && forall f :: Shown(n, f) ==
           if Touches(r, e, cveId, f) && e.Merged? && e.logged then ValueOf(Apply(r, e), cveId, f) else Shown(m, f)
  {
    LinesRows(r, e);
    var rows := HistoryOf(Lines(r, e), cveId);
    if e.Merged? && ValidContribution(e.c) && e.c.cveId == cveId && e.logged {
      HistoryOfUniform(Lines(r, e), cveId, cveId);
      forall f { OwnLinesShow(r, e, m, f, t); }
    } else {
      if Lines(r, e) != [] { HistoryOfUniform(Lines(r, e), e.c.cveId, cveId); }
      assert rows == [];
      forall f ensures !(Touches(r, e, cveId, f) && e.Merged? && e.logged) {
        if e.Merged? && e.logged { NoLinesNoTouch(r, e, cveId, f); }
      }
    }
  }

  // --------------------------------------------------------- lost log lines

  /** While the latest changes of a field are missing from the log: the value it had before the first of
      them. */
  function LostSince(events: seq<Event>, cveId: string, f: Field): Option<Option<FieldValue>> {
    if events == [] then None
    else
      var init, e := events[..|events| - 1], events[|events| - 1];
      var r := Run(EMPTY, init);
      if !Touches(r, e, cveId, f) then LostSince(init, cveId, f)
      else if e.Merged? && e.logged then None
      else if LostSince(init, cveId, f).Some? then LostSince(init, cveId, f)
      else Some(ValueOf(r, cveId, f))
  }

  /** The value a field had after its last change that is in the log. */
  function Logged(events: seq<Event>, cveId: string, f: Field): Option<FieldValue> {
    var since := LostSince(events, cveId, f);
    if since.Some? then since.value else ValueOf(Run(EMPTY, events), cveId, f)
  }

  function LogOf(events: seq<Event>, cveId: string): seq<Entry> {
    HistoryOf(Run(EMPTY, events).history, cveId)
  }

  lemma LogOfSnoc(events: seq<Event>, cveId: string)
    requires events != []
    ensures var init := events[..|events| - 1];
      LogOf(events, cveId) == LogOf(init, cveId) + HistoryOf(Lines(Run(EMPTY, init), events[|events| - 1]), cveId)
  {
    var init := events[..|events| - 1];
    RunIsValid(EMPTY, init);
    LinesRows(Run(EMPTY, init), events[|events| - 1]);
    HistoryOfConcat(Run(EMPTY, init).history, Lines(Run(EMPTY, init), events[|events| - 1]), cveId);
  }

  /** After every run, lost log lines included, replaying the log of a CVE gives each field the value it
      had after its last logged change. */
  lemma {:induction false} LogShows(events: seq<Event>, cveId: string, f: Field, t: Time)
    requires AllBy(events, t)
    ensures var m := Replay(map[], LogOf(events, cveId), t);
      Proper(m) && Shown(m, f) == Logged(events, cveId, f)
  {
    if events == [] {
    } else {
      var init, e := events[..|events| - 1], events[|events| - 1];
      LogShows(init, cveId, f, t);
      RunIsValid(EMPTY, init);
      LogOfSnoc(events, cveId);
      var rows := HistoryOf(Lines(Run(EMPTY, init), e), cveId);
      ReplayConcat(map[], LogOf(init, cveId), rows, t);
      StepShows(Run(EMPTY, init), e, cveId, Replay(map[], LogOf(init, cveId), t), t);
    }
  }

  /** Later log lines do not show up in an earlier snapshot. */
  lemma {:induction false} ReplayIgnoresLater(m: map<Field, FieldValue>, rows: seq<Entry>, t: Time)
    requires forall i :: 0 <= i < |rows| ==> rows[i].observedAt > t
    ensures Replay(m, rows, t) == m
  {
    if rows == [] {
    } else {
      ReplayIgnoresLater(m, rows[..|rows| - 1], t);
    }
  }

  lemma LateRows(m: map<Field, FieldValue>, rows: seq<Entry>, id: string, cveId: string, t: Time)
    requires forall i :: 0 <= i < |rows| ==> rows[i].cveId == id && rows[i].observedAt > t
    ensures Replay(m, HistoryOf(rows, cveId), t) == m
  {
    HistoryOfUniform(rows, id, cveId);
    ReplayIgnoresLater(m, HistoryOf(rows, cveId), t);
  }

  /** A merge observed after `t` leaves the replay up to `t` alone. */
  lemma LateEventReplay(events: seq<Event>, cveId: string, t: Time)
    requires events != [] && events[|events| - 1].Merged? && events[|events| - 1].at > t
    ensures Replay(map[], LogOf(events, cveId), t) == Replay(map[], LogOf(events[..|events| - 1], cveId), t)
  {
    var init, e := events[..|events| - 1], events[|events| - 1];
    RunIsValid(EMPTY, init);
    LogOfSnoc(events, cveId);
    LinesRows(Run(EMPTY, init), e);
    ReplayConcat(map[], LogOf(init, cveId), HistoryOf(Lines(Run(EMPTY, init), e), cveId), t);
    LateRows(Replay(map[], LogOf(init, cveId), t), Lines(Run(EMPTY, init), e), e.c.cveId, cveId, t);
  }

  /** Replaying up to an instant is replaying the log as it was then. */
  lemma {:induction false} ReplayUpTo(events: seq<Event>, cveId: string, t: Time)
    requires Clocked(events)
    ensures AllBy(Until(events, t), t)
    ensures Replay(map[], LogOf(events, cveId), t) == Replay(map[], LogOf(Until(events, t), cveId), t)
  {
    if AllBy(events, t) {
    } else {
      var init, e := events[..|events| - 1], events[|events| - 1];
      assert events == init + [e];
      ReplayUpTo(init, cveId, t);
      if e.Merged? {
        LateEventReplay(events, cveId, t);
      } else {
        LogOfSnoc(events, cveId);
        assert HistoryOf([], cveId) == [];
      }
    }
  }

  // ------------------------------------------------- replay agrees with state

  lemma {:induction false} ReplayEmptyIff(rows: seq<Entry>, t: Time)
    ensures Replay(map[], rows, t) == map[] <==> forall i :: 0 <= i < |rows| ==> rows[i].observedAt > t
  {
    if rows == [] {
    } else {
      var init, last := rows[..|rows| - 1], rows[|rows| - 1];
      ReplayEmptyIff(init, t);
      assert forall i :: 0 <= i < |init| ==> rows[i] == init[i];
      if last.observedAt <= t {
        assert last.field in Replay(map[], rows, t);
      }
    }
  }

  /** What `GetVulnerabilityAsOf` answers on a log. */
  function AsOf(history: seq<Entry>, cveId: string, t: Time): Option<map<Field, FieldValue>> {
    var m := Replay(map[], GetHistory(history, cveId), t);
    if m == map[] then None else Some(m)
  }

  ghost predicate ObservedBy(rows: seq<Entry>, t: Time) {
    forall i :: 0 <= i < |rows| ==> rows[i].observedAt <= t
  }

  lemma {:induction false} LogObservedBy(events: seq<Event>, t: Time)
    requires AllBy(events, t)
    ensures ObservedBy(Run(EMPTY, events).history, t)
  {
    if events == [] {
    } else {
      var init, e := events[..|events| - 1], events[|events| - 1];
      LogObservedBy(init, t);
      RunIsValid(EMPTY, init);
      LinesRows(Run(EMPTY, init), e);
    }
  }

  /** The log is in time order, so the ordered query returns it as written. */
  lemma {:induction false} LogIsSorted(events: seq<Event>)
    requires Clocked(events)
    ensures SortedByTime(OBSERVED, Run(EMPTY, events).history)
  {
    if events == [] {
    } else {
      var init, e := events[..|events| - 1], events[|events| - 1];
      LogIsSorted(init);
      RunIsValid(EMPTY, init);
      LinesRows(Run(EMPTY, init), e);
      if e.Merged? { LogObservedBy(init, e.at); }
    }
  }

  lemma {:induction false} FilterKeepsOrder(history: seq<Entry>, cveId: string)
    requires SortedByTime(OBSERVED, history)
    ensures SortedByTime(OBSERVED, HistoryOf(history, cveId))
    ensures forall e :: e in HistoryOf(history, cveId) ==> e in history
  {
    if history == [] {
    } else {
      var init, last := history[..|history| - 1], history[|history| - 1];
      FilterKeepsOrder(init, cveId);
      assert forall e :: e in init ==> e in history && OBSERVED(e) <= OBSERVED(last);
    }
  }

  lemma QueryInOrder(events: seq<Event>, cveId: string)
    requires Clocked(events)
    ensures GetHistory(Run(EMPTY, events).history, cveId) == LogOf(events, cveId)
  {
    LogIsSorted(events);
    FilterKeepsOrder(Run(EMPTY, events).history, cveId);
    OrderByTimeKeepsSorted(OBSERVED, LogOf(events, cveId));
  }

  /** The logged fields that have left their initial value: what an exact as-of view holds. */
  function Snapshot(r: Repo, cveId: string): map<Field, FieldValue> {
    map f: Field | ValueOf(r, cveId, f).Some? && ValueOf(r, cveId, f) != Initial(f) :: ValueOf(r, cveId, f).value
  }

  lemma SnapshotIff(m: map<Field, FieldValue>, r: Repo, cveId: string)
    requires Proper(m)
    ensures m == Snapshot(r, cveId) <==> forall f :: Shown(m, f) == ValueOf(r, cveId, f)
  {
    if forall f :: Shown(m, f) == ValueOf(r, cveId, f) {
      forall f ensures f in m <==> f in Snapshot(r, cveId) {
        assert Shown(m, f) == ValueOf(r, cveId, f);
      }
    } else if m == Snapshot(r, cveId) {
      forall f ensures Shown(m, f) == ValueOf(r, cveId, f) { Tracks(r, cveId, f); }
    }
  }

  /** A field without a value is at its initial value, except the KEV flag, which always has one. */
  lemma Tracks(r: Repo, cveId: string, f: Field)
    ensures ValueOf(r, cveId, f).None? ==> Initial(f).None?
  {
  }

  /** Nothing of the field is missing from the log, or what is missing led back to where it began. */
  ghost predicate Faithful(events: seq<Event>, cveId: string, f: Field) {
    var since := LostSince(events, cveId, f);
    since.Some? ==> since.value == ValueOf(Run(EMPTY, events), cveId, f)
  }

  /** The past rebuilt from the log alone, for every run of merges under a clock that never runs
      backwards, every time `t` and every field: the field reads as it did after its last change by then
      that was logged, and so reads right exactly when nothing of it is missing from the log or what is
      missing led back to where it began. The whole view is that of the record exactly when this holds
      for every field. */
  lemma ReplayAgreesWithState(events: seq<Event>, cveId: string, t: Time)
    requires Clocked(events)
    ensures var past := Until(events, t); var then_ := Run(EMPTY, past); var m := Replay(map[], GetHistory(Run(EMPTY, events).history, cveId), t);
      && (forall f :: Shown(m, f) == Logged(past, cveId, f))
      && (forall f :: Shown(m, f) == ValueOf(then_, cveId, f) <==> Faithful(past, cveId, f))
      && (AsOf(Run(EMPTY, events).history, cveId, t) == View(Snapshot(then_, cveId)) <==> forall f :: Faithful(past, cveId, f))
  {
    var past := Until(events, t);
    var m := Replay(map[], LogOf(events, cveId), t);
    QueryInOrder(events, cveId);
    ReplayUpTo(events, cveId, t);
    forall f ensures Shown(m, f) == Logged(past, cveId, f) { LogShows(past, cveId, f, t); }
    LogShows(past, cveId, Description, t);
    SnapshotIff(m, Run(EMPTY, past), cveId);
  }

  function View(m: map<Field, FieldValue>): Option<map<Field, FieldValue>> {
    if m == map[] then None else Some(m)
  }

  // --------------------------------------------------------- whole runs

  /** The merge changes a logged field of the CVE and dies before logging it. */
  ghost predicate Loses(r: Repo, e: Event, cveId: string) {
    e.Merged? && !e.logged && exists f :: Touches(r, e, cveId, f)
  }

  ghost predicate LostLines(events: seq<Event>, cveId: string) {
    events != [] &&
    var init := events[..|events| - 1];
    LostLines(init, cveId) || Loses(Run(EMPTY, init), events[|events| - 1], cveId)
  }

  ghost predicate AllFaithful(events: seq<Event>, cveId: string) {
    forall f :: Faithful(events, cveId, f)
  }

  ghost predicate AlwaysFaithful(events: seq<Event>, cveId: string) {
    AllFaithful(events, cveId) && (events != [] ==> AlwaysFaithful(events[..|events| - 1], cveId))
  }

  lemma {:induction false} NothingLost(events: seq<Event>, cveId: string, f: Field)
    requires !LostLines(events, cveId)
    ensures LostSince(events, cveId, f).None?
  {
    if events == [] {
    } else {
      var init, e := events[..|events| - 1], events[|events| - 1];
      NothingLost(init, cveId, f);
      RunIsValid(EMPTY, init);
      if Touches(Run(EMPTY, init), e, cveId, f) { OnlyMergesTouch(Run(EMPTY, init), e, cveId, f); }
    }
  }

  /** The log gives every field of a CVE right at every point of a run exactly when no merge that changed
      one of them died before logging it. */
  lemma {:induction false} AlwaysFaithfulIff(events: seq<Event>, cveId: string)
    ensures AlwaysFaithful(events, cveId) <==> !LostLines(events, cveId)
  {
    if events == [] {
    } else {
      var init, e := events[..|events| - 1], events[|events| - 1];
      AlwaysFaithfulIff(init, cveId);
      if !LostLines(events, cveId) {
        forall f ensures Faithful(events, cveId, f) { NothingLost(events, cveId, f); }
      } else if !LostLines(init, cveId) {
        var f :| Touches(Run(EMPTY, init), e, cveId, f);
        NothingLost(init, cveId, f);
        assert !Faithful(events, cveId, f);
      }
    }
  }

  lemma {:induction false} LostEarlier(events: seq<Event>, cveId: string, t: Time)
    requires LostLines(Until(events, t), cveId)
    ensures LostLines(events, cveId)
  {
    if !AllBy(events, t) { LostEarlier(events[..|events| - 1], cveId, t); }
  }

  /** The past can be rebuilt from an intact log: if no merge of the CVE died before logging a change, the
      as-of view of every instant gives each logged field the value the record had then, omits exactly the
      fields still at their initial value, and is absent exactly when all of them were. */
  lemma IntactLogReplays(events: seq<Event>, cveId: string, t: Time)
    requires Clocked(events) && !LostLines(events, cveId)
    ensures AsOf(Run(EMPTY, events).history, cveId, t) == View(Snapshot(Run(EMPTY, Until(events, t)), cveId))
  {
    if LostLines(Until(events, t), cveId) { LostEarlier(events, cveId, t); }
    forall f ensures Faithful(Until(events, t), cveId, f) { NothingLost(Until(events, t), cveId, f); }
    ReplayAgreesWithState(events, cveId, t);
  }

  lemma AbsorbTwice(v: Vulnerability, c: Contribution, now: Time, later: Time)
    ensures var w := Absorb(v, c, now); Diff(w, Absorb(w, c, later), c.source, later) == []
  {
  }

  /** Lines that were lost stay lost: merging the same contribution again finds nothing to log. */
  lemma LostForGood(r: Repo, c: Contribution, at: Time, later: Time, cveId: string, f: Field)
    requires ValidContribution(c)
    ensures var lost := Apply(r, Merged(at, c, false)); var again := Apply(lost, Merged(later, c, true));
      again.history == r.history && ValueOf(again, cveId, f) == ValueOf(lost, cveId, f)
  {
    var v := Base(Lookup(r.records, c.cveId), c, at);
    AbsorbTwice(v, c, at, later);
    assert r.history + [] == r.history;
  }
}
