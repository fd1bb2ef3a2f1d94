/** What every run of the Experiment Studio keeps true, processes that die between two writes included. */
module StudioSafety {
  import opened Basics
  import Accounts
  import opened Studio

  ghost function Run(s: State, acts: seq<Action>): State {
    if acts == [] then s else Step(Run(s, acts[..|acts| - 1]), acts[|acts| - 1])
  }

  /** A fresh studio over a directory in which nothing is approved yet. */
  ghost predicate Initial(s: State) {
    s.versions == map[] && s.log == [] && forall f :: f in s.files ==> s.files[f].approval != StatusApproved
  }

  predicate PastApproval(status: Workflow) {
    status == Approved || status == Retired
  }

  /** The content of a version as it is published. */
  function Content(v: Version): Definition {
    v.definition.(approval := StatusApproved)
  }

  // ------------------------------------------------------------------ invariant

  ghost predicate VersionInv(v: Version, id: VersionId) {
    && v.id == id && id.number >= 1
    && v.definition.experimentId == id.experimentId
    && v.definition.approval == (if v.status == Approved then StatusApproved else StatusDraft)
  }

  /** Version numbers of an experiment have no gaps. */
  ghost predicate Contiguous(versions: map<VersionId, Version>) {
    forall id, k :: id in versions && 1 <= k <= id.number ==> VersionId(id.experimentId, k) in versions
  }

  /** Where a version may be taken, and by whom: authors submit, reviewers decide. */
  predicate Route(role: Role, from: Workflow, to: Workflow) {
    match to
    case Draft => false
    case ReadyForReview => (from == Draft || from == UnderReview) && (role == Accounts.Researcher || role == Accounts.Admin)
    case UnderReview => from == ReadyForReview && (role == Accounts.Reviewer || role == Accounts.Admin)
    case Approved => from == UnderReview && (role == Accounts.Reviewer || role == Accounts.Admin)
    case Rejected => from == UnderReview && (role == Accounts.Reviewer || role == Accounts.Admin)
    case Retired => from == Approved && (role == Accounts.Reviewer || role == Accounts.Admin)
  }

  /** Every decision on record was somebody's to take; an approval was not the author's, or an ADMIN's. */
  ghost predicate DecisionInv(s: State, d: Decision) {
    && d.version in s.versions
    && Route(d.role, d.from, d.to)
    && (d.to == Approved ==> d.actor != s.versions[d.version].createdBy || d.role == Accounts.Admin)
  }

  /** The published definition is the approved content of a version. */
  ghost predicate Backed(s: State, d: Definition, id: VersionId) {
    id in s.versions && PastApproval(s.versions[id].status) && d == Content(s.versions[id])
  }

  /** An approved file has the name of its experiment and the content of one of its versions. */
  ghost predicate FileInv(s: State, f: string)
    requires f in s.files
  {
    s.files[f].approval == StatusApproved ==>
      f == FileName(s.files[f].experimentId) && exists id :: Backed(s, s.files[f], id)
  }

  ghost predicate Inv(s: State) {
    && (forall id :: id in s.versions ==> VersionInv(s.versions[id], id))
    && Contiguous(s.versions)
    && (forall i :: 0 <= i < |s.log| ==> DecisionInv(s, s.log[i]))
    && (forall f :: f in s.files ==> FileInv(s, f))
  }

  // ------------------------------------------------- what a step may change

  /** Same version, same author; past DRAFT only the status and its approval mirror may differ. */
  ghost predicate Frozen(v: Version, w: Version) {
    && w.id == v.id && w.createdBy == v.createdBy
    && (v.status != Draft ==>
          w.definition == v.definition.(approval := w.definition.approval) && w.status != Draft)
    && (PastApproval(v.status) ==> PastApproval(w.status))
  }

  ghost predicate Continues(s: State, t: State) {
    && (forall id :: id in s.versions ==> id in t.versions && Frozen(s.versions[id], t.versions[id]))
    && s.log <= t.log
  }

  lemma CreateIsNew(s: State, draft: Definition)
    ensures VersionId(draft.experimentId, LatestNumber(s.versions.Keys, draft.experimentId) + 1) !in s.versions
  {
  }

  lemma CreateContinues(s: State, user: User, draft: Definition, acceptable: bool)
    ensures Continues(s, Step(s, Create(user, draft, acceptable)))
  {
    CreateIsNew(s, draft);
  }

  lemma EditContinues(s: State, user: User, id: VersionId, updates: Updates)
    ensures Continues(s, Step(s, Edit(user, id, updates)))
  {
  }

  lemma TransitionContinues(s: State, user: User, id: VersionId, target: Workflow, writes: nat)
    ensures Continues(s, Step(s, Transition(user, id, target, writes)))
  {
    var t := Step(s, Transition(user, id, target, writes));
    if MayMove(s.versions, user, id, target) {
      assert Frozen(s.versions[id], t.versions[id]);
    }
  }

  lemma StepContinues(s: State, a: Action)
    ensures Continues(s, Step(s, a))
  {
    match a
    case Create(user, draft, acceptable) => CreateContinues(s, user, draft, acceptable);
    case Edit(user, id, updates) => EditContinues(s, user, id, updates);
    case Transition(user, id, target, writes) => TransitionContinues(s, user, id, target, writes);
    case SubmitRun(_, _) =>
  }

  lemma BackedContinues(s: State, t: State, d: Definition, id: VersionId)
    requires Continues(s, t) && Backed(s, d, id)
    ensures Backed(t, d, id)
  {
    assert Frozen(s.versions[id], t.versions[id]);
  }

  lemma FileContinues(s: State, t: State, f: string)
    requires Continues(s, t) && f in s.files && f in t.files && t.files[f] == s.files[f] && FileInv(s, f)
    ensures FileInv(t, f)
  {
    if t.files[f].approval == StatusApproved {
      var id :| Backed(s, s.files[f], id);
      BackedContinues(s, t, s.files[f], id);
    }
  }

  lemma DecisionsContinue(s: State, t: State, d: Decision)
    requires Continues(s, t) && DecisionInv(s, d)
    ensures DecisionInv(t, d)
  {
    assert Frozen(s.versions[d.version], t.versions[d.version]);
  }

  // --------------------------------------------------------- step by step

  lemma VersionsStep(s: State, a: Action, id: VersionId)
    requires Inv(s) && id in Step(s, a).versions
    ensures VersionInv(Step(s, a).versions[id], id)
  {
    if id in s.versions { assert VersionInv(s.versions[id], id); }
  }

  lemma NextNumber(versions: map<VersionId, Version>, e: string, n: nat, v: Version)
    requires Contiguous(versions) && IsLatest(versions.Keys, e, n)
    ensures Contiguous(versions[VersionId(e, n + 1) := v])
  {
    var next := versions[VersionId(e, n + 1) := v];
    forall id, k | id in next && 1 <= k <= id.number ensures VersionId(id.experimentId, k) in next {
      if id == VersionId(e, n + 1) {
        if k <= n { assert VersionId(e, n) in versions; }
      } else {
        assert id in versions;
      }
    }
  }

  lemma SameKeysContiguous(versions: map<VersionId, Version>, after: map<VersionId, Version>)
    requires Contiguous(versions) && after.Keys == versions.Keys
    ensures Contiguous(after)
  {
    forall id, k | id in after && 1 <= k <= id.number ensures VersionId(id.experimentId, k) in after {
      assert id in versions && VersionId(id.experimentId, k) in versions;
    }
  }

  lemma NumbersStep(s: State, a: Action)
    requires Contiguous(s.versions)
    ensures Contiguous(Step(s, a).versions)
  {
    var t := Step(s, a);
    if a.Create? && t != s {
      var e := a.draft.experimentId;
      var n := LatestNumber(s.versions.Keys, e);
      NextNumber(s.versions, e, n, Fresh(a.user, a.draft, n + 1));
    } else {
      SameKeysContiguous(s.versions, t.versions);
    }
  }

  lemma LogStep(s: State, a: Action, i: nat)
    requires Inv(s) && i < |Step(s, a).log|
    ensures DecisionInv(Step(s, a), Step(s, a).log[i])
  {
    StepContinues(s, a);
    if i < |s.log| { DecisionsContinue(s, Step(s, a), s.log[i]); }
  }

  /** Which version of experiment `e` the action publishes, if any. */
  ghost function Publishes(s: State, a: Action, e: string): Option<VersionId> {
    match a
    case Transition(user, id, target, writes) =>
      if MayMove(s.versions, user, id, target) && target == Approved && writes >= 3 && id.experimentId == e
      then Some(id) else None
    case SubmitRun(user, id) =>
      if MayRun(user.role) && Loads(s.versions, id) && s.versions[id].status == Approved && id.experimentId == e
      then Some(id) else None
    case Create(_, _, _) => None
    case Edit(_, _, _) => None
  }

  lemma NamesDiffer(e: string, f: string)
    requires FileName(e) == FileName(f)
    ensures e == f
  {
    assert FileName(e)[..|e|] == e && FileName(f)[..|f|] == f;
  }

  /** A publication puts the version's content under the experiment's name; nothing else touches a file. */
  lemma FilesStep(s: State, a: Action, f: string)
    ensures var t := Step(s, a);
      if exists e :: Publishes(s, a, e).Some? && f == FileName(e)
      then
        exists e :: Publishes(s, a, e).Some? && f == FileName(e)
                    && f in t.files && Backed(t, t.files[f], Publishes(s, a, e).value)
      else (f in t.files <==> f in s.files) && (f in s.files ==> t.files[f] == s.files[f])
  {
    var t := Step(s, a);
    if e :| Publishes(s, a, e).Some? && f == FileName(e) {
      assert f in t.files && Backed(t, t.files[f], Publishes(s, a, e).value);
    } else if a.Transition? {
      assert Publishes(s, a, a.id.experimentId).Some? ==> f != FileName(a.id.experimentId);
    } else if a.SubmitRun? {
      assert Publishes(s, a, a.id.experimentId).Some? ==> f != FileName(a.id.experimentId);
    }
  }

  lemma FileInvStep(s: State, a: Action, f: string)
    requires Inv(s) && f in Step(s, a).files
    ensures FileInv(Step(s, a), f)
  {
    var t := Step(s, a);
    FilesStep(s, a, f);
    StepContinues(s, a);
    if e :| Publishes(s, a, e).Some? && f == FileName(e) && Backed(t, t.files[f], Publishes(s, a, e).value) {
      VersionsStep(s, a, Publishes(s, a, e).value);
    } else {
      FileContinues(s, t, f);
    }
  }

  lemma StepKeeps(s: State, a: Action)
    requires Inv(s)
    ensures Inv(Step(s, a))
  {
    var t := Step(s, a);
    forall id | id in t.versions ensures VersionInv(t.versions[id], id) { VersionsStep(s, a, id); }
    NumbersStep(s, a);
    forall i | 0 <= i < |t.log| ensures DecisionInv(t, t.log[i]) { LogStep(s, a, i); }
    forall f | f in t.files ensures FileInv(t, f) { FileInvStep(s, a, f); }
  }

  /** Over every run, crashes included: approval status mirrors the workflow, version numbers have no
      gaps, every approval on record came from review by somebody else or an ADMIN, and every approved
      file holds the content of an approved or retired version of the experiment it is named after. */
  lemma {:induction false} StudioInvariant(s: State, acts: seq<Action>)
    requires Initial(s)
    ensures Inv(Run(s, acts))
  {
    if acts == [] {
    } else {
      StudioInvariant(s, acts[..|acts| - 1]);
      StepKeeps(Run(s, acts[..|acts| - 1]), acts[|acts| - 1]);
    }
  }

  lemma ContinuesTransitive(s: State, t: State, u: State)
    requires Continues(s, t) && Continues(t, u)
    ensures Continues(s, u)
  {
    forall id | id in s.versions ensures id in u.versions && Frozen(s.versions[id], u.versions[id]) {
      assert Frozen(s.versions[id], t.versions[id]) && Frozen(t.versions[id], u.versions[id]);
    }
  }

  /** From any point of a run on: no version disappears or changes its author, no decision is
      rewritten, and content that has left DRAFT never changes again. */
  lemma {:induction false} ContentIsFrozen(s: State, acts: seq<Action>, k: nat)
    requires k <= |acts|
    ensures Continues(Run(s, acts[..k]), Run(s, acts))
    decreases |acts|
  {
    if k == |acts| {
      assert acts[..k] == acts;
    } else {
      var init := acts[..|acts| - 1];
      assert init[..k] == acts[..k];
      ContentIsFrozen(s, init, k);
      StepContinues(Run(s, init), acts[|acts| - 1]);
      ContinuesTransitive(Run(s, init[..k]), Run(s, init), Run(s, acts));
    }
  }

  // ------------------------------------------------------------ approval history

  /** The transition moves the version but dies before its decision is on record. */
  ghost predicate Loses(s: State, a: Action, id: VersionId) {
    a.Transition? && a.id == id && MayMove(s.versions, a.user, id, a.target) && a.writes == 1
  }

  /** Some transition of the version in the run lost its decision. */
  ghost predicate LostDecision(s: State, acts: seq<Action>, id: VersionId) {
    acts != [] &&
    var init, a := acts[..|acts| - 1], acts[|acts| - 1];
    LostDecision(s, init, id) || Loses(Run(s, init), a, id)
  }

  /** The approval of the version lost its decision. */
  ghost predicate LostApproval(s: State, acts: seq<Action>, id: VersionId) {
    acts != [] &&
    var init, a := acts[..|acts| - 1], acts[|acts| - 1];
    LostApproval(s, init, id) || (Loses(Run(s, init), a, id) && a.target == Approved)
  }

  /** The decisions on a version form a path of allowed moves from DRAFT to `end`. */
  ghost predicate Chained(log: seq<Decision>, id: VersionId, end: Workflow) {
    if log == [] then end == Draft
    else
      var init, d := log[..|log| - 1], log[|log| - 1];
      if d.version == id then d.to == end && Route(d.role, d.from, d.to) && Chained(init, id, d.from)
      else Chained(init, id, end)
  }

  /** Decisions about other versions do not matter for a chain. */
  lemma {:induction false} ChainedOther(log: seq<Decision>, id: VersionId)
    requires forall i :: 0 <= i < |log| ==> log[i].version != id
    ensures Chained(log, id, Draft)
  {
    if log == [] {
    } else {
      ChainedOther(log[..|log| - 1], id);
    }
  }

  lemma NewIsChained(s: State, a: Action, id: VersionId)
    requires Inv(s) && id !in s.versions && id in Step(s, a).versions
    ensures Step(s, a).versions[id].status == Draft && Chained(Step(s, a).log, id, Draft)
  {
    forall i | 0 <= i < |s.log| ensures s.log[i].version != id { assert DecisionInv(s, s.log[i]); }
    ChainedOther(s.log, id);
  }

  /** A path of decisions has one end. */
  lemma {:induction false} ChainEndUnique(log: seq<Decision>, id: VersionId, end: Workflow, other: Workflow)
    requires Chained(log, id, end) && Chained(log, id, other)
    ensures end == other
  {
    if log == [] {
    } else if log[|log| - 1].version != id {
      ChainEndUnique(log[..|log| - 1], id, end, other);
    }
  }

  /** The transition moves the version and its decision is on record. */
  ghost predicate Records(s: State, a: Action, id: VersionId) {
    a.Transition? && a.id == id && MayMove(s.versions, a.user, id, a.target) && a.writes >= 2
  }

  /** While moves of the version are missing at the end of its history: the status it had when the
      first of them was made. */
  ghost function LostSince(s: State, acts: seq<Action>, id: VersionId): Option<Workflow> {
    if acts == [] then None
    else
      var init, a := acts[..|acts| - 1], acts[|acts| - 1];
      if Records(Run(s, init), a, id) then None
      else if Loses(Run(s, init), a, id) && LostSince(s, init, id).None? then Some(Run(s, init).versions[id].status)
      else LostSince(s, init, id)
  }

  /** Some move was recorded while the moves missing before it had led somewhere else. */
  ghost predicate Broken(s: State, acts: seq<Action>, id: VersionId) {
    acts != [] &&
    var init, a := acts[..|acts| - 1], acts[|acts| - 1];
    var since := LostSince(s, init, id);
    || Broken(s, init, id)
    || (Records(Run(s, init), a, id) && since.Some? && since.value != Run(s, init).versions[id].status)
  }

  /** Where a history can end: at the status, or where it was when moves began to be missing. */
  ghost function ChainEnd(s: State, acts: seq<Action>, id: VersionId): Workflow
    requires id in Run(s, acts).versions
  {
    var since := LostSince(s, acts, id);
    if since.Some? then since.value else Run(s, acts).versions[id].status
  }

  /** A recorded move extends exactly the histories that end where it starts. */
  lemma RecordedStep(s: State, a: Action, id: VersionId, end: Workflow)
    requires Records(s, a, id)
    ensures Chained(Step(s, a).log, id, end) <==> end == a.target && Chained(s.log, id, s.versions[id].status)
  {
    assert Step(s, a).log[..|Step(s, a).log| - 1] == s.log;
  }

  /** Any other action leaves the version's history alone, and its status unless it loses a decision. */
  lemma UnrecordedStep(s: State, a: Action, id: VersionId, end: Workflow)
    requires id in s.versions && !Records(s, a, id)
    ensures Chained(Step(s, a).log, id, end) <==> Chained(s.log, id, end)
    ensures id in Step(s, a).versions
    ensures Loses(s, a, id) ==> Step(s, a).versions[id].status == a.target != s.versions[id].status
    ensures !Loses(s, a, id) ==> Step(s, a).versions[id].status == s.versions[id].status
  {
    var t := Step(s, a);
    if t.log != s.log { assert t.log[..|t.log| - 1] == s.log; }
    if a.Create? { CreateIsNew(s, a.draft); }
  }

  lemma {:induction false} NothingLostBefore(s: State, acts: seq<Action>, id: VersionId)
    requires id !in Run(s, acts).versions
    ensures LostSince(s, acts, id).None? && !Broken(s, acts, id) && !LostDecision(s, acts, id)
  {
    if acts == [] {
    } else {
      var init := acts[..|acts| - 1];
      StepContinues(Run(s, init), acts[|acts| - 1]);
      NothingLostBefore(s, init, id);
    }
  }

  /** The history ends where moves began to be missing, and nowhere once it is broken. */
  ghost predicate Ends(s: State, acts: seq<Action>, id: VersionId, end: Workflow)
    requires id in Run(s, acts).versions
  {
    Chained(Run(s, acts).log, id, end) <==> !Broken(s, acts, id) && end == ChainEnd(s, acts, id)
  }

  lemma EndsStep(s: State, acts: seq<Action>, id: VersionId, end: Workflow)
    requires acts != [] && id in Run(s, acts[..|acts| - 1]).versions && id in Run(s, acts).versions
    requires Ends(s, acts[..|acts| - 1], id, end)
    requires Ends(s, acts[..|acts| - 1], id, Run(s, acts[..|acts| - 1]).versions[id].status)
    ensures Ends(s, acts, id, end)
  {
    var before, a := Run(s, acts[..|acts| - 1]), acts[|acts| - 1];
    if Records(before, a, id) {
      RecordedStep(before, a, id, end);
    } else {
      UnrecordedStep(before, a, id, end);
    }
  }

  lemma {:induction false} HistoryEnds(s: State, acts: seq<Action>, id: VersionId, end: Workflow)
    requires Initial(s) && id in Run(s, acts).versions
    ensures Ends(s, acts, id, end)
    decreases |acts|
  {
    if acts == [] {
    } else {
      var init, a := acts[..|acts| - 1], acts[|acts| - 1];
      StudioInvariant(s, init);
      if id in Run(s, init).versions {
        HistoryEnds(s, init, id, end);
        HistoryEnds(s, init, id, Run(s, init).versions[id].status);
        EndsStep(s, acts, id, end);
      } else {
        NothingLostBefore(s, init, id);
        NewIsChained(Run(s, init), a, id);
        if Chained(Run(s, acts).log, id, end) { ChainEndUnique(Run(s, acts).log, id, end, Draft); }
      }
    }
  }

  /** In every run, crashes included: a version's history is a path of allowed edges from DRAFT to
      where the version stands exactly when no move was recorded behind a gap that leads elsewhere,
      and the moves missing at its end, if any, lead back to where they began. */
  lemma HistoryIsChained(s: State, acts: seq<Action>, id: VersionId)
    requires Initial(s) && id in Run(s, acts).versions
    ensures var t, since := Run(s, acts), LostSince(s, acts, id);
      Chained(t.log, id, t.versions[id].status) <==>
        !Broken(s, acts, id) && (since.Some? ==> since.value == t.versions[id].status)
  {
    HistoryEnds(s, acts, id, Run(s, acts).versions[id].status);
  }

  ghost predicate ChainedNow(s: State, id: VersionId) {
    id in s.versions ==> Chained(s.log, id, s.versions[id].status)
  }

  ghost predicate AlwaysChained(s: State, acts: seq<Action>, id: VersionId) {
    ChainedNow(Run(s, acts), id) && (acts != [] ==> AlwaysChained(s, acts[..|acts| - 1], id))
  }

  lemma ChainedNowStep(s: State, a: Action, id: VersionId)
    requires Inv(s) && ChainedNow(s, id)
    ensures ChainedNow(Step(s, a), id) <==> !Loses(s, a, id)
  {
    var t := Step(s, a);
    if id !in s.versions {
      if id in t.versions { NewIsChained(s, a, id); }
    } else {
      var was := s.versions[id].status;
      if Records(s, a, id) {
        RecordedStep(s, a, id, a.target);
      } else {
        UnrecordedStep(s, a, id, t.versions[id].status);
        if Loses(s, a, id) && Chained(s.log, id, a.target) { ChainEndUnique(s.log, id, was, a.target); }
      }
    }
  }

  /** A version's history is such a path at every point of a run exactly when the run lost none of its
      decisions. */
  lemma {:induction false} AlwaysChainedIff(s: State, acts: seq<Action>, id: VersionId)
    requires Initial(s)
    ensures AlwaysChained(s, acts, id) <==> !LostDecision(s, acts, id)
  {
    if acts == [] {
    } else {
      var init := acts[..|acts| - 1];
      AlwaysChainedIff(s, init, id);
      StudioInvariant(s, init);
      if AlwaysChained(s, init, id) {
        assert ChainedNow(Run(s, init), id);
        ChainedNowStep(Run(s, init), acts[|acts| - 1], id);
      }
    }
  }

  function Approvals(log: seq<Decision>, id: VersionId): nat {
    if log == [] then 0
    else
      Approvals(log[..|log| - 1], id) +
      if log[|log| - 1].version == id && log[|log| - 1].to == Approved then 1 else 0
  }

  ghost predicate IsPast(s: State, id: VersionId) {
    id in s.versions && PastApproval(s.versions[id].status)
  }

  /** An action that gives `id` its approval. */
  ghost predicate Approves(s: State, a: Action, id: VersionId) {
    a.Transition? && a.id == id && a.target == Approved && MayMove(s.versions, a.user, id, Approved) && a.writes >= 1
  }

  lemma PastStep(s: State, a: Action, id: VersionId)
    ensures IsPast(Step(s, a), id) <==> IsPast(s, id) || Approves(s, a, id)
    ensures Approves(s, a, id) ==> !IsPast(s, id)
  {
    if a.Create? { CreateIsNew(s, a.draft); }
  }

  lemma ApprovalsStep(s: State, a: Action, id: VersionId)
    ensures Approvals(Step(s, a).log, id) ==
            Approvals(s.log, id) + if Approves(s, a, id) && !Loses(s, a, id) then 1 else 0
  {
    var t := Step(s, a);
    if t.log != s.log { assert t.log[..|t.log| - 1] == s.log; }
  }

  /** An approved or retired version has exactly one approval, either on record or lost in a crash
      between the save and the append; any other version has none. */
  lemma {:induction false} OneApproval(s: State, acts: seq<Action>, id: VersionId)
    requires Initial(s)
    ensures Approvals(Run(s, acts).log, id) + (if LostApproval(s, acts, id) then 1 else 0) ==
            if IsPast(Run(s, acts), id) then 1 else 0
  {
    if acts == [] {
    } else {
      var before, a := Run(s, acts[..|acts| - 1]), acts[|acts| - 1];
      OneApproval(s, acts[..|acts| - 1], id);
      PastStep(before, a, id);
      ApprovalsStep(before, a, id);
    }
  }

  lemma {:induction false} ApprovalOnRecord(log: seq<Decision>, id: VersionId)
    ensures Approvals(log, id) > 0 <==> exists i :: 0 <= i < |log| && log[i].version == id && log[i].to == Approved
  {
    if log == [] {
    } else {
      var init, d := log[..|log| - 1], log[|log| - 1];
      ApprovalOnRecord(init, id);
      if i :| 0 <= i < |log| && log[i].version == id && log[i].to == Approved {
        if i < |init| { assert init[i] == log[i]; }
      }
      if i :| 0 <= i < |init| && init[i].version == id && init[i].to == Approved { assert log[i] == init[i]; }
    }
  }

  /** Decision `i` approves version `id` from review: by a REVIEWER other than its creator, or by an ADMIN. */
  ghost predicate Reviewed(s: State, id: VersionId, i: int) {
    && id in s.versions
    && 0 <= i < |s.log| && s.log[i].version == id && s.log[i].from == UnderReview && s.log[i].to == Approved
    && ((s.log[i].role == Accounts.Reviewer && s.log[i].actor != s.versions[id].createdBy) || s.log[i].role == Accounts.Admin)
  }

  /** An approved or retired version has its review on record exactly when its approval was not lost. */
  lemma ReviewedIff(s: State, acts: seq<Action>, id: VersionId)
    requires Initial(s) && IsPast(Run(s, acts), id)
    ensures (exists i :: Reviewed(Run(s, acts), id, i)) <==> !LostApproval(s, acts, id)
  {
    var t := Run(s, acts);
    StudioInvariant(s, acts);
    OneApproval(s, acts, id);
    ApprovalOnRecord(t.log, id);
    if i :| 0 <= i < |t.log| && t.log[i].version == id && t.log[i].to == Approved {
      assert DecisionInv(t, t.log[i]);
      assert Reviewed(t, id, i);
    }
  }

  /** Whatever file the runner reads in a run of the studio: if the safety policy lets it through for
      an experiment run, it is the frozen content of a version, and that version passed review on record
      unless a crash lost its approval. */
  lemma ApprovedContentSafety(s: State, acts: seq<Action>, f: string)
    requires Initial(s) && f in Run(s, acts).files && PolicyAllows(Run(s, acts).files[f], ExperimentRun)
    ensures exists id :: Backed(Run(s, acts), Run(s, acts).files[f], id)
                         && (LostApproval(s, acts, id) || exists i :: Reviewed(Run(s, acts), id, i))
  {
    var t := Run(s, acts);
    StudioInvariant(s, acts);
    assert Rule(3, t.files[f], ExperimentRun);
    assert FileInv(t, f);
    var id :| Backed(t, t.files[f], id);
    ReviewedIff(s, acts, id);
  }

  /** Each experiment's version numbers are exactly 1 to n. */
  lemma NumbersAreContiguous(s: State, acts: seq<Action>, e: string, k: nat)
    requires Initial(s)
    ensures var versions := Run(s, acts).versions;
      VersionId(e, k) in versions <==> 1 <= k <= LatestNumber(versions.Keys, e)
  {
    StudioInvariant(s, acts);
    var versions := Run(s, acts).versions;
    var n := LatestNumber(versions.Keys, e);
    if VersionId(e, k) in versions { assert VersionInv(versions[VersionId(e, k)], VersionId(e, k)); }
    if 1 <= k <= n { assert VersionId(e, n) in versions; }
  }

  // --------------------------------------------------- an edit that does not load

  /** An update that puts a text to the empty string. */
  predicate Blanks(u: Updates) {
    u.title == Some("") || u.description == Some("") || u.researchQuestion == Some("") || u.hypothesis == Some("")
  }

  /** The edit takes effect and empties a text of the version. */
  ghost predicate BlanksVersion(s: State, a: Action, id: VersionId) {
    && a.Edit? && a.id == id && Blanks(a.updates)
    && MayWrite(a.user.role) && Loads(s.versions, id) && s.versions[id].status == Draft
  }

  ghost predicate Blanked(s: State, acts: seq<Action>, id: VersionId) {
    acts != [] &&
    var init := acts[..|acts| - 1];
    Blanked(s, init, id) || BlanksVersion(Run(s, init), acts[|acts| - 1], id)
  }

  lemma LoadsStep(s: State, a: Action, id: VersionId)
    requires id in s.versions && VersionInv(s.versions[id], id)
    ensures Loads(Step(s, a).versions, id) <==> Loads(s.versions, id) && !BlanksVersion(s, a, id)
  {
    if a.Create? { CreateIsNew(s, a.draft); }
  }

  lemma NewLoads(s: State, a: Action, id: VersionId)
    requires id !in s.versions && id in Step(s, a).versions
    ensures Loads(Step(s, a).versions, id)
  {
  }

  lemma {:induction false} BlankedExists(s: State, acts: seq<Action>, id: VersionId)
    requires Blanked(s, acts, id)
    ensures id in Run(s, acts).versions
  {
    var init := acts[..|acts| - 1];
    StepContinues(Run(s, init), acts[|acts| - 1]);
    if Blanked(s, init, id) { BlankedExists(s, init, id); }
  }

  /** In every run a version loads exactly when no edit that took effect on it emptied one of its texts:
      edits copy without validating, loading validates. */
  lemma {:induction false} LoadsIff(s: State, acts: seq<Action>, id: VersionId)
    requires Initial(s) && id in Run(s, acts).versions
    ensures Loads(Run(s, acts).versions, id) <==> !Blanked(s, acts, id)
  {
    if acts == [] {
    } else {
      var init, a := acts[..|acts| - 1], acts[|acts| - 1];
      var before := Run(s, init);
      StudioInvariant(s, init);
      if id in before.versions {
        LoadsIff(s, init, id);
        assert VersionInv(before.versions[id], id);
        LoadsStep(before, a, id);
      } else {
        NewLoads(before, a, id);
        if Blanked(s, init, id) { BlankedExists(s, init, id); }
      }
    }
  }

  lemma UnreadableIsStuckStep(s: State, a: Action, id: VersionId)
    requires id in s.versions && !Readable(s.versions[id])
    requires forall x :: x in s.versions ==> s.versions[x].id == x
    ensures id in Step(s, a).versions && Step(s, a).versions[id] == s.versions[id]
    ensures forall x :: x in Step(s, a).versions ==> Step(s, a).versions[x].id == x
    ensures forall x: VersionId :: x.experimentId == id.experimentId ==> (x in Step(s, a).versions <==> x in s.versions)
  {
    if a.Create? { CreateIsNew(s, a.draft); }
  }

  /** A version that no longer loads is stuck for good, and its experiment never gets another version. */
  lemma {:induction false} UnreadableIsStuck(s: State, acts: seq<Action>, id: VersionId)
    requires id in s.versions && !Readable(s.versions[id])
    requires forall x :: x in s.versions ==> s.versions[x].id == x
    ensures var t := Run(s, acts);
      && id in t.versions && t.versions[id] == s.versions[id]
      && (forall x :: x in t.versions ==> t.versions[x].id == x)
      && (forall x: VersionId :: x.experimentId == id.experimentId ==> (x in t.versions <==> x in s.versions))
  {
    if acts == [] {
    } else {
      UnreadableIsStuck(s, acts[..|acts| - 1], id);
      UnreadableIsStuckStep(Run(s, acts[..|acts| - 1]), acts[|acts| - 1], id);
    }
  }
}
