/** Who does what in the studio: every call of a run told by the caller's role and what was stored before. */
module StudioRoles {
  import opened Basics
  import Accounts
  import opened Studio
  import opened StudioSafety

  predicate Complete(d: Definition) {
    d.title != "" && d.description != "" && d.researchQuestion != "" && d.hypothesis != ""
  }

  /** In a run a version loads as long as none of its texts is empty. */
  lemma LoadsWhenComplete(s: State, id: VersionId)
    requires Inv(s)
    ensures Loads(s.versions, id) <==> id in s.versions && Complete(s.versions[id].definition)
  {
    if id in s.versions { assert VersionInv(s.versions[id], id); }
  }

  // -------------------------------------------------------------- what calls do

  /** The user has this version taken there. */
  ghost predicate Moves(s: State, user: User, id: VersionId, target: Workflow) {
    && id in s.versions && Complete(s.versions[id].definition)
    && Route(user.role, s.versions[id].status, target)
    && (target == Approved ==> user.name != s.versions[id].createdBy || user.role == Accounts.Admin)
  }

  /** In every run: a transition moves the version exactly when the route is the caller's to take, and
      an approval is not the author's own unless given by an ADMIN. The content stays; the decision is
      recorded by the second write, and an approval is published by the third. */
  lemma TransitionMeans(s: State, acts: seq<Action>, user: User, id: VersionId, target: Workflow, writes: nat)
    requires Initial(s)
    ensures var b, t := Run(s, acts), Step(Run(s, acts), Transition(user, id, target, writes));
      if writes >= 1 && Moves(b, user, id, target) then
        var v := b.versions[id];
        var d := v.definition.(approval := if target == Approved then StatusApproved else StatusDraft);
        && t.versions == b.versions[id := Version(id, target, d, v.createdBy)]
        && t.log == b.log + (if writes >= 2 then [Decision(id, v.status, target, user.name, user.role)] else [])
        && t.files == if target == Approved && writes >= 3 then b.files[id.experimentId + ".json" := d] else b.files
      else t == b
  {
    StudioInvariant(s, acts);
    var b := Run(s, acts);
    LoadsWhenComplete(b, id);
    if id in b.versions { assert VersionInv(b.versions[id], id); }
    assert MayMove(b.versions, user, id, target) <==> Moves(b, user, id, target);
  }

  /** In every run: only a RESEARCHER or ADMIN edits, only in DRAFT, and only the texts given change. */
  lemma EditMeans(s: State, acts: seq<Action>, user: User, id: VersionId, u: Updates)
    requires Initial(s)
    ensures var b, t := Run(s, acts), Step(Run(s, acts), Edit(user, id, u));
      if (user.role == Accounts.Researcher || user.role == Accounts.Admin)
         && id in b.versions && Complete(b.versions[id].definition) && b.versions[id].status == Draft
      then
        && id in t.versions && t == b.(versions := b.versions[id := t.versions[id]])
        && var v, w := b.versions[id], t.versions[id];
          && w == v.(definition := w.definition)
          && w.definition == v.definition.(title := w.definition.title, description := w.definition.description,
                                           researchQuestion := w.definition.researchQuestion, hypothesis := w.definition.hypothesis)
          && Given(u.title, v.definition.title, w.definition.title)
          && Given(u.description, v.definition.description, w.definition.description)
          && Given(u.researchQuestion, v.definition.researchQuestion, w.definition.researchQuestion)
          && Given(u.hypothesis, v.definition.hypothesis, w.definition.hypothesis)
      else t == b
  {
    StudioInvariant(s, acts);
    LoadsWhenComplete(Run(s, acts), id);
  }

  predicate Given(update: Option<string>, before: string, after: string) {
    match update
    case Some(text) => after == text
    case None => after == before
  }

  /** In every run: a RESEARCHER or ADMIN creates a DRAFT of the given content under the first number
      the experiment has not used, as long as every version of it still loads. */
  lemma CreateMeans(s: State, acts: seq<Action>, user: User, d: Definition, acceptable: bool)
    requires Initial(s)
    ensures var b, t := Run(s, acts), Step(Run(s, acts), Create(user, d, acceptable));
      if (user.role == Accounts.Researcher || user.role == Accounts.Admin) && acceptable && Complete(d)
         && forall x :: x in b.versions && x.experimentId == d.experimentId ==> Complete(b.versions[x].definition)
      then exists n: nat ::
        && n >= 1 && (forall k: nat :: VersionId(d.experimentId, k) in b.versions <==> 1 <= k < n)
        && t == b.(versions := b.versions[VersionId(d.experimentId, n) :=
             Version(VersionId(d.experimentId, n), Draft, d.(approval := StatusDraft), user.name)])
      else t == b
  {
    var b, t := Run(s, acts), Step(Run(s, acts), Create(user, d, acceptable));
    StudioInvariant(s, acts);
    forall x { LoadsWhenComplete(b, x); }
    var n := LatestNumber(b.versions.Keys, d.experimentId) + 1;
    forall k: nat ensures VersionId(d.experimentId, k) in b.versions <==> 1 <= k < n {
      NumbersAreContiguous(s, acts, d.experimentId, k);
    }
    assert Readable(Fresh(user, d, n)) <==> Complete(d);
    assert Lists(b.versions, d.experimentId) <==>
      forall x :: x in b.versions && x.experimentId == d.experimentId ==> Complete(b.versions[x].definition);
  }

  /** In every run: anybody but a VIEWER submits a run of an approved version, which publishes it again. */
  lemma SubmitRunMeans(s: State, acts: seq<Action>, user: User, id: VersionId)
    requires Initial(s)
    ensures var b, t := Run(s, acts), Step(Run(s, acts), SubmitRun(user, id));
      if user.role != Accounts.Viewer && id in b.versions && Complete(b.versions[id].definition)
         && b.versions[id].status == Approved
      then t == b.(files := b.files[id.experimentId + ".json" := b.versions[id].definition])
      else t == b
  {
    StudioInvariant(s, acts);
    LoadsWhenComplete(Run(s, acts), id);
  }

  /** Whatever a VIEWER asks for, nothing changes. */
  lemma ViewerChangesNothing(s: State, a: Action)
    requires a.user.role == Accounts.Viewer
    ensures Step(s, a) == s
  {
  }

  // --------------------------------------------------------------- over whole runs

  lemma RunSnoc(s: State, acts: seq<Action>, k: nat)
    requires k < |acts|
    ensures Run(s, acts[..k + 1]) == Step(Run(s, acts[..k]), acts[k])
  {
    assert acts[..k + 1][..k] == acts[..k];
  }

  /** Call `k` took the version from `x` to `y`. */
  ghost predicate Took(s: State, acts: seq<Action>, k: int, id: VersionId, x: Workflow, y: Workflow) {
    && 0 <= k < |acts| && x != y
    && id in Run(s, acts[..k]).versions && Run(s, acts[..k]).versions[id].status == x
    && id in Run(s, acts[..k + 1]).versions && Run(s, acts[..k + 1]).versions[id].status == y
  }

  /** Every move, recorded or lost, was asked for by somebody with the role it takes. */
  lemma MoversHaveTheRole(s: State, acts: seq<Action>, k: int, id: VersionId, x: Workflow, y: Workflow)
    requires Initial(s) && Took(s, acts, k, id, x, y)
    ensures acts[k].Transition? && acts[k].id == id && acts[k].target == y && acts[k].writes >= 1
    ensures Route(acts[k].user.role, x, y)
    ensures y == Approved ==>
      acts[k].user.name != Run(s, acts[..k]).versions[id].createdBy || acts[k].user.role == Accounts.Admin
  {
    RunSnoc(s, acts, k);
    var b := Run(s, acts[..k]);
    match acts[k]
    case Transition(user, i, target, writes) => TransitionMeans(s, acts[..k], user, i, target, writes);
    case Create(_, draft, _) => CreateIsNew(b, draft);
    case Edit(_, _, _) =>
    case SubmitRun(_, _) =>
  }

  /** Every decision on record is a move that its actor made in that role. */
  lemma {:induction false} DecisionsAreMoves(s: State, acts: seq<Action>, i: nat) returns (k: int)
    requires Initial(s) && i < |Run(s, acts).log|
    ensures var d := Run(s, acts).log[i];
      && Took(s, acts, k, d.version, d.from, d.to)
      && acts[k].user == User(d.actor, d.role) && acts[k].Transition? && acts[k].writes >= 2
  {
    var n := |acts| - 1;
    var init := acts[..n];
    RunSnoc(s, acts, n);
    assert acts[..n + 1] == acts;
    if i < |Run(s, init).log| {
      StepContinues(Run(s, init), acts[n]);
      k := DecisionsAreMoves(s, init, i);
      assert init[..k] == acts[..k] && init[..k + 1] == acts[..k + 1];
    } else {
      k := n;
      var a := acts[n];
      TransitionMeans(s, init, a.user, a.id, a.target, a.writes);
      assert Route(a.user.role, Run(s, init).versions[a.id].status, a.target);
    }
  }

  /** Reviewers start, decide and retire; authors submit; nobody goes back to DRAFT. */
  lemma DecisionsHaveTheRole(s: State, acts: seq<Action>, i: nat)
    requires Initial(s) && i < |Run(s, acts).log|
    ensures var d := Run(s, acts).log[i];
      && d.to != Draft
      && (d.to == ReadyForReview ==> d.role == Accounts.Researcher || d.role == Accounts.Admin)
      && (d.to == UnderReview || d.to == Approved || d.to == Rejected || d.to == Retired ==>
            d.role == Accounts.Reviewer || d.role == Accounts.Admin)
      && (d.to == Approved ==> d.from == UnderReview)
      && (d.to == Approved && d.role != Accounts.Admin ==>
            d.version in Run(s, acts).versions && d.actor != Run(s, acts).versions[d.version].createdBy)
  {
    StudioInvariant(s, acts);
    assert DecisionInv(Run(s, acts), Run(s, acts).log[i]);
  }

  lemma NewWasCreated(b: State, a: Action, id: VersionId)
    requires id !in b.versions && id in Step(b, a).versions
    ensures a.Create? && a.acceptable && a.draft.experimentId == id.experimentId && Complete(a.draft)
    ensures a.user.role == Accounts.Researcher || a.user.role == Accounts.Admin
    ensures Step(b, a).versions[id] == Version(id, Draft, a.draft.(approval := StatusDraft), a.user.name)
  {
  }

  /** Call `k` created the version, as a DRAFT with the content given. */
  ghost predicate CreatedBy(s: State, acts: seq<Action>, k: int, id: VersionId) {
    && 0 <= k < |acts| && acts[k].Create? && acts[k].acceptable
    && acts[k].draft.experimentId == id.experimentId && Complete(acts[k].draft)
    && (acts[k].user.role == Accounts.Researcher || acts[k].user.role == Accounts.Admin)
    && id !in Run(s, acts[..k]).versions && id in Run(s, acts[..k + 1]).versions
    && Run(s, acts[..k + 1]).versions[id] == Version(id, Draft, acts[k].draft.(approval := StatusDraft), acts[k].user.name)
  }

  lemma CreatedEarlier(s: State, acts: seq<Action>, n: nat, k: int, id: VersionId)
    requires n <= |acts| && CreatedBy(s, acts[..n], k, id)
    ensures CreatedBy(s, acts, k, id) && acts[k] == acts[..n][k]
  {
    assert acts[..n][..k] == acts[..k] && acts[..n][..k + 1] == acts[..k + 1];
  }

  /** Every version was created by the RESEARCHER or ADMIN it names. */
  lemma {:induction false} VersionsWereCreated(s: State, acts: seq<Action>, id: VersionId) returns (k: int)
    requires Initial(s) && id in Run(s, acts).versions
    ensures CreatedBy(s, acts, k, id) && acts[k].user.name == Run(s, acts).versions[id].createdBy
  {
    var n := |acts| - 1;
    var init := acts[..n];
    if id in Run(s, init).versions {
      k := VersionsWereCreated(s, init, id);
      CreatedEarlier(s, acts, n, k, id);
      StepContinues(Run(s, init), acts[n]);
      assert Frozen(Run(s, init).versions[id], Run(s, acts).versions[id]);
    } else {
      k := n;
      assert acts[..n + 1] == acts;
      NewWasCreated(Run(s, init), acts[n], id);
    }
  }
}
