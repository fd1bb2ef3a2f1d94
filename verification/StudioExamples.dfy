/** Short runs of the studio in which the exceptions of its theorems occur. Each starts from a studio
    without versions and works for every draft that validates. */
module StudioExamples {
  import opened Basics
  import Accounts
  import opened Studio
  import opened StudioSafety
  import opened StudioPublishing

  datatype Cast = Cast(draft: Definition, author: string, reviewer: string) {
    predicate Valid() {
      && author != reviewer
      && draft.title != "" && draft.description != "" && draft.researchQuestion != "" && draft.hypothesis != ""
    }

    function Id(): VersionId { VersionId(draft.experimentId, 1) }

    function Creates(): Action { Create(User(author, Accounts.Researcher), draft, true) }

    function Submits(writes: nat): Action { Transition(User(author, Accounts.Researcher), Id(), ReadyForReview, writes) }

    function Reviews(target: Workflow, writes: nat): Action { Transition(User(reviewer, Accounts.Reviewer), Id(), target, writes) }

    function Blanks(): Action { Edit(User(author, Accounts.Researcher), Id(), Updates(Some(""), None, None, None)) }

    function Runs(): Action { SubmitRun(User(author, Accounts.Researcher), Id()) }
  }

  lemma Snoc(s: State, acts: seq<Action>, a: Action, id: VersionId)
    ensures Run(s, acts + [a]) == Step(Run(s, acts), a)
    ensures LostDecision(s, acts + [a], id) <==> LostDecision(s, acts, id) || Loses(Run(s, acts), a, id)
    ensures LostApproval(s, acts + [a], id) <==>
      LostApproval(s, acts, id) || (Loses(Run(s, acts), a, id) && a.target == Approved)
    ensures Blanked(s, acts + [a], id) <==> Blanked(s, acts, id) || BlanksVersion(Run(s, acts), a, id)
  {
    assert (acts + [a])[..|acts|] == acts;
  }

  lemma SnocPublished(s: State, acts: seq<Action>, a: Action, e: string)
    ensures var now := Publishes(Run(s, acts), a, e);
      LastPublished(s, acts + [a], e) == if now.Some? then now else LastPublished(s, acts, e)
  {
    assert (acts + [a])[..|acts|] == acts;
  }

  /** Every draft that validates gets created. */
  lemma Created(s: State, c: Cast)
    requires Initial(s) && c.Valid()
    ensures var t := Run(s, [c.Creates()]);
      t == s.(versions := map[c.Id() := Fresh(User(c.author, Accounts.Researcher), c.draft, 1)])
    ensures !LostDecision(s, [c.Creates()], c.Id()) && !LostApproval(s, [c.Creates()], c.Id())
    ensures !Blanked(s, [c.Creates()], c.Id()) && forall e :: LastPublished(s, [c.Creates()], e).None?
  {
    Snoc(s, [], c.Creates(), c.Id());
    assert [] + [c.Creates()] == [c.Creates()];
    forall e ensures LastPublished(s, [c.Creates()], e).None? { SnocPublished(s, [], c.Creates(), e); }
  }

  /** What was published last after a move, given what was before. */
  function Publication(c: Cast, a: Action, e: string, before: Option<VersionId>): Option<VersionId>
    requires a.Transition?
  {
    if a.target == Approved && a.writes >= 3 && e == c.draft.experimentId then Some(c.Id()) else before
  }

  /** One move of the version, recorded or not, and published if it is an approval that gets that far. */
  lemma Moves(s: State, acts: seq<Action>, c: Cast, a: Action)
    requires a.Transition? && a.id == c.Id() && a.writes >= 1 && MayMove(Run(s, acts).versions, a.user, c.Id(), a.target)
    ensures var t, u := Run(s, acts), Run(s, acts + [a]); var v := t.versions[c.Id()];
      && u.versions == t.versions[c.Id() := Moved(v, a.target)]
      && u.log == t.log + (if a.writes == 1 then [] else [Decision(c.Id(), v.status, a.target, a.user.name, a.user.role)])
      && (a.target != Approved || a.writes < 3 ==> u.files == t.files)
    ensures LostDecision(s, acts + [a], c.Id()) <==> LostDecision(s, acts, c.Id()) || a.writes == 1
    ensures LostApproval(s, acts + [a], c.Id()) <==>
      LostApproval(s, acts, c.Id()) || (a.writes == 1 && a.target == Approved)
    ensures forall e :: LastPublished(s, acts + [a], e) == Publication(c, a, e, LastPublished(s, acts, e))
  {
    Snoc(s, acts, a, c.Id());
    forall e ensures LastPublished(s, acts + [a], e) == Publication(c, a, e, LastPublished(s, acts, e)) {
      SnocPublished(s, acts, a, e);
    }
  }

  function UpToReview(c: Cast): seq<Action> {
    [c.Creates()] + [c.Submits(2)] + [c.Reviews(UnderReview, 2)]
  }

  lemma InReview(s: State, c: Cast)
    requires Initial(s) && c.Valid()
    ensures var t := Run(s, UpToReview(c));
      && t.versions == map[c.Id() := Fresh(User(c.author, Accounts.Researcher), c.draft, 1).(status := UnderReview)]
      && t.log == [Decision(c.Id(), Draft, ReadyForReview, c.author, Accounts.Researcher),
                   Decision(c.Id(), ReadyForReview, UnderReview, c.reviewer, Accounts.Reviewer)]
      && t.files == s.files
    ensures !LostDecision(s, UpToReview(c), c.Id()) && !LostApproval(s, UpToReview(c), c.Id())
    ensures forall e :: LastPublished(s, UpToReview(c), e).None?
  {
    Created(s, c);
    Moves(s, [c.Creates()], c, c.Submits(2));
    Moves(s, [c.Creates()] + [c.Submits(2)], c, c.Reviews(UnderReview, 2));
  }

  /** Created, submitted, reviewed, and approved by a process that dies before it records the approval;
      then a run is submitted. The file passes the policy and no review is on record. */
  lemma ApprovalWithoutRecord(s: State, c: Cast)
    requires Initial(s) && c.Valid() && Harmless(c.draft)
    ensures var acts := UpToReview(c) + [c.Reviews(Approved, 1)] + [c.Runs()]; var t, f := Run(s, acts), FileName(c.draft.experimentId);
      && f in t.files && PolicyAllows(t.files[f], ExperimentRun) && Backed(t, t.files[f], c.Id())
      && LostApproval(s, acts, c.Id()) && !exists i :: Reviewed(t, c.Id(), i)
  {
    InReview(s, c);
    var acts := UpToReview(c) + [c.Reviews(Approved, 1)];
    Moves(s, UpToReview(c), c, c.Reviews(Approved, 1));
    Snoc(s, acts, c.Runs(), c.Id());
    var t := Run(s, acts + [c.Runs()]);
    assert t.files[FileName(c.draft.experimentId)] == Content(t.versions[c.Id()]);
    HarmlessRuns(t.files[FileName(c.draft.experimentId)]);
    ReviewedIff(s, acts + [c.Runs()], c.Id());
  }

  /** Created, submitted, reviewed, approved and retired: the content still runs. */
  lemma RetiredRuns(s: State, c: Cast)
    requires Initial(s) && c.Valid() && Harmless(c.draft)
    requires forall f :: !(Holds(s.files, f, c.draft.experimentId) && Before(f, FileName(c.draft.experimentId)))
    ensures var acts := UpToReview(c) + [c.Reviews(Approved, 3)] + [c.Reviews(Retired, 2)]; var t := Run(s, acts);
      && c.Id() in t.versions && t.versions[c.Id()].status == Retired
      && Runs(t, c.draft.experimentId, Content(t.versions[c.Id()]))
  {
    InReview(s, c);
    var acts := UpToReview(c) + [c.Reviews(Approved, 3)];
    Moves(s, UpToReview(c), c, c.Reviews(Approved, 3));
    Moves(s, acts, c, c.Reviews(Retired, 2));
    ContentRunsIff(s, acts + [c.Reviews(Retired, 2)], c.Id());
  }

  /** The same without the retirement, but over a directory in which another file with the experiment's
      id sorts first: the approved content does not run. */
  lemma ShadowedDoesNotRun(s: State, c: Cast, f: string)
    requires Initial(s) && c.Valid()
    requires Holds(s.files, f, c.draft.experimentId) && Before(f, FileName(c.draft.experimentId))
    ensures var t := Run(s, UpToReview(c) + [c.Reviews(Approved, 3)]);
      && c.Id() in t.versions && t.versions[c.Id()].status == Approved
      && !Runs(t, c.draft.experimentId, Content(t.versions[c.Id()]))
  {
    InReview(s, c);
    var acts := UpToReview(c) + [c.Reviews(Approved, 3)];
    Moves(s, UpToReview(c), c, c.Reviews(Approved, 3));
    BeforeIsStrict(f, FileName(c.draft.experimentId));
    assert Shadows(s, acts, c.draft.experimentId, f);
    ContentRunsIff(s, acts, c.Id());
  }

  /** Created, and its title edited to the empty string: the version does not load. */
  lemma EditedAway(s: State, c: Cast)
    requires Initial(s) && c.Valid()
    ensures var acts := [c.Creates()] + [c.Blanks()];
      c.Id() in Run(s, acts).versions && Blanked(s, acts, c.Id()) && !Loads(Run(s, acts).versions, c.Id())
  {
    Created(s, c);
    Snoc(s, [c.Creates()], c.Blanks(), c.Id());
  }

  /** Sent back and taken up again by processes that die before recording it: two decisions are lost,
      and the history still leads from DRAFT to the status. */
  lemma LostAndStillChained(s: State, c: Cast)
    requires Initial(s) && c.Valid()
    ensures var acts := UpToReview(c) + [c.Submits(1)]
                        + [c.Reviews(UnderReview, 1)]; var t := Run(s, acts);
      && LostDecision(s, acts, c.Id()) && c.Id() in t.versions
      && Chained(t.log, c.Id(), t.versions[c.Id()].status)
  {
    InReview(s, c);
    Moves(s, UpToReview(c), c, c.Submits(1));
    Moves(s, UpToReview(c) + [c.Submits(1)], c, c.Reviews(UnderReview, 1));
    HistoryAtReview(s, c);
  }

  lemma HistoryAtReview(s: State, c: Cast)
    requires Initial(s) && c.Valid()
    ensures Chained(Run(s, UpToReview(c)).log, c.Id(), UnderReview)
  {
    InReview(s, c);
    AlwaysChainedIff(s, UpToReview(c), c.Id());
    assert ChainedNow(Run(s, UpToReview(c)), c.Id());
  }

  /** Submitted by a process that dies before recording it, and then reviewed: the history is no path. */
  lemma LostAndBroken(s: State, c: Cast)
    requires Initial(s) && c.Valid()
    ensures var acts := [c.Creates()] + [c.Submits(1)] + [c.Reviews(UnderReview, 2)]; var t := Run(s, acts);
      c.Id() in t.versions && forall end :: !Chained(t.log, c.Id(), end)
  {
    Created(s, c);
    Moves(s, [c.Creates()], c, c.Submits(1));
    Moves(s, [c.Creates()] + [c.Submits(1)], c, c.Reviews(UnderReview, 2));
    var log := Run(s, [c.Creates()] + [c.Submits(1)] + [c.Reviews(UnderReview, 2)]).log;
    assert log[..0] == [];
  }
}
