/** The Experiment Studio workflow (studio/, api/routes/studio.py) and the safety policy (policies/). */
module Studio {
  import opened Basics
  import Accounts

  type Role = Accounts.Role

  datatype ApprovalStatus = StatusDraft | PendingReview | StatusApproved | RevisionRequired | StatusRejected | Closed

  datatype Workflow = Draft | ReadyForReview | UnderReview | Approved | Rejected | Retired

  /** An experiment definition: its id, the four editable texts, the fields the safety policy reads,
      and everything else in `body`. */
  datatype Definition = Definition(
    experimentId: string, title: string, description: string, researchQuestion: string, hypothesis: string,
    externalTargeting: bool, syntheticInput: bool, weaponised: bool, body: string, approval: ApprovalStatus)

  datatype VersionId = VersionId(experimentId: string, number: nat)

  datatype Version = Version(id: VersionId, status: Workflow, definition: Definition, createdBy: string)

  datatype User = User(name: string, role: Role)

  /** One line of the approval history; the role is what the audit trail records with it. */
  datatype Decision = Decision(version: VersionId, from: Workflow, to: Workflow, actor: string, role: Role)

  /** Versions, approval history, and the published definition files by file name. */
  datatype State = State(versions: map<VersionId, Version>, log: seq<Decision>, files: map<string, Definition>)

  datatype Updates = Updates(title: Option<string>, description: Option<string>, researchQuestion: Option<string>,
                             hypothesis: Option<string>)

  /** One API call. `acceptable` says the pack, template, dataset and CVE references of a draft check out;
      `writes` says how many of its writes a transition gets to make before the process dies, if it does. */
  datatype Action =
    | Create(user: User, draft: Definition, acceptable: bool)
    | Edit(user: User, id: VersionId, updates: Updates)
    | Transition(user: User, id: VersionId, target: Workflow, writes: nat)
    | SubmitRun(user: User, id: VersionId)

  // -------------------------------------------------------------- safety policy

  datatype Context = LocalUnitTest | ExperimentRun

  /** SAFE-001 to SAFE-004; synthetic-only is the one safety level there is. */
  predicate Rule(k: nat, d: Definition, ctx: Context) {
    match k
    case 0 => !d.externalTargeting
    case 1 => d.syntheticInput
    case 2 => !d.weaponised
    case _ => ctx == LocalUnitTest || d.approval == StatusApproved
  }

  const RULES := 4

  predicate PolicyAllows(d: Definition, ctx: Context) {
    forall k :: 0 <= k < RULES ==> Rule(k, d, ctx)
  }

  /** Every rule is evaluated and recorded; the run is allowed when all of them passed. */
  method EvaluatePolicy(d: Definition, ctx: Context) returns (allowed: bool, results: seq<bool>)
    ensures results == [!d.externalTargeting, d.syntheticInput, !d.weaponised, ctx == LocalUnitTest || d.approval == StatusApproved]
    ensures allowed <==> forall k :: 0 <= k < |results| ==> results[k]
    ensures allowed <==> PolicyAllows(d, ctx)
  {
    results, allowed := [], true;
    for k := 0 to RULES
      invariant |results| == k && forall i :: 0 <= i < k ==> results[i] == Rule(i, d, ctx)
      invariant allowed <==> forall i :: 0 <= i < k ==> Rule(i, d, ctx)
    {
      var passed := Rule(k, d, ctx);
      results := results + [passed];
      allowed := allowed && passed;
    }
    assert Rule(0, d, ctx) == !d.externalTargeting && Rule(3, d, ctx) == (ctx == LocalUnitTest || d.approval == StatusApproved);
  }

  // ------------------------------------------------------------------ workflow

  predicate AllowedEdge(from: Workflow, to: Workflow) {
    match from
    case Draft => to == ReadyForReview
    case ReadyForReview => to == UnderReview || to == Draft
    case UnderReview => to == Approved || to == Rejected || to == ReadyForReview
    case Approved => to == Retired
    case Rejected => false
    case Retired => false
  }

  /** Which roles may ask for a transition; there is no route back to DRAFT. */
  predicate MayAsk(role: Role, target: Workflow) {
    match target
    case Draft => false
    case ReadyForReview => role.Researcher? || role.Admin?
    case _ => role.Reviewer? || role.Admin?
  }

  predicate MayWrite(role: Role) { role.Researcher? || role.Admin? }

  predicate MayRun(role: Role) { !role.Viewer? }

  function ApprovalFor(status: Workflow): ApprovalStatus {
    if status == Approved then StatusApproved else StatusDraft
  }

  /** Loading a row validates it again: no empty texts, matching ids, approval in step with the workflow. */
  predicate Readable(v: Version) {
    && v.definition.title != "" && v.definition.description != ""
    && v.definition.researchQuestion != "" && v.definition.hypothesis != ""
    && v.definition.experimentId == v.id.experimentId
    && v.definition.approval == ApprovalFor(v.status)
  }

  predicate Loads(versions: map<VersionId, Version>, id: VersionId) {
    id in versions && Readable(versions[id])
  }

  /** `list_versions` loads every version of the experiment, so one unreadable row fails it. */
  ghost predicate Lists(versions: map<VersionId, Version>, e: string) {
    forall id :: id in versions && id.experimentId == e ==> Readable(versions[id])
  }

  ghost predicate IsLatest(ids: set<VersionId>, e: string, n: nat) {
    && (forall id :: id in ids && id.experimentId == e ==> id.number <= n)
    && (n > 0 ==> VersionId(e, n) in ids)
  }

  /** `max(numbers, default=0)` */
  ghost function LatestNumber(ids: set<VersionId>, e: string): (n: nat)
    ensures IsLatest(ids, e, n)
    decreases |ids|
  {
    if ids == {} then 0
    else
      var id :| id in ids;
      var n := LatestNumber(ids - {id}, e);
      if id.experimentId == e && id.number > n then id.number else n
  }

  function Applied(d: Definition, u: Updates): Definition {
    d.(title := if u.title.Some? then u.title.value else d.title,
       description := if u.description.Some? then u.description.value else d.description,
       researchQuestion := if u.researchQuestion.Some? then u.researchQuestion.value else d.researchQuestion,
       hypothesis := if u.hypothesis.Some? then u.hypothesis.value else d.hypothesis)
  }

  function Moved(v: Version, target: Workflow): Version {
    v.(status := target, definition := v.definition.(approval := ApprovalFor(target)))
  }

  function FileName(e: string): string {
    e + ".json"
  }

  function Fresh(user: User, draft: Definition, n: nat): Version {
    Version(VersionId(draft.experimentId, n), Draft, draft.(approval := StatusDraft), user.name)
  }

  /** May this user have this version moved there? Nobody but an ADMIN approves their own version. */
  predicate MayMove(versions: map<VersionId, Version>, user: User, id: VersionId, target: Workflow) {
    && MayAsk(user.role, target)
    && Loads(versions, id)
    && !(target == Approved && user.name == versions[id].createdBy && !user.role.Admin?)
    && AllowedEdge(versions[id].status, target)
  }

  ghost function Step(s: State, a: Action): State {
    match a
    case Create(user, draft, acceptable) =>
      var v := Fresh(user, draft, LatestNumber(s.versions.Keys, draft.experimentId) + 1);
      if !MayWrite(user.role) || !Lists(s.versions, draft.experimentId) || !acceptable || !Readable(v) then s
      else s.(versions := s.versions[v.id := v])
    case Edit(user, id, updates) =>
      if !MayWrite(user.role) || !Loads(s.versions, id) || s.versions[id].status != Draft then s
      else s.(versions := s.versions[id := s.versions[id].(definition := Applied(s.versions[id].definition, updates))])
    case Transition(user, id, target, writes) =>
      if !MayMove(s.versions, user, id, target) || writes == 0 then s
      else
        var v := Moved(s.versions[id], target);
        State(s.versions[id := v],
              if writes == 1 then s.log
              else s.log + [Decision(id, s.versions[id].status, target, user.name, user.role)],
              if target == Approved && writes >= 3 then s.files[FileName(id.experimentId) := v.definition] else s.files)
    case SubmitRun(user, id) =>
      if !MayRun(user.role) || !Loads(s.versions, id) || s.versions[id].status != Approved then s
      else s.(files := s.files[FileName(id.experimentId) := s.versions[id].definition])
  }

  /** The studio's tables and directory, updated in place by its routes. */
  class ExperimentStudio {
    var versions: map<VersionId, Version>
    var log: seq<Decision>
    var files: map<string, Definition>

    function Contents(): State
      reads this
    {
      State(versions, log, files)
    }

    constructor (existing: map<string, Definition>)
      ensures Contents() == State(map[], [], existing)
    {
      versions, log, files := map[], [], existing;
    }

    /** One pass over the experiment's rows; raises when one of them does not load. */
    method LatestVersionNumber(e: string) returns (r: Result<nat>)
      ensures r.Raised? <==> !Lists(versions, e)
      ensures r.Ok? ==> r.value == LatestNumber(versions.Keys, e)
    {
      var todo := versions.Keys;
      var n := 0;
      while todo != {}
        invariant todo <= versions.Keys
        invariant forall id :: id in versions && id !in todo && id.experimentId == e ==> Readable(versions[id])
        invariant IsLatest(versions.Keys - todo, e, n)
        decreases |todo|
      {
        var id :| id in todo;
        if id.experimentId == e {
          if !Readable(versions[id]) {
            return Raised;
          }
          if id.number > n { n := id.number; }
        }
        todo := todo - {id};
      }
      assert versions.Keys - todo == versions.Keys;
      LatestUnique(versions.Keys, e, n, LatestNumber(versions.Keys, e));
      r := Ok(n);
    }

    method CreateVersion(user: User, draft: Definition, acceptable: bool) returns (r: Result<VersionId>)
      modifies this
      ensures Contents() == Step(old(Contents()), Create(user, draft, acceptable))
      ensures r.Ok? ==> r.value !in old(versions) && r.value in versions && versions[r.value].createdBy == user.name
      ensures r.Raised? ==> Contents() == old(Contents())
    {
      if !MayWrite(user.role) {
        return Raised;
      }
      var latest := LatestVersionNumber(draft.experimentId);
      if latest.Raised? {
        return Raised;
      }
      var v := Fresh(user, draft, latest.value + 1);
      if !acceptable || !Readable(v) {
        return Raised;
      }
      versions := versions[v.id := v];
      return Ok(v.id);
    }

    method EditVersion(user: User, id: VersionId, updates: Updates) returns (ok: bool)
      modifies this
      ensures Contents() == Step(old(Contents()), Edit(user, id, updates))
      ensures ok <==> (user.role.Researcher? || user.role.Admin?) && old(Loads(versions, id)) && old(versions)[id].status == Draft
    {
      if !MayWrite(user.role) || id !in versions || !Readable(versions[id]) || versions[id].status != Draft {
        return false;
      }
      var v := versions[id];
      versions := versions[id := v.(definition := Applied(v.definition, updates))];
      return true;
    }

    /** Saves the moved version, appends the decision, and publishes the definition on approval: three
        separate writes, and the process may die before any of them. */
    method DoTransition(user: User, id: VersionId, target: Workflow, writes: nat) returns (ok: bool)
      modifies this
      ensures Contents() == Step(old(Contents()), Transition(user, id, target, writes))
      ensures ok <==> MayMove(old(versions), user, id, target) && writes >= (if target == Approved then 3 else 2)
    {
      if !MayAsk(user.role, target) || id !in versions || !Readable(versions[id]) {
        return false;
      }
      var v := versions[id];
      if target == Approved && user.name == v.createdBy && !user.role.Admin? {
        return false;
      }
      if !AllowedEdge(v.status, target) {
        return false;
      }
      var moved := Moved(v, target);
      if writes == 0 { return false; }
      versions := versions[id := moved];
      if writes == 1 { return false; }
      log := log + [Decision(id, v.status, target, user.name, user.role)];
      if target == Approved {
        if writes == 2 { return false; }
        files := files[FileName(id.experimentId) := moved.definition];
      }
      return true;
    }

    method SubmitVersionRun(user: User, id: VersionId) returns (ok: bool)
      modifies this
      ensures Contents() == Step(old(Contents()), SubmitRun(user, id))
      ensures ok <==> !user.role.Viewer? && old(Loads(versions, id)) && old(versions)[id].status == Approved
    {
      if !MayRun(user.role) || id !in versions || !Readable(versions[id]) || versions[id].status != Approved {
        return false;
      }
      files := files[FileName(id.experimentId) := versions[id].definition];
      return true;
    }
  }

  lemma LatestUnique(ids: set<VersionId>, e: string, m: nat, n: nat)
    requires IsLatest(ids, e, m) && IsLatest(ids, e, n)
    ensures m == n
  {
    if m > 0 { assert VersionId(e, m) in ids; }
    if n > 0 { assert VersionId(e, n) in ids; }
  }
}
