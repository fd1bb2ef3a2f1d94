/** What the studio publishes, and what the runner then finds (studio/builder.py, experiments/discovery.py). */
module StudioPublishing {
  import opened Basics
  import opened Studio
  import opened StudioSafety

  // ------------------------------------------------------------------- lookup

  /** Code-point order on file names: how `sorted` lists the files of a directory. */
  predicate Before(a: string, b: string) {
    |b| > 0 && (|a| == 0 || a[0] < b[0] || (a[0] == b[0] && Before(a[1..], b[1..])))
  }

  /** One name is a proper prefix of the other, or has the smaller character where they first differ. */
  lemma {:induction false} BeforeIff(a: string, b: string)
    ensures Before(a, b) <==>
      exists k :: 0 <= k <= |a| && k < |b| && a[..k] == b[..k] && (k == |a| || a[k] < b[k])
  {
    if |a| == 0 || |b| == 0 || a[0] != b[0] {
      if Before(a, b) { assert a[..0] == b[..0]; }
      forall k | 0 < k <= |a| && k < |b| ensures a[..k] != b[..k] { assert a[0] != b[0] && a[..k][0] == a[0] && b[..k][0] == b[0]; }
    } else {
      BeforeIff(a[1..], b[1..]);
      if k :| 0 <= k <= |a[1..]| && k < |b[1..]| && a[1..][..k] == b[1..][..k] && (k == |a[1..]| || a[1..][k] < b[1..][k]) {
        assert a[..k + 1] == [a[0]] + a[1..][..k] && b[..k + 1] == [b[0]] + b[1..][..k];
      }
      if k :| 0 <= k <= |a| && k < |b| && a[..k] == b[..k] && (k == |a| || a[k] < b[k]) {
        assert k > 0;
        assert a[1..][..k - 1] == a[..k][1..] && b[1..][..k - 1] == b[..k][1..];
      }
    }
  }

  lemma {:induction false} BeforeIsTotal(a: string, b: string)
    ensures a == b || Before(a, b) || Before(b, a)
  {
    if |a| == 0 || |b| == 0 {
    } else if a[0] == b[0] {
      BeforeIsTotal(a[1..], b[1..]);
      if a[1..] == b[1..] { assert a == [a[0]] + a[1..] && b == [b[0]] + b[1..]; }
    }
  }

  lemma {:induction false} BeforeIsStrict(a: string, b: string)
    requires Before(a, b)
    ensures a != b && !Before(b, a)
  {
    if |a| > 0 && a[0] == b[0] { BeforeIsStrict(a[1..], b[1..]); }
  }

  /** The sorted listing of the definition files of the directory. */
  ghost predicate Listing(files: map<string, Definition>, names: seq<string>) {
    && (forall f :: f in files <==> f in names)
    && (forall i, j :: 0 <= i < j < |names| ==> Before(names[i], names[j]))
  }

  predicate Holds(files: map<string, Definition>, f: string, e: string) {
    f in files && files[f].experimentId == e
  }

  /** The file is the first one of the experiment. */
  ghost predicate Finds(files: map<string, Definition>, e: string, f: string) {
    Holds(files, f, e) && forall g :: Holds(files, g, e) && g != f ==> Before(f, g)
  }

  /** `find_experiment`: the first file in the sorted listing that names the experiment. */
  method FindExperiment(files: map<string, Definition>, names: seq<string>, e: string) returns (found: Option<Definition>)
    requires Listing(files, names)
    ensures found.None? <==> forall f :: !Holds(files, f, e)
    ensures found.Some? ==> exists f :: Finds(files, e, f) && files[f] == found.value
  {
    for i := 0 to |names|
      invariant forall j :: 0 <= j < i ==> !Holds(files, names[j], e)
    {
      assert names[i] in files;
      if files[names[i]].experimentId == e {
        forall g | Holds(files, g, e) && g != names[i] ensures Before(names[i], g) {
          var j :| 0 <= j < |names| && names[j] == g;
        }
        assert Finds(files, e, names[i]);
        return Some(files[names[i]]);
      }
    }
    return None;
  }

  // -------------------------------------------------------------- publication

  /** The version of experiment `e` that the run published last. */
  ghost function LastPublished(s: State, acts: seq<Action>, e: string): Option<VersionId> {
    if acts == [] then None
    else
      var init := acts[..|acts| - 1];
      var now := Publishes(Run(s, init), acts[|acts| - 1], e);
      if now.Some? then now else LastPublished(s, init, e)
  }

  lemma PublishedStep(s: State, a: Action, e: string)
    ensures var t := Step(s, a); var f := FileName(e);
      if Publishes(s, a, e).Some?
      then f in t.files && Publishes(s, a, e).value.experimentId == e && Backed(t, t.files[f], Publishes(s, a, e).value)
      else (f in t.files <==> f in s.files) && (f in s.files ==> t.files[f] == s.files[f])
  {
    FilesStep(s, a, FileName(e));
    forall x | Publishes(s, a, x).Some? && FileName(e) == FileName(x) ensures x == e { NamesDiffer(e, x); }
  }

  /** In every run an experiment's file is approved content exactly when one of its versions was
      published, by approval or by submitting a run; it is then the content of the one published last,
      and otherwise what was there at the start. */
  lemma {:induction false} PublishedFile(s: State, acts: seq<Action>, e: string)
    requires Initial(s)
    ensures var t, p, f := Run(s, acts), LastPublished(s, acts, e), FileName(e);
      && (p.Some? ==> p.value.experimentId == e && f in t.files && Backed(t, t.files[f], p.value))
      && (p.None? ==> (f in t.files <==> f in s.files) && (f in s.files ==> t.files[f] == s.files[f]))
      && (p.Some? <==> f in t.files && t.files[f].approval == StatusApproved)
  {
    if acts == [] {
    } else {
      var init, a := acts[..|acts| - 1], acts[|acts| - 1];
      PublishedFile(s, init, e);
      PublishedStep(Run(s, init), a, e);
      StepContinues(Run(s, init), a);
      var p := LastPublished(s, init, e);
      if p.Some? { BackedContinues(Run(s, init), Run(s, acts), Run(s, init).files[FileName(e)], p.value); }
    }
  }

  /** A file whose name no published experiment has is as it was at the start. */
  lemma {:induction false} ForeignFile(s: State, acts: seq<Action>, f: string)
    requires forall e :: f == FileName(e) ==> LastPublished(s, acts, e).None?
    ensures var t := Run(s, acts); (f in t.files <==> f in s.files) && (f in s.files ==> t.files[f] == s.files[f])
  {
    if acts == [] {
    } else {
      var init := acts[..|acts| - 1];
      forall e | f == FileName(e) ensures LastPublished(s, init, e).None? && Publishes(Run(s, init), acts[|acts| - 1], e).None? {
        assert LastPublished(s, acts, e).None?;
      }
      ForeignFile(s, init, f);
      FilesStep(Run(s, init), acts[|acts| - 1], f);
    }
  }

  /** A file of the directory the studio started with that names the experiment, sorts before the
      experiment's own file, and was not published over. */
  ghost predicate Shadows(s: State, acts: seq<Action>, e: string, f: string) {
    && Holds(s.files, f, e) && Before(f, FileName(e))
    && forall x :: f == FileName(x) ==> LastPublished(s, acts, x).None?
  }

  /** The files that name an experiment: its own, and those the directory came with. */
  lemma OtherFiles(s: State, acts: seq<Action>, e: string, f: string)
    requires Initial(s) && f != FileName(e)
    ensures Holds(Run(s, acts).files, f, e) <==>
      Holds(s.files, f, e) && forall x :: f == FileName(x) ==> LastPublished(s, acts, x).None?
  {
    var t := Run(s, acts);
    if x :| f == FileName(x) && LastPublished(s, acts, x).Some? {
      PublishedFile(s, acts, x);
      StudioInvariant(s, acts);
      var id := LastPublished(s, acts, x).value;
      assert VersionInv(t.versions[id], id);
    } else {
      ForeignFile(s, acts, f);
    }
  }

  /** The runner finds the experiment's own file exactly when that is there, names the experiment and
      nothing shadows it. */
  lemma OwnFileFound(s: State, acts: seq<Action>, e: string)
    requires Initial(s)
    ensures Finds(Run(s, acts).files, e, FileName(e)) <==>
      Holds(Run(s, acts).files, FileName(e), e) && forall f :: !Shadows(s, acts, e, f)
  {
    var t, own := Run(s, acts), FileName(e);
    forall f | f != own ensures Holds(t.files, f, e) && Before(f, own) <==> Shadows(s, acts, e, f) {
      OtherFiles(s, acts, e, f);
    }
    if Finds(t.files, e, own) {
      forall f ensures !Shadows(s, acts, e, f) {
        if Shadows(s, acts, e, f) { BeforeIsStrict(f, own); }
      }
    } else if Holds(t.files, own, e) {
      var f :| Holds(t.files, f, e) && f != own && !Before(own, f);
      BeforeIsTotal(f, own);
      assert Shadows(s, acts, e, f);
    }
  }

  /** The runner, asked for the experiment, finds this definition and the policy lets it run. */
  ghost predicate Runs(s: State, e: string, d: Definition) {
    PolicyAllows(d, ExperimentRun) && exists f :: Finds(s.files, e, f) && s.files[f] == d
  }

  /** SAFE-001 to SAFE-003. */
  predicate Harmless(d: Definition) {
    !d.externalTargeting && d.syntheticInput && !d.weaponised
  }

  /** What the four rules let through for an experiment run. */
  lemma HarmlessRuns(d: Definition)
    ensures PolicyAllows(d, ExperimentRun) <==> Harmless(d) && d.approval == StatusApproved
    ensures PolicyAllows(d, LocalUnitTest) <==> Harmless(d)
  {
    if PolicyAllows(d, ExperimentRun) { assert Rule(0, d, ExperimentRun) && Rule(1, d, ExperimentRun) && Rule(2, d, ExperimentRun) && Rule(3, d, ExperimentRun); }
    if PolicyAllows(d, LocalUnitTest) { assert Rule(0, d, LocalUnitTest) && Rule(1, d, LocalUnitTest) && Rule(2, d, LocalUnitTest); }
  }

  /** The content of a version is what runs for its experiment exactly when it meets the first three
      rules, is what the version of its experiment published last holds, and no file the directory
      came with shadows the published one. Its status does not come into it: a retired version that
      was published last, or has the content of the one that was, still runs. */
  lemma ContentRunsIff(s: State, acts: seq<Action>, id: VersionId)
    requires Initial(s) && id in Run(s, acts).versions
    ensures var t, e := Run(s, acts), id.experimentId; var p := LastPublished(s, acts, e);
      Runs(t, e, Content(t.versions[id])) <==>
        && Harmless(Content(t.versions[id]))
        && p.Some? && p.value in t.versions && Content(t.versions[p.value]) == Content(t.versions[id])
        && forall f :: !Shadows(s, acts, e, f)
  {
    var t, e := Run(s, acts), id.experimentId;
    var d := Content(t.versions[id]);
    StudioInvariant(s, acts);
    PublishedFile(s, acts, e);
    OwnFileFound(s, acts, e);
    assert VersionInv(t.versions[id], id);
    HarmlessRuns(d);
    if f :| Finds(t.files, e, f) && t.files[f] == d {
      assert FileInv(t, f);
      assert f == FileName(e);
    }
  }
}
