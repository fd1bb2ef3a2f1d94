/** Which bytes end up where, and how a delivery ends, read off what the outside world decided. */
module EvidenceContent {
  import opened Basics
  import opened RunJobs
  import opened EvidenceSafety

  /** The directory of the run holds these five artefacts. */
  ghost predicate Saved(files: map<File, Bytes>, e: string, run: RunId, contents: seq<Bytes>) {
    && |contents| == 5
    && File(e, run, ExperimentJson) in files && files[File(e, run, ExperimentJson)] == contents[0]
    && File(e, run, DatasetManifestJson) in files && files[File(e, run, DatasetManifestJson)] == contents[1]
    && File(e, run, ResultsJson) in files && files[File(e, run, ResultsJson)] == contents[2]
    && File(e, run, MetricsJson) in files && files[File(e, run, MetricsJson)] == contents[3]
    && File(e, run, ManifestJson) in files && files[File(e, run, ManifestJson)] == contents[4]
  }

  ghost predicate Free(files: map<File, Bytes>, e: string, run: RunId) {
    forall a: Artefact :: File(e, run, a) !in files
  }

  /** Nothing stands in the way of the run. */
  ghost predicate Clear(d: Disk, e: string, env: Env) {
    && env.resolvable && env.loadable && env.allowed && env.consistent
    && Free(d.files, e, RunId(env.stamp, Baseline)) && Free(d.files, e, RunId(env.stamp, Mitigated))
  }

  /** The delivery runs to success: all seventeen writes of its run are made. */
  ghost predicate Finishes(d: Disk, msg: Message, env: Env) {
    env.found && Clear(d, msg.experiment, env) && env.fault >= 17
  }

  /** The safety policy turns the delivery down, and no exception strikes before it does. */
  predicate Turned(env: Env) {
    env.found && env.resolvable && env.loadable && !env.allowed && env.fault >= 2
  }

  // ------------------------------------------------------------ effects of writes

  ghost predicate DistinctWrites(ops: seq<Op>) {
    && (forall i :: 0 <= i < |ops| ==> ops[i].Write?)
    && (forall i, j :: 0 <= i < j < |ops| ==> ops[i].file != ops[j].file)
  }

  /** All the writes are there, and nothing else is touched. */
  ghost predicate Landed(d: Disk, t: Disk, ops: seq<Op>)
    requires forall i :: 0 <= i < |ops| ==> ops[i].Write?
  {
    && (forall i :: 0 <= i < |ops| ==> ops[i].file in t.files && t.files[ops[i].file] == ops[i].content)
    && (forall x :: !Targets(ops, x) ==> (x in t.files <==> x in d.files) && (x in d.files ==> t.files[x] == d.files[x]))
    && t.comparisons == d.comparisons && t.jobs == d.jobs
  }

  ghost predicate Targets(ops: seq<Op>, x: File)
    requires forall i :: 0 <= i < |ops| ==> ops[i].Write?
  {
    exists i :: 0 <= i < |ops| && ops[i].file == x
  }

  lemma LandedSnoc(d: Disk, before: Disk, t: Disk, ops: seq<Op>)
    requires DistinctWrites(ops) && ops != [] && DistinctWrites(ops[..|ops| - 1]) && Landed(d, before, ops[..|ops| - 1])
    requires t == Apply(before, ops[|ops| - 1])
    ensures Landed(d, t, ops)
  {
    var init, last := ops[..|ops| - 1], ops[|ops| - 1];
    forall x | !Targets(ops, x) ensures !Targets(init, x) && x != last.file { }
    forall i | 0 <= i < |ops| ensures ops[i].file in t.files && t.files[ops[i].file] == ops[i].content {
      if i < |init| { assert init[i] == ops[i] && ops[i].file != last.file; }
    }
  }

  /** Writes to different files all land, and touch nothing else. */
  lemma {:induction false} WritesLand(d: Disk, ops: seq<Op>)
    requires DistinctWrites(ops)
    ensures Landed(d, ApplyAll(d, ops), ops)
  {
    if ops == [] {
    } else {
      var init := ops[..|ops| - 1];
      assert DistinctWrites(init);
      WritesLand(d, init);
      ApplyLast(d, ops);
      LandedSnoc(d, ApplyAll(d, init), ApplyAll(d, ops), ops);
    }
  }

  lemma BundleLands(d: Disk, e: string, run: RunId, contents: seq<Bytes>)
    requires |contents| == 5
    ensures var t := ApplyAll(d, BundleOps(e, run, contents));
      && Saved(t.files, e, run, contents)
      && (forall x: File :: x.run != run ==> (x in t.files <==> x in d.files) && (x in d.files ==> t.files[x] == d.files[x]))
      && t.comparisons == d.comparisons && t.jobs == d.jobs
  {
    var ops := BundleOps(e, run, contents);
    WritesLand(d, ops);
    assert ops[0].file == File(e, run, ExperimentJson) && ops[1].file == File(e, run, DatasetManifestJson);
    assert ops[2].file == File(e, run, ResultsJson) && ops[3].file == File(e, run, MetricsJson);
    assert ops[4].file == File(e, run, ManifestJson);
    forall x: File | x.run != run ensures !Targets(ops, x) { }
  }

  lemma FreeIsEmpty(files: map<File, Bytes>, e: string, run: RunId)
    ensures DirEmpty(files, e, run) <==> Free(files, e, run)
  {
    if DirEmpty(files, e, run) {
      forall a: Artefact ensures File(e, run, a) !in files {
        match a case ExperimentJson => case DatasetManifestJson => case ResultsJson => case MetricsJson => case ManifestJson =>
      }
    }
  }

  ghost predicate Neutral(op: Op) {
    op.Emit? || op.SaveJob?
  }

  lemma {:induction false} NeutralLeaves(d: Disk, ops: seq<Op>)
    requires forall i :: 0 <= i < |ops| ==> Neutral(ops[i])
    ensures ApplyAll(d, ops).files == d.files && ApplyAll(d, ops).comparisons == d.comparisons
  {
    if ops == [] {
    } else {
      NeutralLeaves(d, ops[..|ops| - 1]);
      ApplyLast(d, ops);
    }
  }

  /** Everything of the delivery's experiment and stamp is in place. */
  ghost predicate InPlace(t: Disk, e: string, env: Env) {
    && Saved(t.files, e, RunId(env.stamp, Baseline), env.baseline)
    && Saved(t.files, e, RunId(env.stamp, Mitigated), env.mitigation)
  }

  ghost predicate PointsAt(t: Disk, e: string, env: Env) {
    e in t.comparisons && t.comparisons[e] == Comparison(RunId(env.stamp, Baseline), RunId(env.stamp, Mitigated), env.report)
  }

  /** Saving the evidence: eleven writes when both directories are free, the last of them the pointer. */
  lemma EvidenceLands(d: Disk, e: string, env: Env)
    requires ValidEnv(env)
    ensures var (ops, ending) := EvidenceOps(d, e, env);
      var free := Free(d.files, e, RunId(env.stamp, Baseline)) && Free(d.files, e, RunId(env.stamp, Mitigated));
      && (ending == (if free then Finished else InternalError)) && (free ==> |ops| == 11)
      && (forall i :: 0 <= i < |ops| ==> (ops[i].SaveComparison? <==> free && i == 10) && !ops[i].SaveJob?)
      && (free ==> InPlace(ApplyAll(d, ops), e, env) && PointsAt(ApplyAll(d, ops), e, env))
  {
    var base, mit := RunId(env.stamp, Baseline), RunId(env.stamp, Mitigated);
    var b, m := BundleOps(e, base, env.baseline), BundleOps(e, mit, env.mitigation);
    var d1 := ApplyAll(d, b);
    FreeIsEmpty(d.files, e, base);
    FreeIsEmpty(d1.files, e, mit);
    BundleLands(d, e, base, env.baseline);
    BundleLands(d1, e, mit, env.mitigation);
    if Free(d.files, e, base) {
      assert Free(d1.files, e, mit) <==> Free(d.files, e, mit);
      if Free(d.files, e, mit) {
        var pointer := SaveComparison(e, Comparison(base, mit, env.report));
        ApplyConcat(d, b, m);
        ApplyLast(d, b + m + [pointer]);
        assert (b + m + [pointer])[..10] == b + m;
      }
    }
  }

  lemma MeasuringOps(id: string, recorded: EventType -> bool)
    ensures var ops := EmitAll(id, MEASURING, recorded);
      |ops| == 4 && forall i :: 0 <= i < |ops| ==> ops[i].Emit?
  {
    EmitAllEmits(id, MEASURING, recorded);
    assert |MEASURING| == 4;
    EmitAllLength(id, MEASURING, recorded);
  }

  lemma {:induction false} EmitAllLength(id: string, events: seq<EventType>, recorded: EventType -> bool)
    ensures |EmitAll(id, events, recorded)| == |events|
  {
    if events == [] {
    } else {
      EmitAllLength(id, events[1..], recorded);
    }
  }

  lemma AllowedLands(d: Disk, msg: Message, env: Env)
    requires ValidEnv(env)
    ensures var (ops, ending) := AllowedOps(d, msg, env); var e := msg.experiment;
      var free := Free(d.files, e, RunId(env.stamp, Baseline)) && Free(d.files, e, RunId(env.stamp, Mitigated));
      && (ending == (if free then Finished else InternalError)) && (free ==> |ops| == 15)
      && (forall i :: 0 <= i < |ops| ==> (ops[i].SaveComparison? <==> free && i == 14) && !ops[i].SaveJob?)
      && (free ==> InPlace(ApplyAll(d, ops), e, env) && PointsAt(ApplyAll(d, ops), e, env))
  {
    var measure := EmitAll(msg.jobId, MEASURING, env.recorded);
    MeasuringOps(msg.jobId, env.recorded);
    NeutralLeaves(d, measure);
    var d1 := ApplyAll(d, measure);
    EvidenceLands(d1, msg.experiment, env);
    ApplyConcat(d, measure, EvidenceOps(d1, msg.experiment, env).0);
  }

  /** The run of a delivery: how it ends, and that only its seventeenth write is a comparison. */
  lemma RunLands(d: Disk, msg: Message, env: Env)
    requires ValidEnv(env)
    ensures var (ops, ending) := RunOps(d, msg, env); var clear := Clear(d, msg.experiment, env);
      && (ending == Finished <==> clear) && (clear ==> |ops| == 17)
      && (ending == Refused <==> env.resolvable && env.loadable && !env.allowed) && (ending == Refused ==> |ops| == 2)
      && (forall i :: 0 <= i < |ops| ==> (ops[i].SaveComparison? <==> clear && i == 16) && !ops[i].SaveJob?)
      && (clear ==> InPlace(ApplyAll(d, ops), msg.experiment, env) && PointsAt(ApplyAll(d, ops), msg.experiment, env))
  {
    var opening := [Emit(msg.jobId, Preparing, env.recorded(Preparing))] + [Emit(msg.jobId, SafetyCheck, env.recorded(SafetyCheck))];
    NeutralLeaves(d, opening);
    var d1 := ApplyAll(d, opening);
    AllowedLands(d1, msg, env);
    ApplyConcat(d, opening, AllowedOps(d1, msg, env).0);
  }

  function Opening(d: Disk, msg: Message, env: Env): seq<Op> {
    [SaveJob(msg.jobId, JobRecord(msg.experiment, Running, SubmittedAt(d, msg, env), None))]
  }

  lemma OpeningLeaves(d: Disk, msg: Message, env: Env)
    ensures var d1 := ApplyAll(d, Opening(d, msg, env)); d1.files == d.files && d1.comparisons == d.comparisons
  {
    NeutralLeaves(d, Opening(d, msg, env));
  }

  lemma FaultyLands(d: Disk, msg: Message, env: Env)
    requires ValidEnv(env)
    ensures var (ops, ending) := FaultyRun(d, msg, env); var done := Clear(d, msg.experiment, env) && env.fault >= 17;
      && (ending == Finished <==> done) && (done ==> |ops| == 17)
      && (ending == Refused <==> env.resolvable && env.loadable && !env.allowed && env.fault >= 2)
      && (forall i :: 0 <= i < |ops| ==> (ops[i].SaveComparison? <==> done && i == 16) && !ops[i].SaveJob?)
      && (done ==> InPlace(ApplyAll(d, ops), msg.experiment, env) && PointsAt(ApplyAll(d, ops), msg.experiment, env))
  {
    RunLands(d, msg, env);
  }

  /** How a delivery ends. */
  lemma EndingIff(d: Disk, msg: Message, env: Env)
    requires ValidEnv(env)
    ensures EndingOf(d, msg, env) == Finished <==> Finishes(d, msg, env)
    ensures EndingOf(d, msg, env) == Refused <==> Turned(env)
  {
    if env.found {
      OpeningLeaves(d, msg, env);
      FaultyLands(ApplyAll(d, Opening(d, msg, env)), msg, env);
    }
  }

  /** The record a delivery leaves behind. */
  function Outcome(finishes: bool, turned: bool, msg: Message, at: Time, env: Env): JobRecord {
    if finishes then JobRecord(msg.experiment, Completed, at, Some((RunId(env.stamp, Baseline), RunId(env.stamp, Mitigated))))
    else JobRecord(msg.experiment, if turned then Denied else Failed, at, None)
  }

  /** Where the plan of a delivery saves job records and comparisons. */
  lemma PlanLands(d: Disk, msg: Message, env: Env)
    requires ValidEnv(env)
    ensures var plan, at := Plan(d, msg, env), SubmittedAt(d, msg, env); var n := |plan|;
      && n >= 3 && (Finishes(d, msg, env) ==> n == 20)
      && (forall i :: 0 <= i < n ==> (plan[i].SaveComparison? <==> Finishes(d, msg, env) && i == 17))
      && (forall i :: 0 <= i < n ==> (plan[i].SaveJob? <==> i == 0 || i == n - 2))
      && plan[0] == SaveJob(msg.jobId, JobRecord(msg.experiment, Running, at, None))
      && plan[n - 2] == SaveJob(msg.jobId, Outcome(Finishes(d, msg, env), Turned(env), msg, at, env))
      && (Finishes(d, msg, env) ==>
            InPlace(ApplyAll(d, plan[..18]), msg.experiment, env) && PointsAt(ApplyAll(d, plan[..18]), msg.experiment, env))
  {
    var at, start := SubmittedAt(d, msg, env), Opening(d, msg, env);
    var d1 := ApplyAll(d, start);
    OpeningLeaves(d, msg, env);
    EndingIff(d, msg, env);
    if env.found {
      FaultyLands(d1, msg, env);
      var (ops, ending) := FaultyRun(d1, msg, env);
      ApplyConcat(d, start, ops);
      var last := Terminal(msg, at, env, ending);
      assert Plan(d, msg, env) == start + ops + last;
      if Finishes(d, msg, env) { assert (start + ops + last)[..18] == start + ops; }
    }
  }

  /** Whatever the world decides, a delivery that is worked off leaves this record of its job: completed
      with its own two runs, denied, or failed. */
  lemma DeliveryOutcome(d: Disk, msg: Message, env: Env)
    requires ValidEnv(env)
    ensures var t := ApplyAll(d, Plan(d, msg, env)); var at := SubmittedAt(d, msg, env);
      && msg.jobId in t.jobs && t.jobs[msg.jobId] == Outcome(Finishes(d, msg, env), Turned(env), msg, at, env)
      && (Finishes(d, msg, env) ==> InPlace(t, msg.experiment, env) && PointsAt(t, msg.experiment, env))
      && (!Finishes(d, msg, env) ==> t.comparisons == d.comparisons)
  {
    PlanLands(d, msg, env);
    var plan := Plan(d, msg, env);
    var n := |plan|;
    PlanPrefix(d, msg, env, n);
    assert plan[..n] == plan;
    LastRecord(d, plan, msg.jobId, plan[n - 2].record);
  }

  lemma LastRecord(d: Disk, ops: seq<Op>, id: string, record: JobRecord)
    requires |ops| >= 2 && ops[|ops| - 2] == SaveJob(id, record) && !ops[|ops| - 1].SaveJob?
    ensures id in ApplyAll(d, ops).jobs && ApplyAll(d, ops).jobs[id] == record
  {
    var init := ops[..|ops| - 1];
    ApplyLast(d, ops);
    assert init[..|init| - 1] == ops[..|ops| - 2];
    ApplyLast(d, init);
  }

  lemma {:induction false} NoPointer(d: Disk, ops: seq<Op>)
    requires forall i :: 0 <= i < |ops| ==> !ops[i].SaveComparison?
    ensures ApplyAll(d, ops).comparisons == d.comparisons
  {
    if ops == [] {
    } else {
      NoPointer(d, ops[..|ops| - 1]);
      ApplyLast(d, ops);
    }
  }

  /** However far a delivery gets: the comparison moves with its eighteenth write, if it finishes. */
  lemma PlanPrefix(d: Disk, msg: Message, env: Env, w: nat)
    requires ValidEnv(env) && w <= |Plan(d, msg, env)|
    ensures var t := ApplyAll(d, Plan(d, msg, env)[..w]);
      if Finishes(d, msg, env) && w >= 18 then InPlace(t, msg.experiment, env) && PointsAt(t, msg.experiment, env)
                                               && (forall e :: e != msg.experiment ==> (e in t.comparisons <==> e in d.comparisons) && (e in d.comparisons ==> t.comparisons[e] == d.comparisons[e]))
      else t.comparisons == d.comparisons
  {
    PlanLands(d, msg, env);
    var plan := Plan(d, msg, env);
    if Finishes(d, msg, env) && w >= 18 {
      assert plan[..w] == plan[..18] + plan[18..w];
      ApplyConcat(d, plan[..18], plan[18..w]);
      TailIsNeutral(d, msg, env);
      NeutralLeaves(ApplyAll(d, plan[..18]), plan[18..w]);
      NoPointer(d, plan[..17]);
      assert plan[..18][..17] == plan[..17];
      ApplyLast(d, plan[..18]);
      OwnPointer(d, msg, env);
    } else {
      NoPointer(d, plan[..w]);
    }
  }

  lemma TailIsNeutral(d: Disk, msg: Message, env: Env)
    requires ValidEnv(env) && Finishes(d, msg, env)
    ensures |Plan(d, msg, env)| == 20 && Neutral(Plan(d, msg, env)[18]) && Neutral(Plan(d, msg, env)[19])
  {
    PlanLands(d, msg, env);
    OpeningLeaves(d, msg, env);
    FaultyLands(ApplyAll(d, Opening(d, msg, env)), msg, env);
  }

  lemma OwnPointer(d: Disk, msg: Message, env: Env)
    requires ValidEnv(env)
    ensures forall i :: 0 <= i < |Plan(d, msg, env)| && Plan(d, msg, env)[i].SaveComparison? ==> Plan(d, msg, env)[i].experiment == msg.experiment
  {
    var d1 := ApplyAll(d, Opening(d, msg, env));
    var opening := [Emit(msg.jobId, Preparing, env.recorded(Preparing))] + [Emit(msg.jobId, SafetyCheck, env.recorded(SafetyCheck))];
    MeasuringOps(msg.jobId, env.recorded);
  }

  // --------------------------------------------------------------- whole runs

  /** What the delivery decided that last stored the comparison of the experiment. */
  ghost function LastStored(acts: seq<Action>, e: string): Option<Env> {
    if acts == [] then None
    else
      var init, a := acts[..|acts| - 1], acts[|acts| - 1];
      if Stores(Run(INITIAL, init), a, e) then Some(a.env) else LastStored(init, e)
  }

  /** The action delivers a queued message of the experiment, finishes, and gets to its eighteenth write. */
  ghost predicate Stores(s: Sys, a: Action, e: string) {
    && a.Deliver? && a.msg in s.queue && ValidEnv(a.env) && a.msg.experiment == e
    && Finishes(s.disk, a.msg, a.env) && a.writes >= 18
  }

  lemma SavedStays(f: map<File, Bytes>, g: map<File, Bytes>, e: string, run: RunId, contents: seq<Bytes>)
    requires Saved(f, e, run, contents) && Preserves(f, g)
    ensures Saved(g, e, run, contents)
  {
  }

  lemma ComparisonStep(s: Sys, a: Action, e: string)
    requires Sound(s.disk)
    ensures var t := Step(s, a);
      if Stores(s, a, e) then InPlace(t.disk, e, a.env) && PointsAt(t.disk, e, a.env)
      else (e in t.disk.comparisons <==> e in s.disk.comparisons) && (e in s.disk.comparisons ==> t.disk.comparisons[e] == s.disk.comparisons[e])
  {
    if a.Deliver? && a.msg in s.queue && ValidEnv(a.env) {
      var plan := Plan(s.disk, a.msg, a.env);
      var w := if a.writes < |plan| then a.writes else |plan|;
      assert plan[..|plan|] == plan;
      PlanLands(s.disk, a.msg, a.env);
      PlanPrefix(s.disk, a.msg, a.env, w);
    }
  }

  /** Over every run of crashes and redeliveries: the latest evidence of an experiment is that of the
      delivery that stored it last. Both of its run directories hold exactly what that delivery
      produced, the comparison is its report over its two runs, and loading returns its two results. */
  lemma {:induction false} LatestEvidence(acts: seq<Action>, e: string)
    ensures var d, last := Run(INITIAL, acts).disk, LastStored(acts, e);
      && (last.None? ==> e !in d.comparisons && LoadLatest(d, e) == Ok(None))
      && (last.Some? ==>
            && InPlace(d, e, last.value) && PointsAt(d, e, last.value)
            && LoadLatest(d, e) == Ok(Some((last.value.baseline[2], last.value.mitigation[2]))))
  {
    if acts == [] {
    } else {
      var init, a := acts[..|acts| - 1], acts[|acts| - 1];
      LatestEvidence(init, e);
      EvidenceIsSound(init);
      StepSound(Run(INITIAL, init), a);
      ComparisonStep(Run(INITIAL, init), a, e);
      var last := LastStored(init, e);
      if last.Some? {
        SavedStays(Run(INITIAL, init).disk.files, Run(INITIAL, acts).disk.files, e, RunId(last.value.stamp, Baseline), last.value.baseline);
        SavedStays(Run(INITIAL, init).disk.files, Run(INITIAL, acts).disk.files, e, RunId(last.value.stamp, Mitigated), last.value.mitigation);
      }
    }
  }

  /** Action `i` of the run is the delivery that completed the job with this record. */
  ghost predicate CompletedBy(acts: seq<Action>, i: nat, id: string, record: JobRecord) {
    && i < |acts| && acts[i].Deliver? && acts[i].msg == Message(id, record.experiment)
    && Finishes(Run(INITIAL, acts[..i]).disk, acts[i].msg, acts[i].env)
    && record.result == Some((RunId(acts[i].env.stamp, Baseline), RunId(acts[i].env.stamp, Mitigated)))
  }

  lemma {:induction false} SavedRecord(d: Disk, ops: seq<Op>, id: string)
    ensures var t := ApplyAll(d, ops);
      id in t.jobs ==> (id in d.jobs && t.jobs[id] == d.jobs[id]) || exists i :: 0 <= i < |ops| && ops[i] == SaveJob(id, t.jobs[id])
  {
    if ops == [] {
    } else {
      var init := ops[..|ops| - 1];
      SavedRecord(d, init, id);
      ApplyLast(d, ops);
      var before := ApplyAll(d, init);
      if id in before.jobs && exists i :: 0 <= i < |init| && init[i] == SaveJob(id, before.jobs[id]) {
        var i :| 0 <= i < |init| && init[i] == SaveJob(id, before.jobs[id]);
        assert ops[i] == init[i];
      }
    }
  }

  /** A delivery makes a job completed only by finishing. */
  lemma CompletionStep(s: Sys, a: Action, id: string)
    requires Sound(s.disk) && id in Step(s, a).disk.jobs && Step(s, a).disk.jobs[id].status == Completed
    ensures var record := Step(s, a).disk.jobs[id];
      || (id in s.disk.jobs && s.disk.jobs[id] == record)
      || (&& a.Deliver? && a.msg == Message(id, record.experiment) && ValidEnv(a.env) && Finishes(s.disk, a.msg, a.env)
          && record.result == Some((RunId(a.env.stamp, Baseline), RunId(a.env.stamp, Mitigated)))
          && InPlace(Step(s, a).disk, record.experiment, a.env))
  {
    if a.Deliver? && a.msg in s.queue && ValidEnv(a.env) {
      var plan := Plan(s.disk, a.msg, a.env);
      var w := if a.writes < |plan| then a.writes else |plan|;
      assert plan[..|plan|] == plan;
      PlanLands(s.disk, a.msg, a.env);
      PlanPrefix(s.disk, a.msg, a.env, w);
      SavedRecord(s.disk, plan[..w], id);
    }
  }

  /** In every run a completed job was completed by one of its own deliveries, names that delivery's two
      runs, and their directories hold exactly what that delivery produced. */
  lemma {:induction false} CompletedJob(acts: seq<Action>, id: string) returns (i: nat)
    requires id in Run(INITIAL, acts).disk.jobs && Run(INITIAL, acts).disk.jobs[id].status == Completed
    ensures var d := Run(INITIAL, acts).disk;
      CompletedBy(acts, i, id, d.jobs[id]) && InPlace(d, d.jobs[id].experiment, acts[i].env)
  {
    var n := |acts| - 1;
    var init := acts[..n];
    var s := Run(INITIAL, init);
    EvidenceIsSound(init);
    CompletionStep(s, acts[n], id);
    var record := Run(INITIAL, acts).disk.jobs[id];
    if id in s.disk.jobs && s.disk.jobs[id] == record {
      i := CompletedJob(init, id);
      StepSound(s, acts[n]);
      assert init[..i] == acts[..i];
      SavedStays(s.disk.files, Run(INITIAL, acts).disk.files, record.experiment, RunId(acts[i].env.stamp, Baseline), acts[i].env.baseline);
      SavedStays(s.disk.files, Run(INITIAL, acts).disk.files, record.experiment, RunId(acts[i].env.stamp, Mitigated), acts[i].env.mitigation);
    } else {
      i := n;
    }
  }

  lemma {:induction false} JobsStay(d: Disk, ops: seq<Op>)
    requires forall i :: 0 <= i < |ops| ==> !ops[i].SaveJob?
    ensures ApplyAll(d, ops).jobs == d.jobs
  {
    if ops == [] {
    } else {
      JobsStay(d, ops[..|ops| - 1]);
      ApplyLast(d, ops);
    }
  }

  /** Of writes that save two records, one first and one last but one. */
  lemma TwoRecords(d: Disk, ops: seq<Op>, id: string, first: JobRecord, last: JobRecord, w: nat)
    requires |ops| >= 3 && ops[0] == SaveJob(id, first) && ops[|ops| - 2] == SaveJob(id, last) && 1 <= w <= |ops|
    requires forall i :: 0 <= i < |ops| && ops[i].SaveJob? ==> i == 0 || i == |ops| - 2
    ensures ApplyAll(d, ops[..w]).jobs == d.jobs[id := if w < |ops| - 1 then first else last]
  {
    var n := |ops|;
    if w < n - 1 {
      FirstRecord(d, ops, id, first, w);
    } else {
      FirstRecord(d, ops, id, first, n - 2);
      assert ops[..n - 1][..n - 2] == ops[..n - 2];
      ApplyLast(d, ops[..n - 1]);
      assert ops[..w] == ops[..n - 1] + ops[n - 1..w];
      ApplyConcat(d, ops[..n - 1], ops[n - 1..w]);
      JobsStay(ApplyAll(d, ops[..n - 1]), ops[n - 1..w]);
    }
  }

  lemma FirstRecord(d: Disk, ops: seq<Op>, id: string, first: JobRecord, w: nat)
    requires 1 <= w <= |ops| && ops[0] == SaveJob(id, first) && forall i :: 1 <= i < w ==> !ops[i].SaveJob?
    ensures ApplyAll(d, ops[..w]).jobs == d.jobs[id := first]
  {
    assert ops[..w] == [ops[0]] + ops[1..w];
    ApplyConcat(d, [ops[0]], ops[1..w]);
    assert [ops[0]][1..] == [];
    assert ApplyAll(d, [ops[0]]) == Apply(d, ops[0]);
    JobsStay(ApplyAll(d, [ops[0]]), ops[1..w]);
  }

  /** The record after `w` writes of a delivery: running, and at the last write but one what it came to. */
  lemma PlanRecord(d: Disk, msg: Message, env: Env, w: nat)
    requires ValidEnv(env) && 1 <= w <= |Plan(d, msg, env)|
    ensures var at := SubmittedAt(d, msg, env);
      ApplyAll(d, Plan(d, msg, env)[..w]).jobs == d.jobs[msg.jobId :=
        if w < |Plan(d, msg, env)| - 1 then JobRecord(msg.experiment, Running, at, None)
        else Outcome(Finishes(d, msg, env), Turned(env), msg, at, env)]
  {
    PlanLands(d, msg, env);
    var plan := Plan(d, msg, env);
    TwoRecords(d, plan, msg.jobId, plan[0].record, plan[|plan| - 2].record, w);
  }

  /** The record of a job by the log of what happened to it: queued when submitted, and for every delivery
      that gets to write at all, running until its last write but one and then what it came to. */
  ghost function RecordByLog(acts: seq<Action>, id: string): Option<JobRecord> {
    if acts == [] then None
    else
      var init, a := acts[..|acts| - 1], acts[|acts| - 1];
      var before, s := RecordByLog(init, id), Run(INITIAL, init);
      match a
      case Submit(x, e, at, _) =>
        if x == id && before.None? then Some(JobRecord(e, Queued, at, None)) else before
      case Deliver(msg, env, writes, _) =>
        if msg.jobId != id || before.None? || msg !in s.queue || !ValidEnv(env) || writes == 0 then before
        else if writes < |Plan(s.disk, msg, env)| - 1 then Some(JobRecord(msg.experiment, Running, before.value.submittedAt, None))
        else Some(Outcome(Finishes(s.disk, msg, env), Turned(env), msg, before.value.submittedAt, env))
  }

  /** In every run the stored record of a job is that one. */
  lemma {:induction false} RecordsFollowLog(acts: seq<Action>, id: string)
    ensures var jobs := Run(INITIAL, acts).disk.jobs;
      RecordByLog(acts, id) == if id in jobs then Some(jobs[id]) else None
  {
    if acts == [] {
    } else {
      var init, a := acts[..|acts| - 1], acts[|acts| - 1];
      var s := Run(INITIAL, init);
      RecordsFollowLog(init, id);
      SubmissionTimeSurvives(init, id);
      if a.Deliver? && a.msg in s.queue && ValidEnv(a.env) {
        var plan := Plan(s.disk, a.msg, a.env);
        var w := if a.writes < |plan| then a.writes else |plan|;
        assert plan[..|plan|] == plan && plan[..0] == [];
        PlanLands(s.disk, a.msg, a.env);
        if w > 0 { PlanRecord(s.disk, a.msg, a.env, w); }
      }
    }
  }

  /** The events a delivery emits when it is worked off, spelled out. */
  lemma DeliveryEvents(d: Disk, msg: Message, env: Env)
    requires ValidEnv(env)
    ensures var events := EventsOf(Plan(d, msg, env)); var n := |events|;
      && n >= 1
      && (Finishes(d, msg, env) ==> events == [Preparing, SafetyCheck, RunningBaseline, RunningMitigation, Analysing, GeneratingEvidence, CompletedEvent])
      && (Turned(env) ==> events == [Preparing, SafetyCheck, DeniedEvent])
      && (!Finishes(d, msg, env) && !Turned(env) ==>
            events[n - 1] == FailedEvent
            && events[..n - 1] <= [Preparing, SafetyCheck, RunningBaseline, RunningMitigation, Analysing, GeneratingEvidence])
  {
    TraceLanguage(d, msg, env);
    EndingIff(d, msg, env);
    var n: nat :| TraceOf(EventsOf(Plan(d, msg, env)), EndingOf(d, msg, env), env.allowed, n);
    assert LIFECYCLE[..|LIFECYCLE|] == LIFECYCLE && LIFECYCLE[..2] == [Preparing, SafetyCheck];
    assert EventsOf(Plan(d, msg, env))[..n] == LIFECYCLE[..n];
  }
}
