/** What every run of submissions, deliveries, crashes and redeliveries keeps true of the evidence. */
module EvidenceSafety {
  import opened Basics
  import opened RunJobs

  // ---------------------------------------------------------------- invariant

  ghost predicate Complete(files: map<File, Bytes>, e: string, run: RunId) {
    forall a: Artefact :: File(e, run, a) in files
  }

  /** The artefacts of a run appear in order: experiment, dataset manifest, results, metrics, and the
      manifest only with the four it lists. */
  ghost predicate InOrder(files: map<File, Bytes>) {
    forall e, run ::
      && (File(e, run, DatasetManifestJson) in files ==> File(e, run, ExperimentJson) in files)
      && (File(e, run, ResultsJson) in files ==> File(e, run, DatasetManifestJson) in files)
      && (File(e, run, MetricsJson) in files ==> File(e, run, ResultsJson) in files)
      && (File(e, run, ManifestJson) in files ==> File(e, run, MetricsJson) in files && Complete(files, e, run))
  }

  /** A stored comparison points at two complete runs, a baseline and a mitigation. */
  ghost predicate ComparisonsBacked(d: Disk) {
    forall e :: e in d.comparisons ==>
      && Complete(d.files, e, d.comparisons[e].baseline) && Complete(d.files, e, d.comparisons[e].mitigation)
      && d.comparisons[e].baseline.mode == Baseline && d.comparisons[e].mitigation.mode == Mitigated
  }

  /** A completed job names two complete runs. */
  ghost predicate CompletedBacked(d: Disk) {
    forall j :: j in d.jobs && d.jobs[j].status == Completed ==>
      && d.jobs[j].result.Some?
      && Complete(d.files, d.jobs[j].experiment, d.jobs[j].result.value.0)
      && Complete(d.files, d.jobs[j].experiment, d.jobs[j].result.value.1)
  }

  ghost predicate Sound(d: Disk) {
    InOrder(d.files) && ComparisonsBacked(d) && CompletedBacked(d)
  }

  /** Nothing written is ever changed or removed. */
  ghost predicate Preserves(f: map<File, Bytes>, g: map<File, Bytes>) {
    forall x :: x in f ==> x in g && g[x] == f[x]
  }

  // -------------------------------------------------------------- single writes

  predicate Before(a: Artefact, b: Artefact) {
    match b
    case ExperimentJson => false
    case DatasetManifestJson => a == ExperimentJson
    case ResultsJson => a == ExperimentJson || a == DatasetManifestJson
    case MetricsJson => a != MetricsJson && a != ManifestJson
    case ManifestJson => a != ManifestJson
  }

  ghost predicate SafeOp(d: Disk, op: Op) {
    match op
    case SaveJob(id, record) =>
      record.status == Completed ==>
        && record.result.Some?
        && Complete(d.files, record.experiment, record.result.value.0)
        && Complete(d.files, record.experiment, record.result.value.1)
    case Emit(_, _, _) => true
    case Write(file, _) =>
      && file !in d.files
      && forall a: Artefact :: Before(a, file.artefact) ==> File(file.experiment, file.run, a) in d.files
    case SaveComparison(e, c) =>
      && Complete(d.files, e, c.baseline) && Complete(d.files, e, c.mitigation)
      && c.baseline.mode == Baseline && c.mitigation.mode == Mitigated
  }

  lemma SafeOpKeeps(d: Disk, op: Op)
    requires Sound(d) && SafeOp(d, op)
    ensures Sound(Apply(d, op)) && Preserves(d.files, Apply(d, op).files)
  {
  }

  ghost predicate AllSafe(d: Disk, ops: seq<Op>)
    decreases |ops|
  {
    ops == [] || (SafeOp(d, ops[0]) && AllSafe(Apply(d, ops[0]), ops[1..]))
  }

  /** Safe writes keep the invariant at every point the process may die. */
  lemma {:induction false} AllSafeKeeps(d: Disk, ops: seq<Op>, k: nat)
    requires Sound(d) && AllSafe(d, ops) && k <= |ops|
    ensures Sound(ApplyAll(d, ops[..k])) && Preserves(d.files, ApplyAll(d, ops[..k]).files)
    decreases |ops|
  {
    if k == 0 {
    } else {
      SafeOpKeeps(d, ops[0]);
      AllSafeKeeps(Apply(d, ops[0]), ops[1..], k - 1);
      assert ops[..k][1..] == ops[1..][..k - 1];
    }
  }

  lemma {:induction false} AllSafeConcat(d: Disk, a: seq<Op>, b: seq<Op>)
    requires AllSafe(d, a) && AllSafe(ApplyAll(d, a), b)
    ensures AllSafe(d, a + b)
    decreases |a|
  {
    if a == [] {
      assert a + b == b;
    } else {
      AllSafeConcat(Apply(d, a[0]), a[1..], b);
      assert (a + b)[1..] == a[1..] + b;
    }
  }

  lemma {:induction false} AllSafePrefix(d: Disk, ops: seq<Op>, k: nat)
    requires AllSafe(d, ops) && k <= |ops|
    ensures AllSafe(d, ops[..k])
    decreases |ops|
  {
    if k == 0 {
    } else {
      AllSafePrefix(Apply(d, ops[0]), ops[1..], k - 1);
      assert ops[..k][1..] == ops[1..][..k - 1];
    }
  }

  // -------------------------------------------------------------- a bundle

  /** The directory holds exactly the first `k` artefacts. */
  ghost predicate Holds(files: map<File, Bytes>, e: string, run: RunId, k: nat)
    requires k <= 5
  {
    && (forall i :: 0 <= i < k ==> File(e, run, ARTEFACTS[i]) in files)
    && (forall i :: k <= i < 5 ==> File(e, run, ARTEFACTS[i]) !in files)
  }

  function Position(a: Artefact): nat {
    match a case ExperimentJson => 0 case DatasetManifestJson => 1 case ResultsJson => 2 case MetricsJson => 3 case ManifestJson => 4
  }

  lemma BundleStep(d: Disk, e: string, run: RunId, k: nat, content: Bytes)
    requires k < 5 && Holds(d.files, e, run, k)
    ensures var op := Write(File(e, run, ARTEFACTS[k]), content);
      SafeOp(d, op) && Holds(Apply(d, op).files, e, run, k + 1)
  {
    forall a: Artefact | Before(a, ARTEFACTS[k]) ensures File(e, run, a) in d.files {
      var i := Position(a);
      assert i < k && ARTEFACTS[i] == a;
    }
  }

  lemma {:induction false} BundleFrom(d: Disk, e: string, run: RunId, k: nat, contents: seq<Bytes>, ops: seq<Op>)
    requires k <= 5 == |contents| && Holds(d.files, e, run, k)
    requires ops == BundleOps(e, run, contents)
    ensures AllSafe(d, ops[k..]) && Holds(ApplyAll(d, ops[k..]).files, e, run, 5)
    decreases 5 - k
  {
    if k < 5 {
      var op := Write(File(e, run, ARTEFACTS[k]), contents[k]);
      BundleStep(d, e, run, k, contents[k]);
      BundleFrom(Apply(d, op), e, run, k + 1, contents, ops);
      assert ops[k..][0] == op && ops[k..][1..] == ops[k + 1..];
    }
  }

  /** Only files of one run are written. */
  lemma {:induction false} WritesElsewhere(d: Disk, ops: seq<Op>, run: RunId, file: File)
    requires forall i :: 0 <= i < |ops| ==> ops[i].Write? && ops[i].file.run == run
    requires file.run != run
    ensures file in ApplyAll(d, ops).files <==> file in d.files
    decreases |ops|
  {
    if ops == [] {
    } else {
      WritesElsewhere(Apply(d, ops[0]), ops[1..], run, file);
    }
  }

  lemma EmptyHolds(files: map<File, Bytes>, e: string, run: RunId)
    ensures DirEmpty(files, e, run) <==> Holds(files, e, run, 0)
  {
    assert ARTEFACTS[0] == ExperimentJson && ARTEFACTS[1] == DatasetManifestJson && ARTEFACTS[2] == ResultsJson;
    assert ARTEFACTS[3] == MetricsJson && ARTEFACTS[4] == ManifestJson;
  }

  lemma FullComplete(files: map<File, Bytes>, e: string, run: RunId)
    requires Holds(files, e, run, 5)
    ensures Complete(files, e, run)
  {
    forall a: Artefact ensures File(e, run, a) in files {
      assert ARTEFACTS[Position(a)] == a;
    }
  }

  /** Writing a bundle into an empty directory is safe and leaves it complete. */
  lemma BundleSafe(d: Disk, e: string, run: RunId, contents: seq<Bytes>)
    requires |contents| == 5 && DirEmpty(d.files, e, run)
    ensures AllSafe(d, BundleOps(e, run, contents))
    ensures Complete(ApplyAll(d, BundleOps(e, run, contents)).files, e, run)
  {
    var ops := BundleOps(e, run, contents);
    EmptyHolds(d.files, e, run);
    BundleFrom(d, e, run, 0, contents, ops);
    assert ops[0..] == ops;
    FullComplete(ApplyAll(d, ops).files, e, run);
  }

  lemma BundleElsewhere(d: Disk, e: string, run: RunId, contents: seq<Bytes>, other: RunId)
    requires |contents| == 5 && other != run
    ensures var f := ApplyAll(d, BundleOps(e, run, contents)).files;
      Complete(f, e, other) <==> Complete(d.files, e, other)
  {
    var f := ApplyAll(d, BundleOps(e, run, contents)).files;
    forall a: Artefact ensures File(e, other, a) in f <==> File(e, other, a) in d.files {
      WritesElsewhere(d, BundleOps(e, run, contents), run, File(e, other, a));
    }
  }

  // ------------------------------------------------------------------- a job

  lemma EvidenceSafe(d: Disk, e: string, env: Env)
    requires ValidEnv(env)
    ensures var (ops, ending) := EvidenceOps(d, e, env);
      && AllSafe(d, ops)
      && (ending == Finished ==>
            Complete(ApplyAll(d, ops).files, e, BaselineId(env)) && Complete(ApplyAll(d, ops).files, e, MitigationId(env)))
  {
    var b, m := BundleOps(e, BaselineId(env), env.baseline), BundleOps(e, MitigationId(env), env.mitigation);
    if DirEmpty(d.files, e, BaselineId(env)) {
      BundleSafe(d, e, BaselineId(env), env.baseline);
      var d1 := ApplyAll(d, b);
      if DirEmpty(d1.files, e, MitigationId(env)) {
        BundleSafe(d1, e, MitigationId(env), env.mitigation);
        BundleElsewhere(d1, e, MitigationId(env), env.mitigation, BaselineId(env));
        AllSafeConcat(d, b, m);
        ApplyConcat(d, b, m);
        var pointer := SaveComparison(e, Comparison(BaselineId(env), MitigationId(env), env.report));
        var d2 := ApplyAll(d, b + m);
        assert SafeOp(d2, pointer);
        assert [pointer][1..] == [];
        assert AllSafe(d2, [pointer]);
        AllSafeConcat(d, b + m, [pointer]);
        ApplyConcat(d, b + m, [pointer]);
        assert ApplyAll(d2, [pointer]) == ApplyAll(Apply(d2, pointer), []);
      }
    }
  }

  /** The events among the writes are the job's own, each stored if the event store takes it. */
  ghost predicate OwnEmits(ops: seq<Op>, id: string, recorded: EventType -> bool) {
    forall i :: 0 <= i < |ops| && ops[i].Emit? ==> ops[i].jobId == id && ops[i].stored == recorded(ops[i].event)
  }

  lemma {:induction false} EmitsSafe(d: Disk, ops: seq<Op>)
    requires forall i :: 0 <= i < |ops| ==> ops[i].Emit?
    ensures AllSafe(d, ops)
    decreases |ops|
  {
    if ops == [] {
    } else {
      EmitsSafe(Apply(d, ops[0]), ops[1..]);
    }
  }

  lemma {:induction false} EmitAllEmits(id: string, events: seq<EventType>, recorded: EventType -> bool)
    ensures var ops := EmitAll(id, events, recorded); OwnEmits(ops, id, recorded) && forall i :: 0 <= i < |ops| ==> ops[i].Emit?
  {
    if events == [] {
    } else {
      EmitAllEmits(id, events[1..], recorded);
    }
  }

  lemma AllowedSafe(d: Disk, msg: Message, env: Env)
    requires ValidEnv(env)
    ensures var (ops, ending) := AllowedOps(d, msg, env);
      && AllSafe(d, ops)
      && (ending == Finished ==>
            && Complete(ApplyAll(d, ops).files, msg.experiment, BaselineId(env))
            && Complete(ApplyAll(d, ops).files, msg.experiment, MitigationId(env)))
  {
    var measure := EmitAll(msg.jobId, MEASURING, env.recorded);
    EmitAllEmits(msg.jobId, MEASURING, env.recorded);
    EmitsSafe(d, measure);
    var d1 := ApplyAll(d, measure);
    EvidenceSafe(d1, msg.experiment, env);
    AllSafeConcat(d, measure, EvidenceOps(d1, msg.experiment, env).0);
    ApplyConcat(d, measure, EvidenceOps(d1, msg.experiment, env).0);
  }

  lemma RunSafe(d: Disk, msg: Message, env: Env)
    requires ValidEnv(env)
    ensures var (ops, ending) := RunOps(d, msg, env);
      && AllSafe(d, ops)
      && (ending == Finished ==>
            && Complete(ApplyAll(d, ops).files, msg.experiment, BaselineId(env))
            && Complete(ApplyAll(d, ops).files, msg.experiment, MitigationId(env)))
  {
    var prepare := [Emit(msg.jobId, Preparing, env.recorded(Preparing))];
    var check := [Emit(msg.jobId, SafetyCheck, env.recorded(SafetyCheck))];
    EmitsSafe(d, prepare);
    EmitsSafe(d, prepare + check);
    if env.resolvable && env.loadable && env.allowed && env.consistent {
      var d1 := ApplyAll(d, prepare + check);
      AllowedSafe(d1, msg, env);
      AllSafeConcat(d, prepare + check, AllowedOps(d1, msg, env).0);
      ApplyConcat(d, prepare + check, AllowedOps(d1, msg, env).0);
    }
  }

  lemma FaultySafe(d: Disk, msg: Message, env: Env)
    requires ValidEnv(env)
    ensures var (ops, ending) := FaultyRun(d, msg, env);
      && AllSafe(d, ops)
      && (ending == Finished ==>
            && Complete(ApplyAll(d, ops).files, msg.experiment, BaselineId(env))
            && Complete(ApplyAll(d, ops).files, msg.experiment, MitigationId(env)))
  {
    RunSafe(d, msg, env);
    var ops := RunOps(d, msg, env).0;
    if env.fault < |ops| { AllSafePrefix(d, ops, env.fault); }
  }

  lemma TerminalSafe(d: Disk, msg: Message, at: Time, env: Env, ending: Ending)
    requires ending == Finished ==>
      Complete(d.files, msg.experiment, BaselineId(env)) && Complete(d.files, msg.experiment, MitigationId(env))
    ensures AllSafe(d, Terminal(msg, at, env, ending))
  {
    var ops := Terminal(msg, at, env, ending);
    assert SafeOp(d, ops[0]) && SafeOp(Apply(d, ops[0]), ops[1]);
    assert ops[1..][1..] == [];
  }

  /** Every write a job can make is safe where it is made. */
  lemma PlanSafe(d: Disk, msg: Message, env: Env)
    requires ValidEnv(env)
    ensures AllSafe(d, Plan(d, msg, env))
  {
    var at := SubmittedAt(d, msg, env);
    var start := [SaveJob(msg.jobId, JobRecord(msg.experiment, Running, at, None))];
    assert start[1..] == [] && SafeOp(d, start[0]);
    assert AllSafe(d, start);
    var d1 := ApplyAll(d, start);
    if !env.found {
      TerminalSafe(d1, msg, at, env, ServiceError);
      AllSafeConcat(d, start, Terminal(msg, at, env, ServiceError));
    } else {
      var (ops, ending) := FaultyRun(d1, msg, env);
      FaultySafe(d1, msg, env);
      AllSafeConcat(d, start, ops);
      ApplyConcat(d, start, ops);
      TerminalSafe(ApplyAll(d1, ops), msg, at, env, ending);
      AllSafeConcat(d, start + ops, Terminal(msg, at, env, ending));
    }
  }

  // -------------------------------------------------------------- the system

  /** The disk and the bag of unacknowledged messages. */
  datatype Sys = Sys(disk: Disk, queue: multiset<Message>)

  const INITIAL := Sys(Disk(map[], map[], map[], []), multiset{})

  datatype Action =
    // The API records a job under a fresh id, then publishes it (unless it dies in between).
    | Submit(jobId: string, experiment: string, at: Time, published: bool)
    // The worker takes a message and makes the first `writes` writes of its plan; the message is
    // redelivered unless acknowledged.
    | Deliver(msg: Message, env: Env, writes: nat, acked: bool)

  function Step(s: Sys, a: Action): Sys {
    match a
    case Submit(id, e, at, published) =>
      if id in s.disk.jobs then s
      else Sys(s.disk.(jobs := s.disk.jobs[id := JobRecord(e, Queued, at, None)]),
               if published then s.queue + multiset{Message(id, e)} else s.queue)
    case Deliver(msg, env, writes, acked) =>
      if msg !in s.queue || !ValidEnv(env) then s
      else
        var plan := Plan(s.disk, msg, env);
        Sys(ApplyAll(s.disk, if writes < |plan| then plan[..writes] else plan),
            if acked then s.queue - multiset{msg} else s.queue)
  }

  function Run(s: Sys, acts: seq<Action>): Sys {
    if acts == [] then s else Step(Run(s, acts[..|acts| - 1]), acts[|acts| - 1])
  }

  lemma StepSound(s: Sys, a: Action)
    requires Sound(s.disk)
    ensures Sound(Step(s, a).disk) && Preserves(s.disk.files, Step(s, a).disk.files)
  {
    match a
    case Submit(_, _, _, _) =>
    case Deliver(msg, env, writes, acked) =>
      if msg in s.queue && ValidEnv(env) {
        var plan := Plan(s.disk, msg, env);
        PlanSafe(s.disk, msg, env);
        AllSafeKeeps(s.disk, plan, if writes < |plan| then writes else |plan|);
        assert plan[..|plan|] == plan;
      }
  }

  /** Over every run, with the worker dying between any two writes, exceptions anywhere in a run and
      messages redelivered: comparisons and completed jobs are backed by complete runs, and manifests
      come last. */
  lemma {:induction false} EvidenceIsSound(acts: seq<Action>)
    ensures Sound(Run(INITIAL, acts).disk)
  {
    if acts == [] {
    } else {
      EvidenceIsSound(acts[..|acts| - 1]);
      StepSound(Run(INITIAL, acts[..|acts| - 1]), acts[|acts| - 1]);
    }
  }

  /** No artefact, once written, ever changes, however long the run goes on. */
  lemma {:induction false} EvidenceIsImmutable(acts: seq<Action>, k: nat)
    requires k <= |acts|
    ensures Preserves(Run(INITIAL, acts[..k]).disk.files, Run(INITIAL, acts).disk.files)
    decreases |acts|
  {
    if k == |acts| {
      assert acts[..k] == acts;
    } else {
      var init := acts[..|acts| - 1];
      assert init[..k] == acts[..k];
      EvidenceIsImmutable(init, k);
      EvidenceIsSound(init);
      StepSound(Run(INITIAL, init), acts[|acts| - 1]);
    }
  }

  /** `load_latest_evidence` up to its joins: the two runs' results, read through their manifests. */
  function LoadLatest(d: Disk, e: string): Result<Option<(Bytes, Bytes)>> {
    if e !in d.comparisons then Ok(None)
    else
      var c := d.comparisons[e];
      if File(e, c.baseline, ManifestJson) !in d.files || File(e, c.mitigation, ManifestJson) !in d.files
         || File(e, c.baseline, ResultsJson) !in d.files || File(e, c.mitigation, ResultsJson) !in d.files then Raised
      else Ok(Some((d.files[File(e, c.baseline, ResultsJson)], d.files[File(e, c.mitigation, ResultsJson)])))
  }

  /** Reading the latest evidence never fails: it finds nothing exactly when nothing was compared yet. */
  lemma LoadLatestSucceeds(acts: seq<Action>, e: string)
    ensures var d := Run(INITIAL, acts).disk;
      LoadLatest(d, e).Ok? && (LoadLatest(d, e).value.None? <==> e !in d.comparisons)
  {
    EvidenceIsSound(acts);
  }

  // ------------------------------------------------------------ submission time

  /** When a job was first submitted, if it was. */
  function FirstSubmission(acts: seq<Action>, id: string): Option<Time> {
    if acts == [] then None
    else
      var before, a := FirstSubmission(acts[..|acts| - 1], id), acts[|acts| - 1];
      if before.None? && a.Submit? && a.jobId == id then Some(a.at) else before
  }

  /** No job is queued without a record. */
  ghost predicate QueueRecorded(s: Sys) {
    forall m :: m in s.queue ==> m.jobId in s.disk.jobs
  }

  function RecordedTime(s: Sys, id: string): Option<Time> {
    if id in s.disk.jobs then Some(s.disk.jobs[id].submittedAt) else None
  }

  /** The only jobs a plan touches are its own, and it keeps their submission time. */
  ghost predicate KeepsTime(ops: seq<Op>, id: string, t: Time) {
    forall i :: 0 <= i < |ops| && ops[i].SaveJob? ==> ops[i].jobId == id && ops[i].record.submittedAt == t
  }

  lemma {:induction false} KeepsTimeApplied(d: Disk, ops: seq<Op>, id: string, t: Time, j: string)
    requires KeepsTime(ops, id, t) && id in d.jobs && d.jobs[id].submittedAt == t
    ensures var e := ApplyAll(d, ops).jobs;
      && (j in e <==> j in d.jobs)
      && (j in d.jobs ==> e[j].submittedAt == d.jobs[j].submittedAt)
    decreases |ops|
  {
    if ops == [] {
    } else {
      KeepsTimeApplied(Apply(d, ops[0]), ops[1..], id, t, j);
    }
  }

  lemma {:induction false} EmitAllKeepsTime(id: string, events: seq<EventType>, recorded: EventType -> bool, job: string, t: Time)
    ensures KeepsTime(EmitAll(id, events, recorded), job, t)
  {
    EmitAllEmits(id, events, recorded);
  }

  lemma PlanKeepsTime(d: Disk, msg: Message, env: Env)
    requires ValidEnv(env)
    ensures KeepsTime(Plan(d, msg, env), msg.jobId, SubmittedAt(d, msg, env))
  {
    var at := SubmittedAt(d, msg, env);
    var start := [SaveJob(msg.jobId, JobRecord(msg.experiment, Running, at, None))];
    var d1 := ApplyAll(d, start);
    RunKeepsTime(d1, msg, env, at);
  }

  lemma RunKeepsTime(d: Disk, msg: Message, env: Env, t: Time)
    requires ValidEnv(env)
    ensures KeepsTime(RunOps(d, msg, env).0, msg.jobId, t)
  {
    EmitAllKeepsTime(msg.jobId, MEASURING, env.recorded, msg.jobId, t);
  }

  /** A delivery changes no submission time and neither adds nor removes a job. */
  lemma DeliverKeepsTimes(s: Sys, a: Action, j: string)
    requires a.Deliver? && QueueRecorded(s)
    ensures var jobs := Step(s, a).disk.jobs;
      && (j in jobs <==> j in s.disk.jobs)
      && (j in s.disk.jobs ==> jobs[j].submittedAt == s.disk.jobs[j].submittedAt)
  {
    if a.msg in s.queue && ValidEnv(a.env) {
      var plan := Plan(s.disk, a.msg, a.env);
      PlanKeepsTime(s.disk, a.msg, a.env);
      var ops := if a.writes < |plan| then plan[..a.writes] else plan;
      KeepsTimeApplied(s.disk, ops, a.msg.jobId, s.disk.jobs[a.msg.jobId].submittedAt, j);
    }
  }

  lemma QueueStep(s: Sys, a: Action)
    requires QueueRecorded(s)
    ensures QueueRecorded(Step(s, a))
  {
    var t := Step(s, a);
    forall m | m in t.queue ensures m.jobId in t.disk.jobs {
      if a.Deliver? { DeliverKeepsTimes(s, a, m.jobId); }
    }
  }

  lemma TimeStep(s: Sys, a: Action, id: string)
    requires QueueRecorded(s)
    ensures RecordedTime(Step(s, a), id) ==
            if RecordedTime(s, id).None? && a.Submit? && a.jobId == id then Some(a.at) else RecordedTime(s, id)
  {
    if a.Deliver? { DeliverKeepsTimes(s, a, id); }
  }

  /** A job has a record exactly when it was submitted, and the record always carries the time of the
      first submission, through any number of redeliveries: it is saved before the message is published,
      so no message is ever without one and the worker never has to invent a time. */
  lemma {:induction false} SubmissionTimeSurvives(acts: seq<Action>, id: string)
    ensures QueueRecorded(Run(INITIAL, acts))
    ensures RecordedTime(Run(INITIAL, acts), id) == FirstSubmission(acts, id)
  {
    if acts == [] {
    } else {
      var before, a := Run(INITIAL, acts[..|acts| - 1]), acts[|acts| - 1];
      SubmissionTimeSurvives(acts[..|acts| - 1], id);
      QueueStep(before, a);
      TimeStep(before, a, id);
    }
  }

  // ------------------------------------------------------------- trace language

  const LIFECYCLE: seq<EventType> := [Preparing, SafetyCheck, RunningBaseline, RunningMitigation, Analysing, GeneratingEvidence]

  function EventOf(op: Op): seq<EventType> {
    if op.Emit? then [op.event] else []
  }

  function EventsOf(ops: seq<Op>): seq<EventType> {
    if ops == [] then [] else EventsOf(ops[..|ops| - 1]) + EventOf(ops[|ops| - 1])
  }

  lemma Associate(a: seq<EventType>, b: seq<EventType>, c: seq<EventType>)
    ensures a + (b + c) == a + b + c
  {
  }

  lemma {:induction false} EventsConcat(a: seq<Op>, b: seq<Op>)
    ensures EventsOf(a + b) == EventsOf(a) + EventsOf(b)
  {
    if b == [] {
      assert a + b == a;
    } else {
      var init, last := b[..|b| - 1], b[|b| - 1];
      EventsConcat(a, init);
      assert (a + b)[..|a + b| - 1] == a + init && (a + b)[|a + b| - 1] == last;
      Associate(EventsOf(a), EventsOf(init), EventOf(last));
    }
  }

  lemma {:induction false} NoEvents(ops: seq<Op>)
    requires forall i :: 0 <= i < |ops| ==> !ops[i].Emit?
    ensures EventsOf(ops) == []
  {
    if ops == [] {
    } else {
      NoEvents(ops[..|ops| - 1]);
    }
  }

  lemma {:induction false} EmitAllEvents(id: string, events: seq<EventType>, recorded: EventType -> bool)
    ensures EventsOf(EmitAll(id, events, recorded)) == events
  {
    if events == [] {
    } else {
      EmitAllEvents(id, events[1..], recorded);
      EventsConcat([Emit(id, events[0], recorded(events[0]))], EmitAll(id, events[1..], recorded));
      OneEvent(id, events[0], recorded(events[0]));
      assert events == [events[0]] + events[1..];
    }
  }

  lemma OneEvent(id: string, e: EventType, stored: bool)
    ensures EventsOf([Emit(id, e, stored)]) == [e]
  {
    assert [Emit(id, e, stored)][..0] == [];
  }

  lemma AllowedEvents(d: Disk, msg: Message, env: Env)
    requires ValidEnv(env)
    ensures EventsOf(AllowedOps(d, msg, env).0) == MEASURING
  {
    var measure := EmitAll(msg.jobId, MEASURING, env.recorded);
    var ops := EvidenceOps(ApplyAll(d, measure), msg.experiment, env).0;
    EmitAllEvents(msg.jobId, MEASURING, env.recorded);
    NoEvents(ops);
    EventsConcat(measure, ops);
  }

  const OPENING: seq<EventType> := [Preparing, SafetyCheck]

  /** How far a run without unexpected exceptions gets. */
  function EventsReached(env: Env): seq<EventType> {
    if !env.resolvable || !env.loadable then [Preparing]
    else if !env.allowed || !env.consistent then OPENING
    else OPENING + MEASURING
  }

  lemma OpeningEvents(id: string, p: bool, c: bool)
    ensures EventsOf([Emit(id, Preparing, p)]) == [Preparing]
    ensures EventsOf([Emit(id, Preparing, p)] + [Emit(id, SafetyCheck, c)]) == OPENING
  {
    OneEvent(id, Preparing, p);
    OneEvent(id, SafetyCheck, c);
    EventsConcat([Emit(id, Preparing, p)], [Emit(id, SafetyCheck, c)]);
  }

  lemma RunReaches(d: Disk, msg: Message, env: Env)
    requires ValidEnv(env)
    ensures EventsOf(RunOps(d, msg, env).0) == EventsReached(env)
  {
    OpeningEvents(msg.jobId, env.recorded(Preparing), env.recorded(SafetyCheck));
    if env.resolvable && env.loadable && env.allowed && env.consistent {
      var opening := [Emit(msg.jobId, Preparing, env.recorded(Preparing))]
                     + [Emit(msg.jobId, SafetyCheck, env.recorded(SafetyCheck))];
      var d1 := ApplyAll(d, opening);
      AllowedEvents(d1, msg, env);
      EventsConcat(opening, AllowedOps(d1, msg, env).0);
    }
  }

  /** All six events exactly when the run gets to the evidence, the first two on a refusal. */
  ghost predicate EventsFit(events: seq<EventType>, ending: Ending, allowed: bool) {
    && events <= LIFECYCLE
    && (ending == Finished ==> events == LIFECYCLE)
    && (ending == Refused ==> events == OPENING)
    && (!allowed ==> RunningBaseline !in events)
  }

  lemma RunEvents(d: Disk, msg: Message, env: Env)
    requires ValidEnv(env)
    ensures EventsFit(EventsOf(RunOps(d, msg, env).0), RunOps(d, msg, env).1, env.allowed)
  {
    RunReaches(d, msg, env);
    assert LIFECYCLE == OPENING + MEASURING;
  }

  lemma {:induction false} EventsPrefix(ops: seq<Op>, k: nat)
    requires k <= |ops|
    ensures EventsOf(ops[..k]) <= EventsOf(ops)
  {
    EventsConcat(ops[..k], ops[k..]);
    assert ops[..k] + ops[k..] == ops;
  }

  lemma FaultyEvents(d: Disk, msg: Message, env: Env)
    requires ValidEnv(env)
    ensures EventsFit(EventsOf(FaultyRun(d, msg, env).0), FaultyRun(d, msg, env).1, env.allowed)
  {
    RunEvents(d, msg, env);
    var ops := RunOps(d, msg, env).0;
    if env.fault < |ops| { EventsPrefix(ops, env.fault); }
  }

  function TerminalEvent(ending: Ending): EventType {
    match ending case Finished => CompletedEvent case Refused => DeniedEvent case _ => FailedEvent
  }

  function TerminalStatus(ending: Ending): Status {
    match ending case Finished => Completed case Refused => Denied case _ => Failed
  }

  lemma TerminalEvents(d: Disk, msg: Message, at: Time, env: Env, ending: Ending)
    ensures var ops := Terminal(msg, at, env, ending);
      && EventsOf(ops) == [TerminalEvent(ending)]
      && msg.jobId in ApplyAll(d, ops).jobs && ApplyAll(d, ops).jobs[msg.jobId].status == TerminalStatus(ending)
  {
    var ops := Terminal(msg, at, env, ending);
    assert ops == [ops[0]] + [ops[1]];
    EventsConcat([ops[0]], [ops[1]]);
    NoEvents([ops[0]]);
    OneEvent(msg.jobId, TerminalEvent(ending), env.recorded(TerminalEvent(ending)));
    var d1 := Apply(d, ops[0]);
    assert ops[1..] == [ops[1]] && [ops[1]][1..] == [];
    assert ApplyAll(d, ops) == ApplyAll(d1, [ops[1]]) == Apply(d1, ops[1]);
  }

  /** How one call of `process_run_job` ends. */
  function EndingOf(d: Disk, msg: Message, env: Env): Ending
    requires ValidEnv(env)
  {
    if !env.found then ServiceError
    else FaultyRun(ApplyAll(d, [SaveJob(msg.jobId, JobRecord(msg.experiment, Running, SubmittedAt(d, msg, env), None))]), msg, env).1
  }

  /** The first `n` events of the lifecycle, then the terminal event of this ending. */
  ghost predicate TraceOf(events: seq<EventType>, ending: Ending, allowed: bool, n: nat) {
    && n <= |LIFECYCLE|
    && events == LIFECYCLE[..n] + [TerminalEvent(ending)]
    && (ending == Finished ==> n == |LIFECYCLE|)
    && (ending == Refused ==> n == 2)
    && (!allowed ==> RunningBaseline !in LIFECYCLE[..n])
  }

  lemma FittingTrace(events: seq<EventType>, ending: Ending, allowed: bool)
    requires EventsFit(events, ending, allowed)
    ensures TraceOf([] + events + [TerminalEvent(ending)], ending, allowed, |events|)
  {
    assert events == LIFECYCLE[..|events|];
  }

  lemma PlanTrace(start: seq<Op>, ops: seq<Op>, last: seq<Op>, ending: Ending, allowed: bool)
    requires EventsOf(start) == [] && EventsOf(last) == [TerminalEvent(ending)]
    requires EventsFit(EventsOf(ops), ending, allowed)
    ensures TraceOf(EventsOf(start + ops + last), ending, allowed, |EventsOf(ops)|)
  {
    EventsConcat(start, ops);
    EventsConcat(start + ops, last);
    FittingTrace(EventsOf(ops), ending, allowed);
  }

  /** The events that get stored out of those emitted. */
  function Kept(id: string, recorded: EventType -> bool, events: seq<EventType>): seq<(string, EventType)> {
    if events == [] then []
    else
      var last := events[|events| - 1];
      Kept(id, recorded, events[..|events| - 1]) + if recorded(last) then [(id, last)] else []
  }

  /** One more write. */
  lemma StoredStep(d: Disk, op: Op, id: string, recorded: EventType -> bool, before: seq<(string, EventType)>,
                   events: seq<EventType>)
    requires d.events == before + Kept(id, recorded, events) && OwnEmits([op], id, recorded)
    ensures Apply(d, op).events == before + Kept(id, recorded, events + EventOf(op))
  {
    assert op == [op][0];
    if op.Emit? {
      assert (events + [op.event])[..|events|] == events;
    } else {
      assert events + [] == events;
    }
  }

  lemma LastIsOwn(ops: seq<Op>, id: string, recorded: EventType -> bool)
    requires OwnEmits(ops, id, recorded) && ops != []
    ensures OwnEmits(ops[..|ops| - 1], id, recorded) && OwnEmits([ops[|ops| - 1]], id, recorded)
  {
  }

  lemma {:induction false} StoredEvents(d: Disk, ops: seq<Op>, id: string, recorded: EventType -> bool)
    requires OwnEmits(ops, id, recorded)
    ensures ApplyAll(d, ops).events == d.events + Kept(id, recorded, EventsOf(ops))
  {
    if ops == [] {
    } else {
      var init, last := ops[..|ops| - 1], ops[|ops| - 1];
      LastIsOwn(ops, id, recorded);
      StoredEvents(d, init, id, recorded);
      StoredStep(ApplyAll(d, init), last, id, recorded, d.events, EventsOf(init));
      ApplyLast(d, ops);
    }
  }

  lemma ApplyLast(d: Disk, ops: seq<Op>)
    requires ops != []
    ensures ApplyAll(d, ops) == Apply(ApplyAll(d, ops[..|ops| - 1]), ops[|ops| - 1])
  {
    var init, last := ops[..|ops| - 1], [ops[|ops| - 1]];
    assert ops == init + last && last[1..] == [];
    ApplyConcat(d, init, last);
    assert ApplyAll(ApplyAll(d, init), last) == ApplyAll(Apply(ApplyAll(d, init), last[0]), []);
  }

  lemma RunEmits(d: Disk, msg: Message, env: Env)
    requires ValidEnv(env)
    ensures OwnEmits(RunOps(d, msg, env).0, msg.jobId, env.recorded)
  {
    EmitAllEmits(msg.jobId, MEASURING, env.recorded);
  }

  lemma PlanEmits(d: Disk, msg: Message, env: Env)
    requires ValidEnv(env)
    ensures OwnEmits(Plan(d, msg, env), msg.jobId, env.recorded)
  {
    var start := [SaveJob(msg.jobId, JobRecord(msg.experiment, Running, SubmittedAt(d, msg, env), None))];
    RunEmits(ApplyAll(d, start), msg, env);
  }

  /** However far a call gets before the process dies, the stored trail grows by exactly the events it
      emitted that the event store took; a lost event stops nothing. */
  lemma StoredTrail(d: Disk, msg: Message, env: Env, n: nat)
    requires ValidEnv(env) && n <= |Plan(d, msg, env)|
    ensures var done := Plan(d, msg, env)[..n];
      ApplyAll(d, done).events == d.events + Kept(msg.jobId, env.recorded, EventsOf(done))
  {
    PlanEmits(d, msg, env);
    StoredEvents(d, Plan(d, msg, env)[..n], msg.jobId, env.recorded);
  }

  /** Each completed call emits a prefix of the lifecycle and then one terminal event that matches the
      stored job status; success only after the whole lifecycle, denial only after exactly its first
      two events, and no strategy runs when the policy refuses. */
  lemma TraceLanguage(d: Disk, msg: Message, env: Env)
    requires ValidEnv(env)
    ensures exists n :: TraceOf(EventsOf(Plan(d, msg, env)), EndingOf(d, msg, env), env.allowed, n)
    ensures var after := ApplyAll(d, Plan(d, msg, env)).jobs;
      msg.jobId in after && after[msg.jobId].status == TerminalStatus(EndingOf(d, msg, env))
  {
    var at := SubmittedAt(d, msg, env);
    var start := [SaveJob(msg.jobId, JobRecord(msg.experiment, Running, at, None))];
    var d1 := ApplyAll(d, start);
    var (ops, ending) := if env.found then FaultyRun(d1, msg, env) else ([], ServiceError);
    if env.found { FaultyEvents(d1, msg, env); }
    var last := Terminal(msg, at, env, ending);
    assert Plan(d, msg, env) == start + ops + last;
    NoEvents(start);
    ApplyConcat(d, start + ops, last);
    TerminalEvents(ApplyAll(d, start + ops), msg, at, env, ending);
    PlanTrace(start, ops, last, ending, env.allowed);
    assert ending == EndingOf(d, msg, env);
    assert TraceOf(EventsOf(Plan(d, msg, env)), EndingOf(d, msg, env), env.allowed, |EventsOf(ops)|);
  }
}
