/** Run jobs and their evidence: submission, queue, worker and evidence store
    (worker/processor.py, worker/main.py, orchestration, repositories, services/job_store.py). */
module RunJobs {
  import opened Basics

  type Bytes = string

  datatype Mode = Baseline | Mitigated

  /** `RUN-<stamp>01` for the baseline, `RUN-<stamp>02` for the mitigation. */
  datatype RunId = RunId(stamp: nat, mode: Mode)

  datatype Artefact = ExperimentJson | DatasetManifestJson | ResultsJson | MetricsJson | ManifestJson

  /** The order in which a run's artefacts are written. */
  const ARTEFACTS: seq<Artefact> := [ExperimentJson, DatasetManifestJson, ResultsJson, MetricsJson, ManifestJson]

  /** One artefact file below the results root. */
  datatype File = File(experiment: string, run: RunId, artefact: Artefact)

  datatype Comparison = Comparison(baseline: RunId, mitigation: RunId, body: Bytes)

  datatype Status = Queued | Running | Completed | Failed | Denied

  datatype JobRecord = JobRecord(experiment: string, status: Status, submittedAt: Time, result: Option<(RunId, RunId)>)

  datatype Message = Message(jobId: string, experiment: string)

  datatype EventType =
    | Preparing | SafetyCheck | RunningBaseline | RunningMitigation | Analysing | GeneratingEvidence
    | CompletedEvent | DeniedEvent | FailedEvent

  /** Everything the worker writes: job records, evidence files, the latest comparison, run events. */
  datatype Disk = Disk(files: map<File, Bytes>, comparisons: map<string, Comparison>, jobs: map<string, JobRecord>,
                       events: seq<(string, EventType)>)

  /** One atomic write. A run event that cannot be stored is logged and forgotten. */
  datatype Op =
    | SaveJob(jobId: string, record: JobRecord)
    | Emit(jobId: string, event: EventType, stored: bool)
    | Write(file: File, content: Bytes)
    | SaveComparison(experiment: string, comparison: Comparison)

  function Apply(d: Disk, op: Op): Disk {
    match op
    case SaveJob(id, record) => d.(jobs := d.jobs[id := record])
    case Emit(id, event, stored) => if stored then d.(events := d.events + [(id, event)]) else d
    case Write(file, content) => d.(files := d.files[file := content])
    case SaveComparison(e, c) => d.(comparisons := d.comparisons[e := c])
  }

  function ApplyAll(d: Disk, ops: seq<Op>): Disk
    decreases |ops|
  {
    if ops == [] then d else ApplyAll(Apply(d, ops[0]), ops[1..])
  }

  // ------------------------------------------------------------ what a job does

  /** What the outside world decides for one delivery of a job. */
  datatype Env = Env(
    now: Time,              // clock reading, used when the job was never recorded
    found: bool,            // the experiment file exists
    resolvable: bool,       // its dataset file and strategies exist
    loadable: bool,         // the dataset parses
    allowed: bool,          // the safety policy's answer
    consistent: bool,       // strategy ids and domain match
    stamp: nat,             // milliseconds, the base of both run ids
    baseline: seq<Bytes>,   // artefact contents, in writing order
    mitigation: seq<Bytes>,
    report: Bytes,
    recorded: EventType -> bool,  // whether the event store takes an event of this type
    fault: nat)             // an unexpected exception strikes before this write of the run (if it gets that far)

  predicate ValidEnv(env: Env) {
    |env.baseline| == |env.mitigation| == |ARTEFACTS|
  }

  datatype Ending = Finished | Refused | ServiceError | InternalError

  predicate DirEmpty(files: map<File, Bytes>, e: string, run: RunId) {
    File(e, run, ExperimentJson) !in files && File(e, run, DatasetManifestJson) !in files
    && File(e, run, ResultsJson) !in files && File(e, run, MetricsJson) !in files && File(e, run, ManifestJson) !in files
  }

  function BundleOps(e: string, run: RunId, contents: seq<Bytes>): seq<Op>
    requires |contents| == |ARTEFACTS|
  {
    [Write(File(e, run, ARTEFACTS[0]), contents[0]), Write(File(e, run, ARTEFACTS[1]), contents[1]),
     Write(File(e, run, ARTEFACTS[2]), contents[2]), Write(File(e, run, ARTEFACTS[3]), contents[3]),
     Write(File(e, run, ARTEFACTS[4]), contents[4])]
  }

  function BaselineId(env: Env): RunId { RunId(env.stamp, Baseline) }
  function MitigationId(env: Env): RunId { RunId(env.stamp, Mitigated) }

  /** Saving both bundles and the comparison; a run directory that is not empty raises. */
  function EvidenceOps(d: Disk, e: string, env: Env): (seq<Op>, Ending)
    requires ValidEnv(env)
  {
    var b, m := BundleOps(e, BaselineId(env), env.baseline), BundleOps(e, MitigationId(env), env.mitigation);
    if !DirEmpty(d.files, e, BaselineId(env)) then ([], InternalError)
    else if !DirEmpty(ApplyAll(d, b).files, e, MitigationId(env)) then (b, InternalError)
    else (b + m + [SaveComparison(e, Comparison(BaselineId(env), MitigationId(env), env.report))], Finished)
  }

  const MEASURING: seq<EventType> := [RunningBaseline, RunningMitigation, Analysing, GeneratingEvidence]

  function EmitAll(id: string, events: seq<EventType>, recorded: EventType -> bool): seq<Op> {
    if events == [] then []
    else [Emit(id, events[0], recorded(events[0]))] + EmitAll(id, events[1..], recorded)
  }

  /** Both strategies, the analysis and the evidence. */
  function AllowedOps(d: Disk, msg: Message, env: Env): (seq<Op>, Ending)
    requires ValidEnv(env)
  {
    var measure := EmitAll(msg.jobId, MEASURING, env.recorded);
    var (ops, ending) := EvidenceOps(ApplyAll(d, measure), msg.experiment, env);
    (measure + ops, ending)
  }

  /** `run_experiment` when no unexpected exception strikes. */
  function RunOps(d: Disk, msg: Message, env: Env): (seq<Op>, Ending)
    requires ValidEnv(env)
  {
    var prepare, check := [Emit(msg.jobId, Preparing, env.recorded(Preparing))], [Emit(msg.jobId, SafetyCheck, env.recorded(SafetyCheck))];
    if !env.resolvable then (prepare, ServiceError)
    else if !env.loadable then (prepare, InternalError)
    else if !env.allowed then (prepare + check, Refused)
    else if !env.consistent then (prepare + check, InternalError)
    else
      var (ops, ending) := AllowedOps(ApplyAll(d, prepare + check), msg, env);
      (prepare + check + ops, ending)
  }

  /** `run_experiment`, cut short by an unexpected exception if one strikes. */
  function FaultyRun(d: Disk, msg: Message, env: Env): (seq<Op>, Ending)
    requires ValidEnv(env)
  {
    var (ops, ending) := RunOps(d, msg, env);
    if env.fault < |ops| then (ops[..env.fault], InternalError) else (ops, ending)
  }

  function SubmittedAt(d: Disk, msg: Message, env: Env): Time {
    if msg.jobId in d.jobs then d.jobs[msg.jobId].submittedAt else env.now
  }

  function Terminal(msg: Message, at: Time, env: Env, ending: Ending): seq<Op> {
    match ending
    case Finished =>
      [SaveJob(msg.jobId, JobRecord(msg.experiment, Completed, at, Some((BaselineId(env), MitigationId(env))))),
       Emit(msg.jobId, CompletedEvent, env.recorded(CompletedEvent))]
    case Refused => [SaveJob(msg.jobId, JobRecord(msg.experiment, Denied, at, None)), Emit(msg.jobId, DeniedEvent, env.recorded(DeniedEvent))]
    case _ => [SaveJob(msg.jobId, JobRecord(msg.experiment, Failed, at, None)), Emit(msg.jobId, FailedEvent, env.recorded(FailedEvent))]
  }

  /** Every write of one `process_run_job` call, in order. */
  function Plan(d: Disk, msg: Message, env: Env): seq<Op>
    requires ValidEnv(env)
  {
    var at := SubmittedAt(d, msg, env);
    var start := [SaveJob(msg.jobId, JobRecord(msg.experiment, Running, at, None))];
    if !env.found then start + Terminal(msg, at, env, ServiceError)
    else
      var (ops, ending) := FaultyRun(ApplyAll(d, start), msg, env);
      start + ops + Terminal(msg, at, env, ending)
  }

  // -------------------------------------------------------------- the worker

  datatype Progress = Done | Crashed | Threw

  /** What performing `ops` leaves behind when the process dies after `b` more writes and an exception
      strikes after `f` more. */
  ghost predicate Ran(d: Disk, ops: seq<Op>, f: nat, b: nat, d': Disk, f': nat, b': nat, r: Progress) {
    if f >= |ops| && b >= |ops| then r == Done && d' == ApplyAll(d, ops) && f' == f - |ops| && b' == b - |ops|
    else if b >= f then r == Threw && d' == ApplyAll(d, ops[..f]) && b' == b - f
    else r == Crashed && d' == ApplyAll(d, ops[..b]) && b' == 0
  }

  lemma {:induction false} ApplyConcat(d: Disk, a: seq<Op>, b: seq<Op>)
    ensures ApplyAll(d, a + b) == ApplyAll(ApplyAll(d, a), b)
    decreases |a|
  {
    if a == [] {
      assert a + b == b;
    } else {
      ApplyConcat(Apply(d, a[0]), a[1..], b);
      assert (a + b)[1..] == a[1..] + b;
    }
  }

  /** Doing one thing after the other. */
  lemma RanThen(d: Disk, a: seq<Op>, f: nat, b: nat, d1: Disk, f1: nat, b1: nat, c: seq<Op>, d2: Disk, f2: nat, b2: nat, r: Progress)
    requires Ran(d, a, f, b, d1, f1, b1, Done) && Ran(d1, c, f1, b1, d2, f2, b2, r)
    ensures Ran(d, a + c, f, b, d2, f2, b2, r)
  {
    ApplyConcat(d, a, c);
    if r == Threw {
      assert (a + c)[..f] == a + c[..f1];
      ApplyConcat(d, a, c[..f1]);
    } else if r == Crashed {
      assert (a + c)[..b] == a + c[..b1];
      ApplyConcat(d, a, c[..b1]);
    }
  }

  /** Something that stopped early never gets to what comes after. */
  lemma RanStopped(d: Disk, a: seq<Op>, f: nat, b: nat, d1: Disk, f1: nat, b1: nat, r: Progress, c: seq<Op>)
    requires Ran(d, a, f, b, d1, f1, b1, r) && r != Done
    ensures Ran(d, a + c, f, b, d1, f1, b1, r)
  {
    if r == Threw {
      assert (a + c)[..f] == a[..f];
    } else {
      assert (a + c)[..b] == a[..b];
    }
  }

  /** The worker process. `budget` is the number of writes it still gets to make before it dies. */
  class Worker {
    var disk: Disk
    var budget: nat

    constructor (d: Disk, b: nat)
      ensures disk == d && budget == b
    {
      disk, budget := d, b;
    }

    /** One write, unless an exception is due or the process dies first. */
    method Perform(op: Op, fault: nat) returns (left: nat, r: Progress)
      modifies this
      ensures Ran(old(disk), [op], fault, old(budget), disk, left, budget, r)
    {
      left := fault;
      if fault == 0 {
        return left, Threw;
      }
      if budget == 0 {
        return left, Crashed;
      }
      ghost var before := disk;
      disk := Apply(disk, op);
      budget, left := budget - 1, fault - 1;
      assert [op][1..] == [];
      assert ApplyAll(before, [op]) == ApplyAll(disk, []);
      return left, Done;
    }

    method PerformAll(ops: seq<Op>, fault: nat) returns (left: nat, r: Progress)
      modifies this
      ensures Ran(old(disk), ops, fault, old(budget), disk, left, budget, r)
    {
      left, r := fault, Done;
      for i := 0 to |ops|
        invariant r == Done && Ran(old(disk), ops[..i], fault, old(budget), disk, left, budget, Done)
      {
        ghost var d1, f1, b1 := disk, left, budget;
        left, r := Perform(ops[i], left);
        assert ops[..i + 1] == ops[..i] + [ops[i]];
        RanThen(old(disk), ops[..i], fault, old(budget), d1, f1, b1, [ops[i]], disk, left, budget, r);
        if r != Done {
          RanStopped(old(disk), ops[..i + 1], fault, old(budget), disk, left, budget, r, ops[i + 1..]);
          assert ops[..i + 1] + ops[i + 1..] == ops;
          return;
        }
      }
      assert ops[..|ops|] == ops;
    }

    /** `save_run_evidence`: refuses a directory that already holds something, else writes artefact by artefact. */
    method SaveRunEvidence(e: string, run: RunId, contents: seq<Bytes>, fault: nat)
      returns (exists_: bool, left: nat, r: Progress)
      requires |contents| == |ARTEFACTS|
      modifies this
      ensures exists_ == !DirEmpty(old(disk).files, e, run)
      ensures Ran(old(disk), if exists_ then [] else BundleOps(e, run, contents), fault, old(budget), disk, left, budget, r)
    {
      exists_ := !DirEmpty(disk.files, e, run);
      if exists_ {
        return exists_, fault, Done;
      }
      left, r := PerformAll(BundleOps(e, run, contents), fault);
    }

    /** The last stage of a run: both bundles, then the comparison that points at them. */
    method SaveEvidence(e: string, env: Env, fault: nat) returns (ending: Ending, left: nat, r: Progress)
      requires ValidEnv(env)
      modifies this
      ensures Ran(old(disk), EvidenceOps(old(disk), e, env).0, fault, old(budget), disk, left, budget, r)
      ensures r == Done ==> ending == EvidenceOps(old(disk), e, env).1
    {
      ghost var d, b := disk, budget;
      ghost var all := EvidenceOps(d, e, env).0;
      var refused;
      ending := InternalError;
      refused, left, r := SaveRunEvidence(e, BaselineId(env), env.baseline, fault);
      if refused {
        return;
      }
      ghost var done := BundleOps(e, BaselineId(env), env.baseline);
      if r != Done {
        RanStopped(d, done, fault, b, disk, left, budget, r, all[|done|..]);
        assert done + all[|done|..] == all;
        return;
      }
      ghost var d1, f1, b1 := disk, left, budget;
      refused, left, r := SaveRunEvidence(e, MitigationId(env), env.mitigation, left);
      if refused {
        assert all == done;
        return;
      }
      ghost var next := BundleOps(e, MitigationId(env), env.mitigation);
      RanThen(d, done, fault, b, d1, f1, b1, next, disk, left, budget, r);
      done := done + next;
      if r != Done {
        RanStopped(d, done, fault, b, disk, left, budget, r, all[|done|..]);
        assert done + all[|done|..] == all;
        return;
      }
      d1, f1, b1 := disk, left, budget;
      var pointer := SaveComparison(e, Comparison(BaselineId(env), MitigationId(env), env.report));
      left, r := Perform(pointer, left);
      RanThen(d, done, fault, b, d1, f1, b1, [pointer], disk, left, budget, r);
      ending := Finished;
    }

    /** What follows once the policy allows the run. */
    method RunAllowed(msg: Message, env: Env, fault: nat) returns (ending: Ending, left: nat, r: Progress)
      requires ValidEnv(env)
      modifies this
      ensures Ran(old(disk), AllowedOps(old(disk), msg, env).0, fault, old(budget), disk, left, budget, r)
      ensures r == Done ==> ending == AllowedOps(old(disk), msg, env).1
    {
      ghost var d, b := disk, budget;
      ghost var all := AllowedOps(d, msg, env).0;
      ghost var done := EmitAll(msg.jobId, MEASURING, env.recorded);
      ending := InternalError;
      left, r := PerformAll(EmitAll(msg.jobId, MEASURING, env.recorded), fault);
      if r != Done {
        RanStopped(d, done, fault, b, disk, left, budget, r, all[|done|..]);
        assert done + all[|done|..] == all;
        return;
      }
      ghost var d1, f1, b1 := disk, left, budget;
      ending, left, r := SaveEvidence(msg.experiment, env, left);
      RanThen(d, done, fault, b, d1, f1, b1, EvidenceOps(d1, msg.experiment, env).0, disk, left, budget, r);
    }

    /** `run_experiment` through the runner and the orchestrator. */
    method RunExperiment(msg: Message, env: Env) returns (ending: Ending, left: nat, r: Progress)
      requires ValidEnv(env)
      modifies this
      ensures Ran(old(disk), RunOps(old(disk), msg, env).0, env.fault, old(budget), disk, left, budget, r)
      ensures r == Done ==> ending == RunOps(old(disk), msg, env).1
    {
      ghost var d, b := disk, budget;
      ghost var all := RunOps(d, msg, env).0;
      ending := InternalError;
      left, r := Perform(Emit(msg.jobId, Preparing, env.recorded(Preparing)), env.fault);
      ghost var done := [Emit(msg.jobId, Preparing, env.recorded(Preparing))];
      if r != Done {
        RanStopped(d, done, env.fault, b, disk, left, budget, r, all[1..]);
        assert done + all[1..] == all;
        return;
      }
      if !env.resolvable {
        return ServiceError, left, Done;
      }
      if !env.loadable {
        return InternalError, left, Done;
      }
      ghost var d1, f1, b1 := disk, left, budget;
      left, r := Perform(Emit(msg.jobId, SafetyCheck, env.recorded(SafetyCheck)), left);
      RanThen(d, done, env.fault, b, d1, f1, b1, [Emit(msg.jobId, SafetyCheck, env.recorded(SafetyCheck))], disk, left, budget, r);
      done := done + [Emit(msg.jobId, SafetyCheck, env.recorded(SafetyCheck))];
      if r != Done {
        RanStopped(d, done, env.fault, b, disk, left, budget, r, all[2..]);
        assert done + all[2..] == all;
        return;
      }
      if !env.allowed {
        return Refused, left, Done;
      }
      if !env.consistent {
        return InternalError, left, Done;
      }
      d1, f1, b1 := disk, left, budget;
      ending, left, r := RunAllowed(msg, env, left);
      RanThen(d, done, env.fault, b, d1, f1, b1, AllowedOps(d1, msg, env).0, disk, left, budget, r);
    }

    /** Writes outside the run proper: nothing but the death of the process stops them. */
    method Persist(ops: seq<Op>) returns (alive: bool)
      modifies this
      ensures Lived(old(disk), ops, old(budget), disk, budget, alive)
    {
      var left, r := PerformAll(ops, |ops| + budget + 1);
      alive := r == Done;
    }

    /** `process_run_job`: the writes of its plan, in order, as far as the process lives. */
    method ProcessRunJob(msg: Message, env: Env) returns (alive: bool)
      requires ValidEnv(env)
      modifies this
      ensures Lived(old(disk), Plan(old(disk), msg, env), old(budget), disk, budget, alive)
    {
      ghost var d, b := disk, budget;
      ghost var plan := Plan(d, msg, env);
      var submittedAt := if msg.jobId in disk.jobs then disk.jobs[msg.jobId].submittedAt else env.now;
      var start := [SaveJob(msg.jobId, JobRecord(msg.experiment, Running, submittedAt, None))];
      alive := Persist(start);
      if !alive {
        LivedStopped(d, start, b, disk, budget, plan[1..]);
        assert start + plan[1..] == plan;
        return;
      }
      ghost var d1, b1 := disk, budget;
      assert d1 == ApplyAll(d, start);
      if !env.found {
        alive := Persist(Terminal(msg, submittedAt, env, ServiceError));
        LivedThen(d, start, b, d1, b1, Terminal(msg, submittedAt, env, ServiceError), disk, budget, alive);
        return;
      }
      var ending, left, r := RunExperiment(msg, env);
      ghost var run := FaultyRun(d1, msg, env).0;
      RanFaulty(d1, msg, env, b1, disk, left, budget, r);
      LivedThen(d, start, b, d1, b1, run, disk, budget, r != Crashed);
      if r == Crashed {
        LivedStopped(d, start + run, b, disk, budget, plan[|start + run|..]);
        assert (start + run) + plan[|start + run|..] == plan;
        return false;
      }
      if r == Threw {
        ending := InternalError;
      }
      ghost var d2, b2 := disk, budget;
      alive := Persist(Terminal(msg, submittedAt, env, ending));
      LivedThen(d, start + run, b, d2, b2, Terminal(msg, submittedAt, env, ending), disk, budget, alive);
    }
  }

  /** What performing `ops` leaves behind when only the death of the process can stop it. */
  ghost predicate Lived(d: Disk, ops: seq<Op>, b: nat, d': Disk, b': nat, alive: bool) {
    && alive == (b >= |ops|)
    && d' == ApplyAll(d, if alive then ops else ops[..b])
    && b' == if alive then b - |ops| else 0
  }

  lemma LivedThen(d: Disk, a: seq<Op>, b: nat, d1: Disk, b1: nat, c: seq<Op>, d2: Disk, b2: nat, alive: bool)
    requires Lived(d, a, b, d1, b1, true) && Lived(d1, c, b1, d2, b2, alive)
    ensures Lived(d, a + c, b, d2, b2, alive)
  {
    ApplyConcat(d, a, c);
    if !alive {
      assert (a + c)[..b] == a + c[..b1];
      ApplyConcat(d, a, c[..b1]);
    }
  }

  lemma LivedStopped(d: Disk, a: seq<Op>, b: nat, d1: Disk, b1: nat, c: seq<Op>)
    requires Lived(d, a, b, d1, b1, false)
    ensures Lived(d, a + c, b, d1, b1, false)
  {
    assert (a + c)[..b] == a[..b];
  }

  /** An exception inside the run turns into an internal error; a crash stays a crash. */
  lemma RanFaulty(d: Disk, msg: Message, env: Env, b: nat, d': Disk, left: nat, b': nat, r: Progress)
    requires ValidEnv(env) && Ran(d, RunOps(d, msg, env).0, env.fault, b, d', left, b', r)
    ensures Lived(d, FaultyRun(d, msg, env).0, b, d', b', r != Crashed)
    ensures r == Threw ==> FaultyRun(d, msg, env).1 == InternalError
    ensures r == Done ==> FaultyRun(d, msg, env) == RunOps(d, msg, env)
  {
    var ops := RunOps(d, msg, env).0;
    if env.fault < |ops| && b < env.fault {
      assert ops[..env.fault][..b] == ops[..b];
    }
  }
}
