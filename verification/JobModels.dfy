/** The job spec, the runner's result record and the job envelope with its
    four orthogonal states (src/colab_cli/job/models.py). */
module JobModels {
  import opened Options

  datatype Workload = Pending | Running | Succeeded | Failed | Cancelled | Unknown {
    predicate Terminal() {
      Succeeded? || Failed? || Cancelled? || Unknown?
    }
  }

  datatype Offload = Pending | Running | Ok | NotRequired | Skipped | Failed {
    predicate Terminal() {
      Ok? || NotRequired? || Skipped? || Failed?
    }
  }

  datatype Cleanup = Pending | Running | Released | AlreadyAbsent | LeftUp | Failed {
    predicate Terminal() {
      Released? || AlreadyAbsent? || LeftUp? || Failed?
    }

    /** The two states that say the VM is gone. */
    predicate Gone() {
      Released? || AlreadyAbsent?
    }
  }

  datatype Supervisor = Running | Degraded | Finished | Interrupted {
    predicate Terminal() {
      Finished? || Interrupted?
    }
  }

  datatype RetryClass = FixCode | FixHuman | RetrySame | RetryDifferent | RefreshUrls | DoNotRetry

  /** Hardware asked for or granted: `Cpu` is "NONE". */
  datatype Accelerator = Cpu | Unrecognized | Named(name: string)

  datatype Phase = Plan | Provision | Install | Restart | Verify | Stage | Run | Upload | Teardown

  // -- spec ------------------------------------------------------------

  datatype DataItem = DataItem(url: string, dest: string)

  datatype ArtifactItem = ArtifactItem(path: string, url: string, required: bool)

  datatype ControlChannel = ControlChannel(putUrl: string, getUrl: string)

  datatype JobSpec = JobSpec(
    prefer: seq<Accelerator>,
    acceptCpu: bool,
    deps: seq<string>,
    data: seq<DataItem>,
    artifacts: seq<ArtifactItem>,
    result: Option<ControlChannel>,
    log: Option<ControlChannel>,
    wallClock: nat,
    retryBudget: nat,
    leaveUpOnOffloadFail: bool)

  // -- the runner's record ---------------------------------------------

  datatype TransferCategory = Http | Network | Checksum | Size | Local | Blocked | Setup | OtherCategory

  datatype TransferError = TransferError(httpStatus: Option<int>, category: TransferCategory)

  datatype ArtifactStatus = Sent | NotSent | NotProduced

  datatype ArtifactResult = ArtifactResult(path: string, status: ArtifactStatus, error: Option<TransferError>)

  datatype InputResult = InputResult(dest: string, failed: bool, error: Option<TransferError>)

  /** Who asked for a cancel, from cancel.json's `by`. */
  datatype Canceller = WallClock | JobDestroy | StatusPoll | ApplyDeadline | ApplyTimeout | OtherCanceller

  datatype ResultSchema = One | Two | OtherSchema

  datatype PhaseField = NoPhase | KnownPhase(phase: Phase) | OtherPhase(name: string)

  /** result.json as the runner wrote it. `workload` is None for a value this
      CLI does not know (a missing one counts as unknown); `offloadFailed` says
      whether the runner reported a failed upload step. `endTyped` is false when
      the exit code, signal or exception has a type the envelope's schema
      refuses, `restTyped` when any other field has. */
  datatype RunnerResult = RunnerResult(
    provenance: Provenance,
    phase: PhaseField,
    workload: Option<Workload>,
    run: RunRecord,
    finishedAt: Option<nat>,
    offloadFailed: bool,
    offloadError: bool,
    cancelledBy: Option<Canceller>,
    warnings: seq<string>,
    endTyped: bool,
    restTyped: bool)

  // -- envelope --------------------------------------------------------

  datatype Sig = CtrlC | Term

  /** Why the envelope's `reason` is set; wording is not modelled. */
  datatype Reason =
    | PhaseFailed(phase: Phase)
    | ReachedVerdict(ofWorkload: bool, ofOffload: bool)
    | StagingFailed(dest: Option<string>)
    | AssignmentLost
    | RunnerDead
    | NeverStarted
    | Unabsorbable
    | DeadlineCancelled(noted: bool, inner: Option<Reason>)
    | DeadlineNoResult
    | LocalDeadline
    | TransportFailing
    | WatchdogStalled
    | LaunchInvalid
    | InterruptedBeforeLaunch(phase: Phase)
    | InterruptedAfterLaunch(how: Sig)
    | InternalFailure(phase: Phase)
    | SecretUnconfirmed
    | SurvivorsKept
    | SupervisorGone
    | ForcedTeardown
    | Destroyed(confirmed: bool)
    | CancelOnly(confirmed: bool)

  /** The hints `absorb_result` can add; other hints are text only. */
  datatype Hint = UnknownPhase(name: string) | RunnerWarning(text: string) | Survivors(count: nat)

  datatype Attempt = Granted | AssignFailed | RefusedCpu

  datatype ProvisionAttempt =
    ProvisionAttempt(accelerator: Accelerator, outcome: Attempt, retryClass: Option<RetryClass>)

  /** Which CLI and runner wrote the record. */
  datatype Provenance = Provenance(schema: ResultSchema, cliVersion: string, payloadVersion: string)

  datatype ApplyOptions = ApplyOptions(leaveUp: bool, keepAliveDisabled: bool)

  datatype Grant = Grant(requested: Option<Accelerator>, granted: Option<Accelerator>, attempts: seq<ProvisionAttempt>)

  /** What the runner recorded about the run itself. */
  datatype RunRecord = RunRecord(
    exitCode: Option<int>,
    signal: Option<int>,
    exception: Option<string>,
    survivors: seq<int>,
    inputs: seq<InputResult>,
    artifacts: seq<ArtifactResult>)

  datatype JobEnvelope = JobEnvelope(
    provenance: Provenance,
    options: ApplyOptions,
    phase: Phase,
    failedPhase: Option<Phase>,
    workload: Workload,
    offload: Offload,
    cleanup: Cleanup,
    supervisor: Supervisor,
    session: bool,
    endpoint: Option<nat>,
    grant: Grant,
    run: RunRecord,
    retryClass: Option<RetryClass>,
    reason: Option<Reason>,
    hints: seq<Hint>,
    startedAt: Option<nat>,
    finishedAt: Option<nat>)
  {
    /** All four states terminal. */
    predicate Done() {
      workload.Terminal() && offload.Terminal() && cleanup.Terminal() && supervisor.Terminal()
    }

    predicate IsOk() {
      && workload == Workload.Succeeded
      && (offload == Offload.Ok || offload == Offload.NotRequired)
      && (cleanup == Cleanup.Released || cleanup == Cleanup.AlreadyAbsent || cleanup == Cleanup.LeftUp)
    }

    /** The first failure decides the outcome; later ones keep it. */
    function RecordFailure(failed: Phase): (e: JobEnvelope)
      ensures e.failedPhase == Some(if failedPhase.Some? then failedPhase.value else failed)
    {
      if failedPhase.None? then this.(failedPhase := Some(failed)) else this
    }

    /** The endpoints this record still points at: at most one. */
    function Held(): set<nat> {
      if endpoint.Some? then {endpoint.value} else {}
    }
  }

  /** A new job's envelope, before `provision`. */
  function FreshEnvelope(options: ApplyOptions): JobEnvelope {
    JobEnvelope(Provenance(Two, "", ""), options, Plan, None,
                Workload.Pending, Offload.Pending, Cleanup.Pending, Supervisor.Running,
                false, None, Grant(None, None, []), RunRecord(None, None, None, [], [], []),
                None, None, [], None, None)
  }

  /** What offload is when the runner never reached it. */
  function NothingOffloaded(spec: JobSpec): Offload {
    if spec.artifacts == [] then Offload.NotRequired else Offload.Skipped
  }
}
