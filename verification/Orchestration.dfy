/** The `apply` state machine (src/colab_cli/job/orchestrator.py): provision,
    launch, poll, absorb and cleanup, each stoppable at every step. */
module Orchestration {
  import opened Options
  import opened JobModels
  import opened Verdicts
  import opened Absorb
  import opened World
  import opened RunnerWatching

  const RUNNER_STOP_WAIT := 300
  const POLL_INTERVAL := 15
  const RUN_DEADLINE_MARGIN := 600
  /** How deep the interpreter lets calls nest before it raises. */
  const RECURSION_LIMIT := 1000

  // -- keeping the VM ------------------------------------------------------

  predicate UploadToRescue(e: JobEnvelope, spec: Option<JobSpec>) {
    spec.Some? && spec.value.leaveUpOnOffloadFail && SomeUploadFailed(e.run.artifacts)
  }

  /** `keep_vm`. */
  predicate KeepVm(e: JobEnvelope, spec: Option<JobSpec>, secretRemoved: bool) {
    secretRemoved && (e.options.leaveUp || UploadToRescue(e, spec))
  }

  /** `record_vm_kept`: a survivor on a kept VM is a cleanup failure, and
      fills the reason and class only where the workload left them empty. */
  method RecordVmKept(e: JobEnvelope) returns (e': JobEnvelope)
    ensures e'.cleanup == if e.run.survivors == [] then Cleanup.LeftUp else Cleanup.Failed
    ensures e' == e.(cleanup := e'.cleanup, failedPhase := e'.failedPhase, reason := e'.reason,
                     retryClass := e'.retryClass)
    ensures e.failedPhase.Some? || e.run.survivors == [] ==> e'.failedPhase == e.failedPhase
    ensures e'.reason == if e.reason.Some? || e.run.survivors == [] then e.reason else Some(SurvivorsKept)
    ensures e.retryClass.Some? || e.run.survivors == [] ==> e'.retryClass == e.retryClass
    ensures e.run.survivors != [] ==> e'.failedPhase.Some? && e'.retryClass.Some?
  {
    if e.run.survivors == [] {
      return e.(cleanup := Cleanup.LeftUp);
    }
    e' := e.(cleanup := Cleanup.Failed).RecordFailure(Teardown);
    if e'.reason.None? {
      e' := e'.(reason := Some(SurvivorsKept));
    }
    if e'.retryClass.None? {
      e' := e'.(retryClass := Some(FixHuman));
    }
  }

  // -- how a run concludes ---------------------------------------------------

  /** `after` holds the verdict of the result `absorbed` into `before`, or says
      that none could be: unknown, and a failure. */
  predicate Concluded(spec: JobSpec, before: JobEnvelope, after: JobEnvelope, absorbed: Option<RunnerResult>,
                      why: Reason) {
    match absorbed
    case Some(r) =>
      && Absorbable(r) && TerminalResult(r)
      && var (verdict, failed) := VerdictFor(spec, r, PhaseAfter(before, r));
         VerdictOf(after) == verdict && after.failedPhase == Later(before.failedPhase, failed)
    case None =>
      && after.workload == Workload.Unknown && after.failedPhase.Some? && after.retryClass == Some(RetrySame)
      && (after.reason == Some(why) || (spec.result.Some? && after.reason == Some(Unabsorbable)))
      && after.offload == (if before.offload.Terminal() then before.offload else NothingOffloaded(spec))
  }

  /** No result's verdict speaks of the runner's silence. */
  lemma ConcludedReason(spec: JobSpec, before: JobEnvelope, after: JobEnvelope, absorbed: Option<RunnerResult>,
                        why: Reason)
    requires Concluded(spec, before, after, absorbed, why)
    ensures BlamesRunner(after.reason) || after.reason == Some(AssignmentLost) ==> after.reason == Some(why)
  {
  }

  /** The reasons that say what the runner failed to do. */
  predicate BlamesRunner(reason: Option<Reason>) {
    reason == Some(RunnerDead) || reason == Some(NeverStarted)
  }

  // -- the orchestrator -----------------------------------------------------

  class Orchestrator {
    const spec: JobSpec
    const server: Server
    const store: JobStore
    const vm: Vm
    var env: JobEnvelope
    var hasSession: bool
    var secretPrepared: bool
    const watch: RunnerWatch

    constructor (spec: JobSpec, server: Server, store: JobStore, vm: Vm, options: ApplyOptions)
      ensures this.spec == spec && this.server == server && this.store == store && this.vm == vm
      ensures env == FreshEnvelope(options) && !hasSession && !secretPrepared
      ensures fresh(watch) && watch.vm == vm && watch.Trail(vm.polls + 1) && watch.launchAbsentSince == None
    {
      this.spec, this.server, this.store, this.vm := spec, server, store, vm;
      env := FreshEnvelope(options);
      hasSession, secretPrepared := false, false;
      watch := new RunnerWatch(vm);
    }

    /** What holds in memory from construction to cleanup: every VM of the
        job the server still holds is the one `env` points at. */
    ghost predicate Inv()
      reads this, server, store, vm
    {
      && server.Valid() && store.Valid() && vm.Valid()
      && (forall e | e in store.owned :: e < server.issued)
      && Live(server, store) <= env.Held()
      && env.cleanup == Cleanup.Pending
      && (env.workload.Terminal() ==> env.offload.Terminal())
    }

    /** A run that ended with a verdict, or with the finding that none will
        come. */
    ghost predicate Settled()
      reads this`env
    {
      env.workload.Terminal() && env.offload.Terminal() && env.supervisor == Supervisor.Finished
    }

    method Persist() returns (s: Step)
      requires Inv()
      modifies store
      ensures Inv() && Safe(server, store)
      ensures s.Fine? || s.Killed?
      ensures store.envelope == Some(env) && store.written == old(store.written) + [env]
      ensures store.owned == old(store.owned) && (s.Fine? ==> store.lostEvents == old(store.lostEvents))
    {
      s := store.WriteEnvelope(env);
    }

    method SetPhase(p: Phase) returns (s: Step)
      requires Inv()
      modifies this`env, store
      ensures Inv() && Safe(server, store)
      ensures s.Fine? || s.Killed?
      ensures env == old(env).(phase := p) && store.envelope == Some(env)
      ensures store.owned == old(store.owned) && (s.Fine? ==> store.lostEvents == old(store.lostEvents))
    {
      env := env.(phase := p);
      s := Persist();
    }

    // -- provision --------------------------------------------------------

    function Candidates(): seq<Accelerator> {
      spec.prefer + (if spec.acceptCpu then [Cpu] else [])
    }

    /** Every candidate in `tried` was tried in the spec's order and not
        granted. */
    predicate TriedInOrder(tried: seq<ProvisionAttempt>) {
      && |tried| <= |Candidates()|
      && forall i | 0 <= i < |tried| :: tried[i].accelerator == Candidates()[i] && !tried[i].outcome.Granted?
    }

    /** Never a silent substitution: a CPU or unknown machine is accepted
        only for a CPU request. */
    ghost predicate GrantAccepted()
      reads this
    {
      && env.endpoint.Some? && env.session && hasSession
      && env.grant.requested.Some? && env.grant.granted.Some?
      && (env.grant.granted.value.Named? || env.grant.requested.value.Cpu?)
      && exists tried :: TriedInOrder(tried) && GrantedAfter(tried)
    }

    ghost predicate GrantedAfter(tried: seq<ProvisionAttempt>)
      reads this
    {
      && |tried| < |Candidates()|
      && env.grant.requested == Some(Candidates()[|tried|])
      && env.grant.attempts ==
         (if tried == [] then [] else tried + [ProvisionAttempt(Candidates()[|tried|], Attempt.Granted, None)])
    }

    /** The held endpoint is the server's answer to the last call made of it,
        a new one since it had issued `floor` of them. */
    ghost predicate FreshGrant(floor: nat)
      reads this, server
    {
      && env.endpoint.Some? && env.endpoint.value >= floor && env.grant.granted.Some?
      && server.calls != []
      && server.calls[|server.calls| - 1] ==
         AssignCall(AssignReply.Granted(env.endpoint.value, env.grant.granted.value))
    }

    /** Nothing held and nothing yet recorded about a VM. */
    ghost predicate Unprovisioned()
      reads this, server, store, vm
    {
      && Inv() && Safe(server, store) && Live(server, store) == {}
      && env.endpoint.None? && !env.session && !hasSession && env.grant.attempts == []
      && env.workload == Workload.Pending
    }

    /** `provision`: walk the candidates in order. A VM is held only by the
        endpoint in `env`, at every exit; a process that dies, dies with the
        record already pointing at it. */
    method Provision() returns (s: Step)
      requires Unprovisioned()
      modifies this`env, this`hasSession, server, store
      ensures Inv()
      ensures s.Fine? || s.Killed? ==> Safe(server, store)
      ensures s.Fine? ==> GrantAccepted() && store.envelope == Some(env)
      ensures s.PhaseError? ==> s.phase == Phase.Provision
      ensures s.Fine? ==> FreshGrant(old(server.issued))
      ensures s.PhaseError? ==>
                || env.endpoint.Some? || s.retryClass == Some(FixHuman)
                || (|env.grant.attempts| == |Candidates()| && TriedInOrder(env.grant.attempts)
                    && s.retryClass == Strongest(RetryClasses(env.grant.attempts)))
      ensures env.workload == Workload.Pending && env.options == old(env.options)
      ensures env.supervisor == old(env.supervisor) && env.reason == old(env.reason)
      ensures !s.Killed? ==> store.lostEvents == old(store.lostEvents)
    {
      s := SetPhase(Phase.Provision);
      if s.IsFailure() {
        return;
      }
      var attempts: seq<ProvisionAttempt> := [];
      for i := 0 to |Candidates()|
        invariant Unprovisioned()
        invariant env.options == old(env.options) && server.issued >= old(server.issued)
        invariant env.supervisor == old(env.supervisor) && env.reason == old(env.reason)
        invariant |attempts| == i && TriedInOrder(attempts)
        invariant store.lostEvents == old(store.lostEvents)
      {
        var granted;
        s, granted, attempts := TryCandidate(attempts);
        if s.IsFailure() {
          return;
        }
        if granted {
          s := StartKeepAlive();
          return;
        }
      }
      s := Exhaust(attempts);
    }

    /** Every candidate was tried and none granted. */
    method Exhaust(attempts: seq<ProvisionAttempt>) returns (s: Step)
      requires Inv()
      modifies this`env
      ensures Inv() && env == old(env).(grant := old(env.grant).(attempts := attempts))
      ensures s == PhaseError(Phase.Provision, Strongest(RetryClasses(attempts)))
    {
      env := env.(grant := env.grant.(attempts := attempts));
      s := PhaseError(Phase.Provision, Strongest(RetryClasses(attempts)));
    }

    /** One pass of the candidate loop: the next candidate is granted and
        recorded, or the attempt list grows by one and nothing is held, or
        the apply stops with the held VM in `env.endpoint`. */
    method TryCandidate(tried: seq<ProvisionAttempt>) returns (s: Step, granted: bool, attempts: seq<ProvisionAttempt>)
      requires Unprovisioned()
      requires TriedInOrder(tried) && |tried| < |Candidates()|
      modifies this`env, this`hasSession, server, store
      ensures Inv()
      ensures s.Fine? || s.Killed? ==> Safe(server, store)
      ensures s.Fine? && granted ==> GrantAccepted() && store.envelope == Some(env)
      ensures s.Fine? && !granted ==> Unprovisioned() && |attempts| == |tried| + 1 && TriedInOrder(attempts)
      ensures s.PhaseError? ==> s.phase == Phase.Provision
      ensures env.workload == Workload.Pending && env.options == old(env.options) && server.issued >= old(server.issued)
      ensures env.supervisor == old(env.supervisor) && env.reason == old(env.reason)
      ensures s.Fine? && granted ==> FreshGrant(old(server.issued))
      ensures s.PhaseError? ==> env.endpoint.Some? || s.retryClass == Some(FixHuman)
      ensures !s.Killed? ==> store.lostEvents == old(store.lostEvents)
    {
      granted, attempts := false, tried;
      var want := Candidates()[|tried|];
      env := env.(grant := env.grant.(requested := Some(want)));
      s := Tick();
      if s.IsFailure() {
        return;
      }
      var reply := server.Assign();
      var note := ProvisionAttempt(want, AssignFailed, Some(FixHuman));
      match reply {
        case LimitReached(_) =>
          env := env.(grant := env.grant.(attempts := tried + [note]));
          s := PhaseError(Phase.Provision, Some(FixHuman));
          return;
        case Refused(status, network) =>
          note := note.(retryClass := Some(AssignRetry(status, network)));
        case Granted(endpoint, accelerator) =>
          Hold(endpoint, accelerator);
          s, granted := TakeGrant(tried);
          note := note.(outcome := RefusedCpu, retryClass := Some(RetryDifferent));
      }
      attempts := tried + [note];
    }

    /** A granted VM is the job's, and `env` points at it. */
    method Hold(endpoint: nat, accelerator: Accelerator)
      requires server.Valid() && store.Valid() && vm.Valid()
      requires Live(server, store) == {} && endpoint < server.issued && forall e | e in store.owned :: e < server.issued
      requires env.workload == Workload.Pending && env.cleanup == Cleanup.Pending
      modifies this`env, store`owned
      ensures Inv() && store.owned == old(store.owned) + {endpoint}
      ensures env == old(env).(endpoint := Some(endpoint), grant := old(env.grant).(granted := Some(accelerator)))
    {
      store.owned := store.owned + {endpoint};
      env := env.(endpoint := Some(endpoint), grant := env.grant.(granted := Some(accelerator)));
      assert Live(server, store) <= {endpoint};
    }

    /** A VM was granted and `env` points at it: accept it, or send it back
        when it is a CPU nobody asked for. */
    method TakeGrant(tried: seq<ProvisionAttempt>) returns (s: Step, granted: bool)
      requires Inv() && env.endpoint.Some? && !env.session && !hasSession
      requires env.workload == Workload.Pending && env.grant.attempts == []
      requires env.grant.granted.Some? && FreshGrant(env.endpoint.value)
      requires TriedInOrder(tried) && |tried| < |Candidates()| && env.grant.requested == Some(Candidates()[|tried|])
      modifies this`env, this`hasSession, server, store
      ensures Inv() && server.issued == old(server.issued)
      ensures s.Fine? || s.Killed? ==> Safe(server, store)
      ensures s.Fine? && granted ==>
                GrantAccepted() && store.envelope == Some(env) && FreshGrant(old(env.endpoint.value))
      ensures s.Fine? && !granted ==> Unprovisioned()
      ensures s.PhaseError? ==> s.phase == Phase.Provision && env.endpoint.Some?
      ensures env.workload == Workload.Pending && env.options == old(env.options)
      ensures env.supervisor == old(env.supervisor) && env.reason == old(env.reason)
      ensures !s.Killed? ==> store.lostEvents == old(store.lostEvents)
    {
      granted := false;
      s := TickCaught();
      if s.IsFailure() {
        return;
      }
      if !env.grant.granted.value.Named? && !env.grant.requested.value.Cpu? {
        s := RefuseCpu(env.endpoint.value);
        return;
      }
      granted := true;
      s := KeepGrant(tried);
    }

    /** The granted VM is the job's: on disk before any later step can fail. */
    method KeepGrant(tried: seq<ProvisionAttempt>) returns (s: Step)
      requires Inv() && env.endpoint.Some? && env.workload == Workload.Pending && env.grant.attempts == []
      requires env.grant.granted.Some? && env.grant.requested.Some?
      requires env.grant.granted.value.Named? || env.grant.requested.value.Cpu?
      requires TriedInOrder(tried) && |tried| < |Candidates()| && env.grant.requested.value == Candidates()[|tried|]
      modifies this`env, this`hasSession, store
      ensures Inv() && Safe(server, store)
      ensures s.Fine? || s.Killed?
      ensures GrantAccepted() && store.envelope == Some(env)
      ensures env == old(env).(session := true, grant := env.grant) && env.grant.granted == old(env.grant.granted)
      ensures !s.Killed? ==> store.lostEvents == old(store.lostEvents)
    {
      hasSession := true;
      env := env.(session := true);
      if tried != [] {
        var attempts := tried + [ProvisionAttempt(Candidates()[|tried|], Attempt.Granted, None)];
        env := env.(grant := env.grant.(attempts := attempts));
      }
      s := Persist();
      assert GrantedAfter(tried);
    }

    /** A GPU request answered with a CPU machine: release it, or stop with
        the endpoint kept so that cleanup retries the release. */
    method RefuseCpu(endpoint: nat) returns (s: Step)
      requires Inv() && env.endpoint == Some(endpoint)
      modifies this`env, server
      ensures Inv() && server.issued == old(server.issued)
      ensures s.Fine? ==> Live(server, store) == {} && Safe(server, store)
      ensures s.Fine? || s == PhaseError(Phase.Provision, Some(RetrySame))
      ensures env == if s.Fine? then old(env).(endpoint := None) else old(env)
    {
      var outcome := ReleaseAssignment(server, endpoint);
      assert Live(server, store) <= {endpoint};
      if outcome.Failed? {
        return PhaseError(Phase.Provision, Some(RetrySame));
      }
      assert Live(server, store) == {};
      env := env.(endpoint := None);
      return Fine;
    }

    /** `_start_keep_alive`: a missing scope releases the VM and stops the
        apply; any other failed ping is left to the daemon; a daemon that
        cannot start stops the apply with the endpoint kept for cleanup, as
        does a session store that raises. */
    method StartKeepAlive() returns (s: Step)
      requires Inv() && Safe(server, store) && store.envelope == Some(env)
      requires env.endpoint.Some? && env.session && hasSession
      modifies this`env, this`hasSession, server
      ensures Inv()
      ensures s.Fine? || s.Killed? ==> Safe(server, store)
      ensures s.Fine? ==> env == old(env) && hasSession && old(server.calls) == server.calls
      ensures env == old(env) || env == old(env).(endpoint := None, session := false)
      ensures s.PhaseError? ==> s.phase == Phase.Provision && s.retryClass == Some(FixHuman)
      ensures env.endpoint.None? ==> s.PhaseError?
    {
      s := Tick();
      if s.IsFailure() || env.options.keepAliveDisabled {
        return;
      }
      var scopeError: bool := *;
      if scopeError {
        var endpoint := env.endpoint.value;
        var outcome := ReleaseAssignment(server, endpoint);
        assert Live(server, store) <= {endpoint};
        if !outcome.Failed? {
          assert Live(server, store) == {};
          env := env.(endpoint := None, session := false);
          hasSession := false;
        }
        return PhaseError(Phase.Provision, Some(FixHuman));
      }
      s := Tick();
      if s.IsFailure() {
        return;
      }
      var spawned: bool := *;
      if !spawned {
        return PhaseError(Phase.Provision, Some(FixHuman));
      }
      s := Tick();
    }

    // -- install to launch -------------------------------------------------

    /** Past provision and not yet launched. */
    ghost predicate Provisioned()
      reads this, server, store, vm
    {
      Inv() && Safe(server, store) && env.workload == Workload.Pending && env.endpoint.Some? && hasSession
    }

    /** install, restart, verify and stage up to their own outcome: the phase
        is on disk before its work starts. */
    method KernelPhase(p: Phase) returns (s: Step)
      requires Provisioned()
      modifies this`env, store
      ensures Provisioned()
      ensures env == old(env).(phase := p) && store.envelope == Some(env)
      ensures s.PhaseError? ==> s.phase == p
      ensures !s.Killed? ==> store.lostEvents == old(store.lostEvents)
    {
      s := SetPhase(p);
      if s.IsFailure() {
        return;
      }
      var outcome: Step := *;
      s := if outcome.PhaseError? then PhaseError(p, outcome.retryClass) else outcome;
    }

    /** `prepare_secret_channel`, for jobs with transfers only. */
    method PrepareSecretChannel() returns (s: Step)
      requires Provisioned()
      modifies this`secretPrepared
      ensures s.PhaseError? ==> s.phase == Stage
      ensures secretPrepared == (old(secretPrepared) || s.Fine?)
    {
      s := Tick();
      if s.IsFailure() {
        return;
      }
      var ready: bool := *;
      if !ready {
        return PhaseError(Stage, Some(RetrySame));
      }
      secretPrepared := true;
      return Fine;
    }

    predicate SecretsRequired() {
      spec.data != [] || spec.artifacts != [] || spec.result.Some?
    }

    /** `_stage_payload` and `seal_secret_channel`. */
    method StageAndSeal() returns (s: Step)
      requires Provisioned()
      modifies this`env, this`secretPrepared, store
      ensures Provisioned() && env == old(env).(phase := Stage)
      ensures s.PhaseError? ==> s.phase == Stage
      ensures !s.Killed? ==> store.lostEvents == old(store.lostEvents)
    {
      s := SetPhase(Stage);
      if s.IsFailure() {
        return;
      }
      if SecretsRequired() {
        s := PrepareSecretChannel();
        if s.IsFailure() {
          return;
        }
      }
      var staged: Step := *;
      s := if staged.PhaseError? then PhaseError(Stage, staged.retryClass) else staged;
    }

    /** `cleanup_secret_channel`: true only when nothing was prepared or the
        kernel or Contents confirmed the file gone. */
    method CleanupSecretChannel() returns (s: Step, removed: bool)
      requires secretPrepared ==> Safe(server, store)
      modifies this`secretPrepared
      ensures s.Fine? || s.Killed?
      ensures s.Killed? ==> Safe(server, store)
      ensures !old(secretPrepared) ==> s.Fine? && removed
      ensures old(secretPrepared) && !hasSession ==> !removed
      ensures s.Fine? ==> secretPrepared == !removed
    {
      if !secretPrepared {
        return Fine, true;
      }
      if !hasSession {
        return Fine, false;
      }
      var tick := Tick();
      if !tick.Fine? {
        return Killed, false;
      }
      var kernelAbsent: bool, contentsAbsent: bool := *, *;
      removed := kernelAbsent || contentsAbsent;
      secretPrepared := !removed;
      s := Fine;
    }

    /** `launch`: a pid proves the runner took the credential; a lost reply
        leaves whether it started to `poll`. */
    method Launch() returns (s: Step, pid: bool)
      requires Provisioned()
      modifies this`env, store
      ensures Inv() && Safe(server, store)
      ensures env == old(env).(phase := Run, workload := env.workload, startedAt := env.startedAt)
      ensures env.workload == Workload.Running || env.workload == Workload.Pending
      ensures s.Fine? ==>
                env.workload == Workload.Running && env.startedAt == Some(vm.now) && store.envelope == Some(env)
      ensures !s.Fine? && !s.Killed? ==> env.workload == Workload.Pending
      ensures s.PhaseError? ==> s.phase == Run
      ensures !s.Killed? ==> store.lostEvents == old(store.lostEvents)
    {
      pid := false;
      s := SetPhase(Run);
      if s.IsFailure() {
        return;
      }
      s := Tick();
      if s.IsFailure() {
        return;
      }
      var transportFailed: bool, answered: bool := *, *;
      if !transportFailed && !answered {
        var retry: Option<RetryClass> := *;
        s := PhaseError(Run, retry);
        return;
      }
      pid := !transportFailed;
      env := env.(workload := Workload.Running, startedAt := Some(vm.now));
      s := Persist();
    }

    // -- results -------------------------------------------------------------

    /** Launched: the VM side of the record and the disk are in step. */
    ghost predicate Launched()
      reads this, server, store, vm
    {
      Inv() && Safe(server, store) && env.endpoint.Some? && env.workload != Workload.Pending
    }

    /** The parts of the record no verdict touches. */
    twostate predicate SameVm()
      reads this
    {
      && env.endpoint == old(env.endpoint) && env.session == old(env.session) && env.cleanup == old(env.cleanup)
      && env.options == old(env.options) && env.startedAt == old(env.startedAt)
      && (old(env.failedPhase).Some? ==> env.failedPhase == old(env.failedPhase))
    }

    /** `_absorb_or_keep`: absorb the result, or end without one. A result
        the CLI can read is never lost to the recursion limit. `absorbed` is
        the result the record was settled by, this one or control.result. */
    method AbsorbOrKeep(result: RunnerResult, depth: nat) returns (s: Step, ghost absorbed: Option<RunnerResult>)
      requires Launched()
      requires Absorbable(result) ==> TerminalResult(result)
      modifies this`env, store
      ensures Launched() && SameVm()
      ensures s.Fine? || s.Internal? || s.Killed?
      ensures s.Fine? ==> Settled() && store.envelope == Some(env)
      ensures !s.Internal? ==> Concluded(spec, old(env), env, absorbed, Unabsorbable)
      ensures Absorbable(result) ==> !s.Internal? && absorbed == Some(result)
      ensures !Absorbable(result) && absorbed.Some? ==> spec.result.Some?
      ensures s.Internal? ==> spec.result.Some? && env == old(env)
      ensures !s.Killed? ==> store.lostEvents == old(store.lostEvents)
      decreases depth, 1
    {
      var accepted, absorbedEnv := AbsorbResult(env, spec, result, vm.now);
      if !accepted {
        s, absorbed := FinishWithoutResult(Unabsorbable, depth);
        return;
      }
      absorbed := Some(result);
      AbsorbFrame(env, spec, result, vm.now);
      env := absorbedEnv.(supervisor := Supervisor.Finished);
      s := Persist();
    }

    /** `_finish_without_result`: a terminal result in control.result still
        wins; otherwise the verdict is unknown. The two methods call each
        other without a measure of their own, so a control.result that stays
        terminal and unreadable ends at the recursion limit. */
    method FinishWithoutResult(why: Reason, depth: nat) returns (s: Step, ghost absorbed: Option<RunnerResult>)
      requires Launched()
      modifies this`env, store
      ensures Launched() && SameVm()
      ensures s.Fine? || s.Internal? || s.Killed?
      ensures s.Fine? ==> Settled() && store.envelope == Some(env)
      ensures !s.Internal? ==> Concluded(spec, old(env), env, absorbed, why)
      ensures absorbed.Some? ==> spec.result.Some?
      ensures s.Internal? ==> spec.result.Some? && env == old(env)
      ensures !s.Killed? ==> store.lostEvents == old(store.lostEvents)
      decreases depth, 0
    {
      absorbed := None;
      if spec.result.Some? {
        var fetched := FetchControlResult();
        if fetched.Some? && TerminalResult(fetched.value) {
          if depth == 0 {
            s := Internal;
            return;
          }
          s, absorbed := AbsorbOrKeep(fetched.value, depth - 1);
          return;
        }
      }
      s := RecordUnknown(why);
    }

    /** No result is to be had: the verdict is unknown. */
    method RecordUnknown(why: Reason) returns (s: Step)
      requires Launched()
      modifies this`env, store
      ensures Launched() && SameVm()
      ensures s.Fine? || s.Killed?
      ensures Settled() && store.envelope == Some(env)
      ensures Concluded(spec, old(env), env, None, why)
      ensures !s.Killed? ==> store.lostEvents == old(store.lostEvents)
    {
      env := env.(workload := Workload.Unknown,
                  offload := if env.offload.Terminal() then env.offload else NothingOffloaded(spec),
                  supervisor := Supervisor.Finished,
                  reason := Some(why),
                  retryClass := Some(RetrySame),
                  finishedAt := Some(vm.now)).RecordFailure(Run);
      s := Persist();
    }

    // -- poll ------------------------------------------------------------------

    ghost predicate Watching()
      reads this`env, watch, vm
    {
      watch.vm == vm && watch.Trail(vm.polls + 1) && watch.PastGrace(env.startedAt)
    }

    /** "Dead" and "never started" are recorded only on the reads that back
        them. */
    ghost predicate ReasonBacked()
      reads this`env, watch, vm
    {
      && watch.vm == vm
      && (env.reason == Some(RunnerDead) ==> watch.DeadEvidence())
      && (env.reason == Some(NeverStarted) ==> watch.NeverLaunchedEvidence())
    }

    /** What it means for the record to be backed. */
    lemma BackedIsHonest()
      requires vm.Valid() && ReasonBacked()
      ensures BlameIsHonest(env.reason, vm)
    {
      if env.reason == Some(RunnerDead) && vm.runner.resultAt.Some? {
        DeadVerdictIsHonest(watch);
        assert DishonestRead(vm, |vm.log| - 1);
      }
      if env.reason == Some(NeverStarted) {
        if vm.runner.Exists(LaunchFile, vm.log[watch.absentRead].at) {
          NeverStartedVerdictIsHonest(watch);
        }
        assert AbsentFrom(vm, watch.absentRead);
      }
    }

    /** One pass of the poll loop: look, then act on what was seen. */
    method PollOnce() returns (s: Step, look: Look)
      requires Launched() && Watching() && TellsNothing(env.reason)
      modifies this`env, watch, store, vm
      ensures Launched() && SameVm() && vm.now >= old(vm.now) && watch.Explains(look)
      ensures !s.PhaseError?
      ensures look.Unsettled() ==> Watching() && env.workload == old(env.workload)
      ensures s.Internal? || s.Signalled? ==> env.workload == old(env.workload)
      ensures ReasonBacked()
      ensures s.Fine? && !look.Unsettled() ==> Settled() && store.envelope == Some(env)
      ensures TiedTo(env.reason, look)
      ensures !s.Killed? ==> store.lostEvents == old(store.lostEvents)
    {
      look := watch.LookOnce(env.startedAt);
      s := Act(look);
    }

    /** What one look does to the record. */
    method Act(look: Look) returns (s: Step)
      requires Launched() && TellsNothing(env.reason)
      modifies this`env, store
      ensures Launched() && SameVm()
      ensures !s.PhaseError? && (s.Signalled? ==> look.Unsettled())
      ensures s.Internal? ==> env.workload == old(env.workload)
      ensures TiedTo(env.reason, look)
      ensures look.Unsettled() ==>
                && env == old(env).(supervisor := env.supervisor, reason := env.reason)
                && env.supervisor == (if look.LookDegraded? then Supervisor.Degraded else Supervisor.Running)
      ensures s.Fine? ==> store.envelope == Some(env) && (!look.Unsettled() ==> Settled())
      ensures look.LookResult? && Absorbable(vm.result) ==>
                VerdictOf(env) == VerdictFor(spec, vm.result, PhaseAfter(old(env), vm.result)).0
      ensures s.Fine? && !look.Unsettled() && !look.LookResult? && spec.result.None? ==>
                env.workload == Workload.Unknown && env.failedPhase.Some? && env.reason == Some(WhyNoResult(look))
      ensures !s.Killed? ==> store.lostEvents == old(store.lostEvents)
    {
      ghost var absorbed;
      if look.LookResult? {
        s, absorbed := AbsorbOrKeep(vm.result, RECURSION_LIMIT);
        if !s.Internal? {
          ConcludedReason(spec, old(env), env, absorbed, Unabsorbable);
        }
      } else if look.Unsettled() {
        env := if look.LookDegraded?
               then env.(supervisor := Supervisor.Degraded, reason := Some(TransportFailing))
               else env.(supervisor := Supervisor.Running,
                         reason := if look.stalled then Some(WatchdogStalled) else None);
        s := Tick();
        if s.Fine? {
          s := Persist();
        }
      } else {
        s, absorbed := FinishWithoutResult(WhyNoResult(look), RECURSION_LIMIT);
        if !s.Internal? {
          ConcludedReason(spec, old(env), env, absorbed, WhyNoResult(look));
        }
      }
    }

    /** `poll`: read the verdict from the runner's files until one settles or
        the deadline passes; `end` is the last look, None at the deadline.
        Every pass of the loop waits, so it ends. Its reads may raise and a
        signal may stop it: then the workload is as it was. */
    method Poll(deadline: nat) returns (s: Step, end: Option<Look>)
      requires Launched() && Watching() && TellsNothing(env.reason)
      modifies this`env, watch, store, vm
      ensures Launched() && SameVm()
      ensures !s.PhaseError?
      ensures end.Some? ==> !end.value.Unsettled() && watch.Explains(end.value)
      ensures s.Fine? && end.Some? ==> Settled() && store.envelope == Some(env) && TiedTo(env.reason, end.value)
      ensures ReasonBacked() && (s.Fine? && end.None? ==> env.reason == Some(LocalDeadline))
      ensures s.Internal? || s.Signalled? ==> env.workload == old(env.workload)
      ensures s.Fine? && end.None? ==>
                && vm.now >= deadline && env.supervisor == Supervisor.Interrupted && env.workload == old(env.workload)
      ensures !s.Killed? ==> store.lostEvents == old(store.lostEvents)
    {
      s, end := Fine, None;
      while vm.now < deadline
        invariant Launched() && SameVm() && Watching() && env.workload == old(env.workload)
        invariant TellsNothing(env.reason)
        invariant store.lostEvents == old(store.lostEvents)
        decreases if vm.now < deadline then deadline - vm.now else 0
      {
        s := Tick();
        if s.IsFailure() {
          return;
        }
        var look;
        s, look := PollOnce();
        if !look.Unsettled() {
          end := Some(look);
          return;
        }
        if s.IsFailure() {
          return;
        }
        s := Tick();
        if s.IsFailure() {
          return;
        }
        vm.Pass(POLL_INTERVAL);
      }
      s := PassDeadline();
    }

    /** The local deadline is reached; the run itself goes on. */
    method PassDeadline() returns (s: Step)
      requires Launched()
      modifies this`env, store
      ensures Launched() && SameVm()
      ensures s.Fine? || s.Killed?
      ensures env == old(env).(supervisor := Supervisor.Interrupted, reason := Some(LocalDeadline),
                               retryClass := Some(RetrySame))
      ensures !s.Killed? ==> store.lostEvents == old(store.lostEvents)
    {
      env := env.(supervisor := Supervisor.Interrupted, reason := Some(LocalDeadline), retryClass := Some(RetrySame));
      s := Persist();
    }

    /** `cancel_after_deadline`: cancel, wait for the result, and settle. The
        deadline is a failed run whatever the runner's own result says, and
        when no result can be had. A result fetched from control.result
        instead keeps its own verdict: then the run counts as failed exactly
        when that verdict, or something before it, says so. */
    method CancelAfterDeadline(requester: Canceller)
      returns (s: Step, collected: bool, ghost absorbed: Option<RunnerResult>)
      requires Launched() && TellsNothing(env.reason)
      modifies this`env, store, vm
      ensures Launched() && SameVm()
      ensures !s.PhaseError?
      ensures s.Fine? ==> Settled() && store.envelope == Some(env)
      ensures s.Internal? || s.Signalled? ==> env.workload == old(env.workload)
      ensures !BlamesRunner(env.reason)
      ensures !s.Killed? && env.workload.Terminal() ==> Settled() || env.workload == old(env.workload)
      ensures s.Fine? && absorbed.Some? ==> Absorbable(absorbed.value) && TerminalResult(absorbed.value)
      ensures s.Fine? && absorbed.Some? ==> env.workload == absorbed.value.workload.value
      ensures s.Fine? && absorbed.None? ==> env.workload == Workload.Unknown
      ensures s.Fine? && collected ==> env.retryClass.Some? && env.reason.Some?
      ensures s.Fine? && collected && Absorbable(vm.result) ==> absorbed == Some(vm.result)
      ensures s.Fine? && absorbed.Some? && spec.result.None? ==> collected && absorbed == Some(vm.result)
      ensures s.Fine? ==>
                (env.failedPhase.Some? <==>
                 || collected || absorbed.None? || old(env.failedPhase).Some?
                 || VerdictFor(spec, absorbed.value, PhaseAfter(old(env), absorbed.value)).1.Some?)
      ensures s.Fine? && collected ==> env.failedPhase.Some? && env.retryClass.Some? && env.reason.Some?
      ensures s.Fine? && collected && Absorbable(vm.result) ==> env.workload == vm.result.workload.value
      ensures !s.Killed? ==> store.lostEvents == old(store.lostEvents)
    {
      collected, absorbed := false, None;
      var confirmed: bool := *;
      var result := AwaitRunnerResult(vm, RUNNER_STOP_WAIT);
      s := Tick();
      if s.IsFailure() {
        return;
      }
      collected := result.Some?;
      s, absorbed := SettleLate(result, collected && result.value.cancelledBy == Some(requester) && confirmed);
    }

    /** The run past its deadline settles by what was collected, if anything. */
    method SettleLate(result: Option<RunnerResult>, received: bool)
      returns (s: Step, ghost absorbed: Option<RunnerResult>)
      requires Launched() && TellsNothing(env.reason)
      requires result.None? || result.value == vm.result
      modifies this`env, store
      ensures Launched() && SameVm()
      ensures s.Fine? || s.Internal? || s.Killed?
      ensures s.Fine? ==> Settled() && store.envelope == Some(env)
      ensures s.Internal? ==> env == old(env)
      ensures !BlamesRunner(env.reason)
      ensures s.Fine? && result.Some? ==> env.failedPhase.Some? && env.retryClass.Some? && env.reason.Some?
      ensures s.Fine? && result.Some? && Absorbable(vm.result) ==> absorbed == Some(vm.result)
      ensures s.Fine? && absorbed.Some? ==>
                && Absorbable(absorbed.value) && TerminalResult(absorbed.value)
                && env.workload == absorbed.value.workload.value
      ensures s.Fine? && absorbed.None? ==> env.workload == Workload.Unknown && env.failedPhase.Some?
      ensures absorbed.Some? && spec.result.None? ==> absorbed == result
      ensures s.Fine? && absorbed.Some? && result.None? ==>
                env.failedPhase == Later(old(env.failedPhase),
                                         VerdictFor(spec, absorbed.value, PhaseAfter(old(env), absorbed.value)).1)
      ensures !s.Killed? ==> store.lostEvents == old(store.lostEvents)
    {
      if result.None? {
        s, absorbed := FinishWithoutResult(DeadlineNoResult, RECURSION_LIMIT);
        if !s.Internal? {
          ConcludedReason(spec, old(env), env, absorbed, DeadlineNoResult);
        }
        return;
      }
      s, absorbed := AbsorbOrKeep(result.value, RECURSION_LIMIT);
      if !s.Internal? {
        ConcludedReason(spec, old(env), env, absorbed, Unabsorbable);
      }
      if s.IsFailure() {
        return;
      }
      s := NoteDeadline(received);
    }

    /** A collected result after the deadline: a failed run whatever it says. */
    method NoteDeadline(received: bool) returns (s: Step)
      requires Launched() && Settled()
      modifies this`env, store
      ensures Launched() && Settled() && SameVm() && store.envelope == Some(env)
      ensures s.Fine? || s.Killed?
      ensures env == old(env).(reason := Some(DeadlineCancelled(!received, old(env.reason))),
                               retryClass := Later(old(env.retryClass), Some(RetrySame)),
                               failedPhase := Later(old(env.failedPhase), Some(Run)))
      ensures !s.Killed? ==> store.lostEvents == old(store.lostEvents)
    {
      env := env.(reason := Some(DeadlineCancelled(!received, env.reason)),
                  retryClass := Later(env.retryClass, Some(RetrySame))).RecordFailure(Run);
      s := Persist();
    }

    // -- cleanup ---------------------------------------------------------------

    /** `cleanup`: always runs and records its own outcome. The VM stays only
        when asked to; otherwise it is gone only if the server said so. */
    method CleanUp(leaveUp: bool) returns (s: Step)
      requires Inv()
      modifies this`env, server, store
      ensures s.Fine? || s.Killed?
      ensures server.Valid() && store.Valid() && Safe(server, store)
      ensures s.Fine? ==> store.envelope == Some(env) && env.cleanup.Terminal()
      ensures env.workload == old(env.workload) && env.offload == old(env.offload)
      ensures env.supervisor == old(env.supervisor) && env.run == old(env.run) && env.options == old(env.options)
      ensures env.endpoint == old(env.endpoint)
      ensures old(env.failedPhase).Some? ==> env.failedPhase == old(env.failedPhase)
      ensures env.reason == old(env.reason) || (old(env.reason).None? && env.reason == Some(SurvivorsKept))
      ensures old(env.retryClass).Some? ==> env.retryClass == old(env.retryClass)
      ensures s.Fine? ==> (env.cleanup.LeftUp? <==> leaveUp && env.endpoint.Some? && env.run.survivors == [])
      ensures s.Fine? && env.cleanup.Failed? ==> env.failedPhase.Some?
      ensures s.Fine? && env.endpoint.None? ==> env.cleanup.AlreadyAbsent?
      ensures s.Fine? && env.endpoint.Some? && !leaveUp ==>
                ReleaseAttempt(old(server.calls), server.calls, env.endpoint.value, env.cleanup)
      ensures leaveUp || env.endpoint.None? ==> server.calls == old(server.calls)
      ensures s.Fine? ==> store.lostEvents == old(store.lostEvents)
    {
      s := SetPhase(Teardown);
      if s.IsFailure() {
        return;
      }
      if env.endpoint.None? {
        env := env.(cleanup := Cleanup.AlreadyAbsent);
      } else if leaveUp {
        env := RecordVmKept(env);
      } else {
        s := ReleaseHeld();
        if s.IsFailure() {
          return;
        }
      }
      s := store.WriteEnvelope(env);
    }

    /** Copy the VM's records, then unassign; the process can end on either
        side of the call. */
    method ReleaseHeld() returns (s: Step)
      requires Inv() && Safe(server, store) && env.endpoint.Some?
      modifies this`env, server
      ensures s.Fine? || s.Killed?
      ensures server.Valid() && Safe(server, store)
      ensures s.Fine? ==> Live(server, store) <= env.Held() && (env.cleanup.Gone() ==> Live(server, store) == {})
      ensures env == old(env).(cleanup := env.cleanup, failedPhase := env.failedPhase)
      ensures s.Fine? ==>
                env.failedPhase == Later(old(env.failedPhase), if env.cleanup.Failed? then Some(Teardown) else None)
      ensures old(env.failedPhase).Some? ==> env.failedPhase == old(env.failedPhase)
      ensures s.Fine? ==> env.cleanup.Gone() || env.cleanup.Failed?
      ensures s.Fine? ==> ReleaseAttempt(old(server.calls), server.calls, env.endpoint.value, env.cleanup)
    {
      s := Tick();
      if !s.Fine? {
        return Killed;
      }
      var outcome := ReleaseAssignment(server, env.endpoint.value);
      env := env.(cleanup := outcome);
      if outcome.Failed? {
        env := env.RecordFailure(Teardown);
      }
      s := Tick();
      if !s.Fine? {
        return Killed;
      }
    }
  }

  /** `run_deadline_seconds`: the budget plus the margin for the runner's own
      escalation, offload and result write. */
  function RunDeadline(spec: JobSpec): nat {
    spec.wallClock + RUN_DEADLINE_MARGIN
  }

  /** The reason recorded when the runner's files say no result will come. */
  function WhyNoResult(look: Look): Reason
    requires !look.Unsettled() && !look.LookResult?
  {
    match look
    case LookLost => AssignmentLost
    case LookDead => RunnerDead
    case LookNeverLaunched => NeverStarted
  }

  /** Nothing about the runner's silence has been recorded yet. */
  predicate TellsNothing(reason: Option<Reason>) {
    !BlamesRunner(reason) && reason != Some(AssignmentLost)
  }

  /** A read of result.json that did not tell the truth. */
  ghost predicate DishonestRead(vm: Vm, i: int)
    reads vm
  {
    0 <= i < |vm.log| && vm.log[i].file.ResultFile? && !vm.runner.Honest(vm.log[i])
  }

  /** From read `i`, which found no launch.json, to a read at least 90 s later:
      the runner had not written it by read `i`, or every poll since made a
      dishonest read. */
  ghost predicate AbsentFrom(vm: Vm, i: int)
    reads vm
  {
    && 0 <= i < |vm.log| - 2 && vm.log[i].file.LaunchFile? && vm.log[i].status.NotFound?
    && vm.log[|vm.log| - 2].at >= vm.log[i].at + LAUNCH_ABSENCE_CONFIRM
    && (vm.runner.Exists(LaunchFile, vm.log[i].at) ==>
          forall p | vm.log[i].poll <= p <= vm.polls :: DishonestPoll(vm.runner, vm.log, i, p))
  }

  /** A recorded reason that blames the runner for a file it did write rests
      on reads that did not tell the truth. */
  ghost predicate BlameIsHonest(reason: Option<Reason>, vm: Vm)
    reads vm
  {
    && (reason == Some(RunnerDead) && vm.runner.resultAt.Some? ==> exists i :: DishonestRead(vm, i))
    && (reason == Some(NeverStarted) ==> exists i :: AbsentFrom(vm, i))
  }

  /** A reason that speaks of the runner's silence is that of the look. */
  predicate TiedTo(reason: Option<Reason>, look: Look) {
    && (reason == Some(AssignmentLost) ==> look.LookLost?)
    && (reason == Some(RunnerDead) ==> look.LookDead?)
    && (reason == Some(NeverStarted) ==> look.LookNeverLaunched?)
  }

  /** A verdict that names no failed phase: a success, or a cancel other than
      by the runner's own wall clock, with nothing wrong in the offload. */
  lemma FetchedVerdictPassesIff(spec: JobSpec, r: RunnerResult, phase: Phase)
    requires Absorbable(r)
    ensures
      VerdictFor(spec, r, phase).1.None? <==>
      && (r.workload == Some(Workload.Succeeded)
          || (r.workload == Some(Workload.Cancelled) && r.cancelledBy != Some(WallClock)))
      && (spec.artifacts == []
          || (!r.offloadError && !RequiredMissing(spec.artifacts, r.run.artifacts)
              && !SomeUploadFailed(r.run.artifacts) && !r.offloadFailed))
  {
    OffloadOkIff(spec.artifacts, r.run.artifacts, r.offloadFailed, r.offloadError);
  }

  /** Such a run past its deadline: a control.result that says succeeded,
      fetched for a job launched without an earlier failure. */
  lemma DeadlineCanEndOk(spec: JobSpec, e: JobEnvelope, now: nat)
    requires spec.artifacts == [] && e.failedPhase.None?
    ensures
      var r := RunnerResult(Provenance(One, "", ""), KnownPhase(Run), Some(Workload.Succeeded),
                            RunRecord(Some(0), None, None, [], [], []), None, false, false, None, [], true, true);
      && Absorbable(r) && TerminalResult(r)
      && var past := Absorbed(e, spec, r, now);
         past.failedPhase.None? && past.workload == Workload.Succeeded && past.offload == Offload.NotRequired
  {
  }

  /** The classes of failed attempts, in order. */
  function RetryClasses(attempts: seq<ProvisionAttempt>): seq<RetryClass> {
    if attempts == [] then []
    else (if attempts[0].retryClass.Some? then [attempts[0].retryClass.value] else []) + RetryClasses(attempts[1..])
  }
}
