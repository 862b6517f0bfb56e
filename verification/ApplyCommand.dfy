/** `job apply`: the try, except and finally structure around one attempt
    (src/colab_cli/commands/job.py). */
module ApplyCommand {
  import opened Options
  import opened JobModels
  import opened Absorb
  import opened World
  import opened RunnerWatching
  import opened Orchestration

  /** Refused before anything happened, ended by the death of the process, or
      run to its end; `handedOff` when a signal left a launched run behind,
      `raised` when `--debug` let an unexpected exception through. */
  datatype Exit = Refused | Died | Left(handedOff: bool, raised: bool)

  /** The body of apply's try: provision to verdict. Nothing between launch
      and the verdict is sure not to raise, the transport included. */
  method Drive(orch: Orchestrator, timeout: Option<nat>) returns (s: Step, handoff: bool)
    requires orch.Unprovisioned() && !orch.secretPrepared
    requires orch.Watching() && orch.watch.launchAbsentSince.None?
    requires orch.env.supervisor == Supervisor.Running && orch.env.reason.None?
    modifies orch`env, orch`hasSession, orch`secretPrepared, orch.server, orch.store, orch.vm, orch.watch
    ensures orch.Inv() && orch.env.options == old(orch.env.options)
    ensures s.Killed? ==> Safe(orch.server, orch.store)
    ensures s.Fine? ==> orch.Settled()
    ensures !s.Killed? && orch.env.workload.Terminal() ==> orch.Settled()
    ensures orch.env.workload == Workload.Pending ==> orch.env.supervisor == Supervisor.Running
    ensures orch.ReasonBacked()
    ensures orch.env.workload != Workload.Pending ==> orch.Launched()
    ensures orch.secretPrepared ==> Safe(orch.server, orch.store)
    ensures handoff ==> orch.env.workload != Workload.Pending
    ensures !s.Killed? ==> orch.store.lostEvents == old(orch.store.lostEvents)
  {
    handoff := false;
    var applied := orch.vm.now;
    s := orch.Provision();
    if s.IsFailure() {
      return;
    }
    s := Prepare(orch);
    if s.IsFailure() {
      return;
    }
    s, handoff := orch.Launch();
    if s.IsFailure() {
      handoff := false;
      return;
    }
    s := Supervise(orch, applied, timeout);
  }

  /** From launch to the verdict: poll up to the deadline, then cancel. A
      signal or an exception can end it at any of its steps. */
  method Supervise(orch: Orchestrator, applied: nat, timeout: Option<nat>) returns (s: Step)
    requires orch.Launched() && orch.Watching() && TellsNothing(orch.env.reason) && !orch.env.workload.Terminal()
    modifies orch`env, orch.server, orch.store, orch.vm, orch.watch
    ensures orch.Launched() && orch.env.options == old(orch.env.options)
    ensures !s.PhaseError?
    ensures s.Fine? || (!s.Killed? && orch.env.workload.Terminal()) ==> orch.Settled()
    ensures orch.ReasonBacked()
    ensures !s.Killed? ==> orch.store.lostEvents == old(orch.store.lostEvents)
  {
    s := Tick();
    if s.IsFailure() {
      return;
    }
    var deadline := if timeout.Some? then applied + timeout.value else orch.vm.now + RunDeadline(orch.spec);
    var end;
    s, end := orch.Poll(deadline);
    if s.IsFailure() {
      return;
    }
    if orch.env.supervisor == Supervisor.Interrupted {
      var collected;
      ghost var absorbed;
      s, collected, absorbed := orch.CancelAfterDeadline(if timeout.Some? then ApplyTimeout else ApplyDeadline);
      if s.IsFailure() {
        return;
      }
    }
    s := Tick();
  }

  /** install and restart when there are dependencies, then verify and stage. */
  method Prepare(orch: Orchestrator) returns (s: Step)
    requires orch.Provisioned()
    modifies orch`env, orch`secretPrepared, orch.store
    ensures orch.Provisioned() && orch.env == old(orch.env).(phase := orch.env.phase)
    ensures !s.Killed? ==> orch.store.lostEvents == old(orch.store.lostEvents)
  {
    if orch.spec.deps != [] {
      s := orch.KernelPhase(Install);
      if s.IsFailure() {
        return;
      }
      s := orch.KernelPhase(Restart);
      if s.IsFailure() {
        return;
      }
    }
    s := orch.KernelPhase(Verify);
    if s.IsFailure() {
      return;
    }
    s := orch.StageAndSeal();
  }

  function AfterPhaseError(e: JobEnvelope, spec: JobSpec, now: nat, phase: Phase,
                           retry: Option<RetryClass>): JobEnvelope {
    e.RecordFailure(phase).(finishedAt := Later(e.finishedAt, Some(now)), workload := Workload.Failed,
                            offload := NothingOffloaded(spec), supervisor := Supervisor.Finished,
                            reason := Some(PhaseFailed(phase)), retryClass := retry, phase := phase)
  }

  function AfterSignal(e: JobEnvelope, spec: JobSpec, now: nat, how: Sig): JobEnvelope {
    if e.workload == Workload.Pending then
      e.(workload := Workload.Cancelled, offload := NothingOffloaded(spec), supervisor := Supervisor.Finished,
         finishedAt := Some(now), reason := Some(InterruptedBeforeLaunch(e.phase)), retryClass := Some(RetrySame))
    else
      e.(supervisor := Supervisor.Interrupted, reason := Some(InterruptedAfterLaunch(how)), retryClass := None)
  }

  function AfterInternal(e: JobEnvelope, spec: JobSpec, now: nat): JobEnvelope {
    e.RecordFailure(e.phase).(
      finishedAt := Later(e.finishedAt, Some(now)),
      workload := if e.workload.Terminal() then e.workload
                  else if BeforeRun(e.phase) then Workload.Failed
                  else Workload.Unknown,
      offload := if e.offload.Terminal() then e.offload
                 else if spec.artifacts == [] then Offload.NotRequired
                 else if e.phase == Upload then Offload.Failed
                 else Offload.Skipped,
      supervisor := Supervisor.Finished,
      reason := Some(InternalFailure(e.phase)),
      retryClass := Some(DoNotRetry))
  }

  /** What each way of leaving the try writes into the envelope, an
      exception that `--debug` lets through aside. */
  method Conclude(orch: Orchestrator, s: Step)
    requires orch.Inv() && s.IsFailure() && !s.Killed?
    modifies orch`env
    ensures orch.Inv()
    ensures orch.env.endpoint == old(orch.env.endpoint) && orch.env.options == old(orch.env.options)
    ensures orch.env.run == old(orch.env.run)
    ensures old(orch.env.failedPhase).Some? ==> orch.env.failedPhase == old(orch.env.failedPhase)
    ensures LeftRunning(old(orch.env), s) ==>
              orch.env == old(orch.env).(supervisor := Supervisor.Interrupted, retryClass := None,
                                         reason := Some(InterruptedAfterLaunch(s.how)))
    ensures !LeftRunning(old(orch.env), s) ==> orch.Settled() && orch.env.reason.Some?
    ensures !BlamesRunner(orch.env.reason)
    ensures s.PhaseError? ==>
              && orch.env.workload == Workload.Failed && orch.env.offload == NothingOffloaded(orch.spec)
              && orch.env.reason == Some(PhaseFailed(s.phase)) && orch.env.retryClass == s.retryClass
              && orch.env.phase == s.phase && orch.env.failedPhase.Some?
    ensures s.Signalled? && !LeftRunning(old(orch.env), s) ==> orch.env.workload == Workload.Cancelled
    ensures s.Internal? ==> orch.env.failedPhase.Some? && orch.env.retryClass == Some(DoNotRetry)
    ensures s.Internal? && old(orch.env.workload).Terminal() ==>
              orch.env.workload == old(orch.env.workload) && orch.env.offload == old(orch.env.offload)
  {
    match s {
      case PhaseError(phase, retry) =>
        orch.env := AfterPhaseError(orch.env, orch.spec, orch.vm.now, phase, retry);
      case Signalled(how) =>
        orch.env := AfterSignal(orch.env, orch.spec, orch.vm.now, how);
      case Internal =>
        orch.env := AfterInternal(orch.env, orch.spec, orch.vm.now);
    }
  }

  predicate BeforeRun(phase: Phase) {
    || phase == Plan || phase == Phase.Provision || phase == Install
    || phase == Restart || phase == Verify || phase == Stage
  }

  /** A signal after launch: the runner goes on without this process. */
  predicate LeftRunning(e: JobEnvelope, s: Step) {
    s.Signalled? && e.workload != Workload.Pending
  }

  /** What the record says when apply leaves on its own feet: it is done,
      unless a signal left a launched run behind, or `--debug` let an exception
      through before the verdict. A VM that is neither released nor kept is
      one that a run was left on. */
  ghost predicate LeavesRecord(e: JobEnvelope, spec: JobSpec, handedOff: bool, raised: bool) {
    && (!handedOff && !raised ==> e.Done())
    && (handedOff ==> e.supervisor == Supervisor.Interrupted && e.workload != Workload.Pending && e.endpoint.Some?)
    && (handedOff ==> (e.Done() <==> e.cleanup.Terminal() && e.workload.Terminal()))
    && (raised ==> (e.Done() <==> e.workload.Terminal()))
    && (e.cleanup.Terminal()
        || (e.supervisor == Supervisor.Interrupted && e.workload != Workload.Pending && e.endpoint.Some?))
    && (e.IsOk() ==> e.Done())
    && (e.cleanup.LeftUp? ==> e.run.survivors == [] && (e.options.leaveUp || UploadToRescue(e, Some(spec))))
    && (e.cleanup.Failed? ==> e.failedPhase.Some?)
  }

  /** Apply's finally: the VM goes unless it is to be kept with the credential
      confirmed gone, or the run was handed off with it confirmed gone. */
  method Leave(orch: Orchestrator, handoff: bool, ghost handedOff: bool, ghost raised: bool) returns (s: Step)
    requires orch.Inv() && !(handedOff && raised)
    requires orch.secretPrepared ==> Safe(orch.server, orch.store)
    requires orch.env.supervisor == Supervisor.Interrupted ==>
               orch.env.endpoint.Some? && orch.env.workload != Workload.Pending
    requires handedOff ==> orch.env.supervisor == Supervisor.Interrupted
    requires raised && orch.env.workload.Terminal() ==> orch.Settled()
    requires !handedOff && !raised ==> orch.Settled()
    modifies orch`env, orch`secretPrepared, orch.server, orch.store
    ensures s.Fine? || s.Killed?
    ensures orch.server.Valid() && orch.store.Valid() && Safe(orch.server, orch.store)
    ensures s.Fine? ==> orch.store.envelope == Some(orch.env) && LeavesRecord(orch.env, orch.spec, handedOff, raised)
    ensures BlamesRunner(orch.env.reason) ==> orch.env.reason == old(orch.env.reason)
    ensures s.Fine? ==> orch.store.lostEvents == old(orch.store.lostEvents)
    ensures orch.env.workload == old(orch.env.workload) && orch.env.offload == old(orch.env.offload)
    ensures orch.env.endpoint == old(orch.env.endpoint)
  {
    var removed := true;
    s := Fine;
    if !handoff {
      s, removed := orch.CleanupSecretChannel();
      if s.IsFailure() {
        return;
      }
    }
    var keep := KeepVm(orch.env, Some(orch.spec), removed);
    if !removed {
      orch.env := orch.env.(reason := Later(orch.env.reason, Some(SecretUnconfirmed)),
                            retryClass := Later(orch.env.retryClass, Some(DoNotRetry)));
    }
    if orch.env.supervisor == Supervisor.Interrupted && removed {
      s := orch.Persist();
    } else {
      s := orch.CleanUp(keep);
    }
  }

  /** The except clauses: `--debug` lets an unexpected exception through. */
  method Except(orch: Orchestrator, s: Step, debug: bool) returns (handedOff: bool, raised: bool)
    requires orch.Inv() && !s.Killed? && orch.ReasonBacked()
    requires s.Fine? || orch.env.workload.Terminal() ==> orch.Settled()
    requires orch.env.workload == Workload.Pending ==> orch.env.supervisor == Supervisor.Running
    requires orch.env.workload != Workload.Pending ==> orch.Launched()
    modifies orch`env
    ensures orch.Inv() && BlameIsHonest(orch.env.reason, orch.vm)
    ensures raised <==> debug && s.Internal?
    ensures handedOff <==> LeftRunning(old(orch.env), s)
    ensures handedOff ==> orch.env.supervisor == Supervisor.Interrupted
    ensures raised ==> orch.env == old(orch.env)
    ensures !handedOff && !raised ==> orch.Settled()
    ensures orch.env.supervisor == Supervisor.Interrupted ==>
              orch.env.endpoint.Some? && orch.env.workload != Workload.Pending
  {
    handedOff, raised := LeftRunning(orch.env, s), debug && s.Internal?;
    if s.IsFailure() && !raised {
      Conclude(orch, s);
    }
    orch.BackedIsHonest();
  }

  /** One attempt at the job: the try, its except clauses, and the finally.
      `--debug` lets an unexpected exception through, past the finally. */
  method Attempt(orch: Orchestrator, timeout: Option<nat>, debug: bool) returns (exit: Exit, ghost driven: Step)
    requires orch.Unprovisioned() && !orch.secretPrepared
    requires orch.Watching() && orch.watch.launchAbsentSince.None?
    requires orch.env.supervisor == Supervisor.Running && orch.env.reason.None?
    modifies orch`env, orch`hasSession, orch`secretPrepared, orch.server, orch.store, orch.vm, orch.watch
    ensures orch.server.Valid() && orch.store.Valid() && orch.vm.Valid() && Safe(orch.server, orch.store)
    ensures exit.Died? || exit.Left?
    ensures exit.Left? ==>
              && orch.store.envelope == Some(orch.env)
              && LeavesRecord(orch.env, orch.spec, exit.handedOff, exit.raised)
              && orch.store.lostEvents == old(orch.store.lostEvents)
    ensures exit.Left? ==> (exit.raised <==> debug && driven.Internal?)
    ensures exit.Left? && exit.handedOff ==> driven.Signalled?
    ensures exit.Left? ==> BlameIsHonest(orch.env.reason, orch.vm)
  {
    var s, handoff := Drive(orch, timeout);
    driven := s;
    if s.Killed? {
      exit := Died;
      return;
    }
    var handedOff, raised := Except(orch, s, debug);
    s := Leave(orch, handoff, handedOff, raised);
    exit := if s.Fine? then Left(handedOff, raised) else Died;
  }

  /** `job apply` past its plan checks. Release soundness holds at every exit,
      the death of the process included. On every exit of its own the record
      is done, unless a signal left a launched run behind: then it is done
      only if that run already had its verdict and the VM had to go; or unless
      `--debug` let an exception through: then it is done only if the run
      already had its verdict. A reason that blames the runner is honest. */
  method Apply(server: Server, store: JobStore, vm: Vm, spec: JobSpec, options: ApplyOptions, timeout: Option<nat>,
               debug: bool)
    returns (exit: Exit)
    requires server.Valid() && store.Valid() && vm.Valid() && Safe(server, store)
    modifies server, store, vm
    ensures server.Valid() && store.Valid() && vm.Valid() && Safe(server, store)
    ensures exit.Refused? <==> old(store.envelope).Some? && old(store.envelope).value.endpoint.Some?
    ensures exit.Refused? ==>
              && store.envelope == old(store.envelope) && store.written == old(store.written)
              && server.calls == old(server.calls) && server.assignments == old(server.assignments)
    ensures exit.Left? ==>
              && store.envelope.Some? && LeavesRecord(store.envelope.value, spec, exit.handedOff, exit.raised)
              && BlameIsHonest(store.envelope.value.reason, vm)
    ensures exit.Left? && !debug ==> !exit.raised && (!exit.handedOff ==> store.envelope.value.Done())
    ensures exit.Left? ==>
              |store.outcomes| - |old(store.outcomes)| == DoneEdges(store.written) - DoneEdges(old(store.written))
  {
    if store.envelope.Some? && store.envelope.value.endpoint.Some? {
      return Exit.Refused;
    }
    var orch := new Orchestrator(spec, server, store, vm, options);
    ghost var driven;
    exit, driven := Attempt(orch, timeout, debug);
  }
}
