/** `job status`, and what `job destroy` shares with it: what another process
    does with a job's record and VM (src/colab_cli/commands/job.py). */
module JobCommands {
  import opened Options
  import opened JobModels
  import opened Absorb
  import opened World
  import opened RunnerWatching
  import opened Orchestration

  /** The saved plan: never written, unreadable, or read. */
  datatype SavedPlan = NoPlan | UnreadablePlan | PlanRead(spec: JobSpec)

  function SpecOf(plan: SavedPlan): Option<JobSpec> {
    if plan.PlanRead? then Some(plan.spec) else None
  }

  /** `env` can be written: it points at every VM of the job the server still
      holds, and says gone only when none is left. */
  ghost predicate PointsAt(server: Server, store: JobStore, env: JobEnvelope)
    reads server, store
  {
    && server.Valid() && store.Valid()
    && (forall e | e in store.owned :: e < server.issued)
    && Live(server, store) <= env.Held()
    && (env.cleanup.Gone() ==> Live(server, store) == {})
  }

  /** What no step of a watch changes. */
  predicate SameVm(e: JobEnvelope, e': JobEnvelope) {
    && e'.endpoint == e.endpoint && e'.session == e.session && e'.cleanup == e.cleanup
    && e'.options == e.options && e'.startedAt == e.startedAt
    && (e.failedPhase.Some? ==> e'.failedPhase == e.failedPhase)
  }

  /** A result absorbed without a plan: who wrote it and how the workload
      ended; offload, artifacts and survivors are not touched. */
  function WithoutPlan(env: JobEnvelope, r: RunnerResult): JobEnvelope
    requires r.workload.Some?
  {
    env.(provenance := if r.provenance.schema.Two? then r.provenance else env.provenance,
         workload := r.workload.value,
         run := RunRecord(r.run.exitCode, r.run.signal, r.run.exception,
                          env.run.survivors, env.run.inputs, env.run.artifacts))
  }

  /** What a result must meet to be absorbed: whole with a plan, and how the
      workload ended without one. */
  predicate Usable(plan: SavedPlan, r: RunnerResult) {
    match plan
    case NoPlan => Readable(r)
    case UnreadablePlan => false
    case PlanRead(_) => Absorbable(r)
  }

  /** `_absorb_remote_result`: with the saved plan the whole verdict; without
      one only the workload and its record. */
  method AbsorbRemote(env: JobEnvelope, plan: SavedPlan, r: RunnerResult, now: nat)
    returns (absorbed: bool, env': JobEnvelope)
    ensures absorbed <==> Usable(plan, r)
    ensures !absorbed ==> env' == env
    ensures absorbed ==> SameVm(env, env') && env'.workload == r.workload.value && env'.supervisor == env.supervisor
    ensures absorbed && plan.PlanRead? ==> env' == Absorbed(env, plan.spec, r, now) && env'.offload.Terminal()
    ensures absorbed && plan.NoPlan? ==> env' == WithoutPlan(env, r)
  {
    match plan {
      case UnreadablePlan =>
        return false, env;
      case PlanRead(spec) =>
        absorbed, env' := AbsorbResult(env, spec, r, now);
        if absorbed {
          AbsorbFrame(env, spec, r, now);
        }
      case NoPlan =>
        absorbed, env' := AbsorbProvenance(env, r);
        if !absorbed || r.workload.None? || !r.endTyped {
          return false, env;
        }
        env' := env'.(workload := r.workload.value,
                      run := env.run.(exitCode := r.run.exitCode, signal := r.run.signal,
                                      exception := r.run.exception));
    }
  }

  /** `_recover_off_vm_result`: a terminal result from control.result. */
  method RecoverOffVm(env: JobEnvelope, plan: SavedPlan, now: nat) returns (recovered: bool, env': JobEnvelope)
    ensures !recovered ==> env' == env
    ensures recovered ==> plan.PlanRead? && SameVm(env, env') && env'.workload.Terminal() && env'.offload.Terminal()
  {
    if !plan.PlanRead? || plan.spec.result.None? {
      return false, env;
    }
    var fetched := FetchControlResult();
    if fetched.None? || !TerminalResult(fetched.value) {
      return false, env;
    }
    recovered, env' := AbsorbRemote(env, plan, fetched.value, now);
  }

  /** `_release`. */
  method Release(server: Server, env: JobEnvelope) returns (env': JobEnvelope)
    requires server.Valid()
    modifies server
    ensures server.Valid() && server.issued == old(server.issued) && server.assignments <= old(server.assignments)
    ensures env' == env.(cleanup := env'.cleanup, failedPhase := env'.failedPhase)
    ensures env'.cleanup.Gone() || env'.cleanup.Failed?
    ensures env'.failedPhase == Later(env.failedPhase, if env'.cleanup.Failed? then Some(Teardown) else None)
    ensures env.endpoint.None? ==> env'.cleanup.AlreadyAbsent? && server.calls == old(server.calls)
    ensures env.endpoint.Some? ==> ReleaseAttempt(old(server.calls), server.calls, env.endpoint.value, env'.cleanup)
    ensures env.endpoint.Some? && env'.cleanup.Gone() ==> env.endpoint.value !in server.assignments
  {
    if env.endpoint.None? {
      return env.(cleanup := Cleanup.AlreadyAbsent);
    }
    var outcome := ReleaseAssignment(server, env.endpoint.value);
    env' := env.(cleanup := outcome);
    if outcome.Failed? {
      env' := env'.RecordFailure(Teardown);
    }
  }

  // -- status ------------------------------------------------------------------

  /** `_release_orphaned_job`: keep the VM when it is to be kept, else release
      it. The job ends done unless it is kept with its offload still open. */
  method ReleaseOrphan(server: Server, store: JobStore, env: JobEnvelope, plan: SavedPlan)
    returns (s: Step, env': JobEnvelope, kept: bool)
    requires PointsAt(server, store, env) && Safe(server, store) && env.workload.Terminal() && store.envelope.Some?
    modifies server, store
    ensures s.Fine? || s.Killed?
    ensures server.Valid() && store.Valid() && Safe(server, store)
    ensures store.owned == old(store.owned) && store.envelope.Some?
    ensures s.Fine? ==> store.envelope == Some(env') && PointsAt(server, store, env')
    ensures kept == KeepVm(env, SpecOf(plan), true)
    ensures env'.workload == env.workload && env'.run == env.run
    ensures env'.endpoint == env.endpoint && env'.options == env.options
    ensures s.Fine? ==> env'.offload == (if kept || env.offload.Terminal() then env.offload else Offload.Skipped)
    ensures s.Fine? ==> (env'.Done() <==> env'.offload.Terminal())
    ensures s.Fine? && kept ==> server.calls == old(server.calls) && (env'.cleanup.LeftUp? <==> env.run.survivors == [])
    ensures s.Fine? && !kept && env.endpoint.Some? ==>
              ReleaseAttempt(old(server.calls), server.calls, env.endpoint.value, env'.cleanup)
  {
    kept := KeepVm(env, SpecOf(plan), true);
    env' := env;
    if kept {
      env' := RecordVmKept(env);
      env' := env'.(supervisor := Supervisor.Finished);
      s := store.WriteEnvelope(env');
      return;
    }
    s := Tick();
    if !s.Fine? {
      s := Killed;
      return;
    }
    env' := Release(server, env);
    env' := env'.(supervisor := Supervisor.Finished,
                  offload := if env.offload.Terminal() then env.offload else Offload.Skipped);
    s := store.WriteEnvelope(env');
  }

  /** `_force_release_unconfirmed_secret`: the VM goes because the credential
      may still be on it. Offload is left as it was. */
  method ForceRelease(server: Server, store: JobStore, env: JobEnvelope) returns (s: Step, env': JobEnvelope)
    requires PointsAt(server, store, env) && Safe(server, store) && store.envelope.Some?
    modifies server, store
    ensures s.Fine? || s.Killed?
    ensures server.Valid() && store.Valid() && Safe(server, store)
    ensures store.owned == old(store.owned) && store.envelope.Some?
    ensures s.Fine? ==> store.envelope == Some(env') && PointsAt(server, store, env')
    ensures s.Fine? ==> env'.workload.Terminal() && (env'.Done() <==> env.offload.Terminal())
    ensures env'.offload == env.offload && env'.endpoint == env.endpoint
    ensures env.workload.Terminal() ==> env'.workload == env.workload && env'.reason == env.reason
    ensures s.Fine? && env.endpoint.Some? ==>
              ReleaseAttempt(old(server.calls), server.calls, env.endpoint.value, env'.cleanup)
  {
    env' := env;
    s := Tick();
    if !s.Fine? {
      s := Killed;
      return;
    }
    env' := Release(server, env);
    if !env'.workload.Terminal() {
      env' := env'.(workload := Workload.Unknown, reason := Some(ForcedTeardown), retryClass := Some(DoNotRetry))
                  .RecordFailure(Teardown);
    }
    env' := env'.(supervisor := Supervisor.Finished);
    s := store.WriteEnvelope(env');
  }

  /** `_cancel_orphan_after_deadline`: cancel, wait for the result, and end
      the run; only a result this CLI cannot read leaves it open. */
  method CancelOrphan(vm: Vm, env: JobEnvelope, plan: SavedPlan) returns (env': JobEnvelope, unread: bool)
    requires vm.Valid()
    modifies vm
    ensures vm.Valid() && vm.now >= old(vm.now) && vm.polls <= old(vm.polls) + 60
    ensures SameVm(env, env') && env'.supervisor == Supervisor.Finished
    ensures env'.failedPhase.Some? && env'.retryClass.Some?
    ensures unread ==> !Usable(plan, vm.result) && env'.workload == env.workload
    ensures !unread ==> env'.workload.Terminal()
    ensures env.offload.Terminal() || unread || plan.NoPlan? || env'.offload.Terminal()
  {
    unread := false;
    var confirmed: bool := *;
    var result := AwaitRunnerResult(vm, RUNNER_STOP_WAIT);
    if result.None? {
      env' := env.(workload := Workload.Unknown,
                   offload := if env.offload.Terminal() then env.offload else Offload.Skipped,
                   reason := Some(DeadlineNoResult));
    } else {
      var absorbed;
      absorbed, env' := AbsorbRemote(env, plan, result.value, vm.now);
      unread := !absorbed;
      var received := result.value.cancelledBy == Some(StatusPoll);
      env' := env'.(reason := Some(DeadlineCancelled(!(received && confirmed), env'.reason)));
    }
    env' := env'.(retryClass := Later(env'.retryClass, Some(RetrySame)), supervisor := Supervisor.Finished,
                  finishedAt := Later(env'.finishedAt, Some(vm.now))).RecordFailure(Run);
  }

  /** One look of the status loop at a run without a verdict; `settled` when
      the loop ends with it. */
  method StatusLook(vm: Vm, env: JobEnvelope, plan: SavedPlan, orphaned: bool)
    returns (env': JobEnvelope, settled: bool)
    requires vm.Valid() && !env.workload.Terminal()
    modifies vm
    ensures vm.Valid() && vm.now >= old(vm.now) && vm.polls == old(vm.polls) + 1
    ensures SameVm(env, env')
    ensures settled <==> env'.workload.Terminal()
    ensures settled && orphaned ==> env'.supervisor == Supervisor.Finished
    ensures !settled ==> env'.workload == env.workload && env'.offload == env.offload && env'.run == env.run
  {
    vm.BeginPoll();
    var seen := ObserveRemote(vm);
    env', settled := env, true;
    if seen.SawResult? {
      var absorbed;
      absorbed, env' := AbsorbRemote(env, plan, vm.result, vm.now);
      if !absorbed {
        env' := env'.(workload := Workload.Unknown, reason := Some(Unabsorbable), retryClass := Some(DoNotRetry),
                      offload := if env.offload.Terminal() then env.offload else Offload.Skipped).RecordFailure(Run);
      }
      env' := env'.(supervisor := if orphaned then Supervisor.Finished else env'.supervisor);
      return;
    }
    if seen.SawSessionLost? || seen.SawRunnerDead? || (seen.SawNeverStarted? && orphaned) {
      var recovered;
      recovered, env' := RecoverOffVm(env, plan, vm.now);
      if !recovered {
        env' := env.(workload := Workload.Unknown, retryClass := Some(RetrySame),
                     reason := Some(if seen.SawSessionLost? then AssignmentLost
                                    else if seen.SawRunnerDead? then RunnerDead
                                    else NeverStarted)).RecordFailure(Run);
      }
      env' := env'.(supervisor := Supervisor.Finished);
      return;
    }
    settled := false;
    if seen.SawDegraded? {
      env' := env.(supervisor := Supervisor.Degraded, reason := Some(TransportFailing));
    } else if seen.SawLaunchInvalid? {
      env' := env.(reason := Some(LaunchInvalid));
    } else if seen.SawRunnerAlive? && seen.stamped {
      var stalled: bool := *;
      env' := if stalled then env.(reason := Some(WatchdogStalled)) else env;
    }
  }

  /** `_status_poll_deadline`. */
  function PollDeadline(env: JobEnvelope, plan: SavedPlan): Option<nat> {
    if env.startedAt.Some? && plan.PlanRead? then Some(env.startedAt.value + RunDeadline(plan.spec)) else None
  }

  /** `Stopped`: the process ended within the loop, its record unwritten. */
  datatype WatchEnd = VerdictReached | CancelUnread | StillRunning | Stopped

  /** The loop waits between looks and has a deadline to wait for. */
  predicate Bounded(env: JobEnvelope, plan: SavedPlan, orphaned: bool, interval: int) {
    orphaned && PollDeadline(env, plan).Some? && interval > 0
  }

  /** The status loop. With a deadline and an interval of a second or more
      `--poll` ends: after at most one look a second up to the deadline and 60
      looks after the cancel. Otherwise it lasts as long as whoever runs it is
      patient; a negative interval raises at the first wait. */
  method WatchRun(vm: Vm, env: JobEnvelope, plan: SavedPlan, orphaned: bool, poll: bool, interval: int, patience: nat)
    returns (env': JobEnvelope, end: WatchEnd)
    requires vm.Valid() && !env.workload.Terminal()
    modifies vm
    ensures vm.Valid() && SameVm(env, env')
    ensures end.VerdictReached? <==> env'.workload.Terminal()
    ensures end.VerdictReached? && orphaned ==> env'.supervisor == Supervisor.Finished
    ensures end.CancelUnread? ==> orphaned && poll && PollDeadline(env, plan).Some? && !Absorbable(vm.result)
    ensures end.StillRunning? ==> !poll
    ensures end.Stopped? ==> poll && !Bounded(env, plan, orphaned, interval)
    ensures interval < 0 ==> vm.polls <= old(vm.polls) + 60
    ensures poll && Bounded(env, plan, orphaned, interval) ==>
              vm.polls - old(vm.polls) <= 60 + (if PollDeadline(env, plan).value >= old(vm.now)
                                                then PollDeadline(env, plan).value + 1 - old(vm.now) else 0)
  {
    env' := env;
    var deadline := if orphaned then PollDeadline(env, plan) else None;
    var left, looks := patience, 0;
    var timed := deadline.Some? && interval > 0;
    while true
      invariant vm.Valid() && SameVm(env, env') && !env'.workload.Terminal()
      invariant vm.now >= old(vm.now) && vm.polls == old(vm.polls) + looks
      invariant interval > 0 ==> vm.now >= old(vm.now) + looks
      invariant timed && looks > 0 ==> looks <= deadline.value + 1 - old(vm.now)
      invariant (interval < 0 ==> looks == 0) && left >= 0
      decreases if !timed then left else if vm.now <= deadline.value then deadline.value + 1 - vm.now else 0
    {
      if poll && deadline.Some? && vm.now > deadline.value {
        var unread;
        env', unread := CancelOrphan(vm, env', plan);
        return env', if unread then CancelUnread else VerdictReached;
      }
      var settled;
      env', settled := StatusLook(vm, env', plan, orphaned);
      if settled {
        return env', VerdictReached;
      }
      if !poll {
        return env', StillRunning;
      }
      if interval < 0 || (!timed && left == 0) {
        return env', Stopped;
      }
      left := if left > 0 then left - 1 else 0;
      looks := looks + 1;
      vm.Pass(interval);
    }
  }

  // -- status ------------------------------------------------------------------

  /** How a status ended; `unread` when the run was cancelled past its
      deadline and left a result this CLI cannot read. */
  datatype StatusEnd = NoRecord | StatusDied | Forced | Settled(kept: bool) | Open(unread: bool) | NotConsulted

  /** `status` with the VM in reach and the credential off it: watch a run
      without a verdict, then end an orphaned one that has it. */
  method Consult(server: Server, store: JobStore, vm: Vm, env: JobEnvelope, plan: SavedPlan, orphaned: bool,
                 poll: bool, interval: int, patience: nat)
    returns (s: Step, env': JobEnvelope, end: StatusEnd)
    requires PointsAt(server, store, env) && Safe(server, store) && store.envelope.Some?
    requires vm.Valid()
    modifies server, store, vm
    ensures s.Fine? || s.Killed?
    ensures server.Valid() && store.Valid() && vm.Valid() && Safe(server, store) && store.envelope.Some?
    ensures s.Fine? ==> end.Settled? || end.Open?
    ensures s.Fine? ==> store.envelope == Some(env') && PointsAt(server, store, env')
    ensures s.Fine? && end.Settled? ==>
              && orphaned && env'.workload.Terminal()
              && (end.kept ==> env'.options.leaveUp || UploadToRescue(env', SpecOf(plan)))
              && (!end.kept ==> env'.offload.Terminal()) && (env'.Done() <==> env'.offload.Terminal())
    ensures s.Fine? && end.Open? ==> server.calls == old(server.calls) && SameVm(env, env')
    ensures s.Fine? && orphaned && env'.workload.Terminal() ==> end.Settled?
    ensures s.Fine? && orphaned && poll && PollDeadline(env, plan).Some? && !env.workload.Terminal() ==>
              end.Settled? || (end.unread && !Absorbable(vm.result))
  {
    env' := env;
    var unread := false;
    if !env.workload.Terminal() {
      var watched;
      env', watched := WatchRun(vm, env, plan, orphaned, poll, interval, patience);
      s := Tick();
      if !s.Fine? || watched.Stopped? {
        s, end := Killed, NotConsulted;
        return;
      }
      unread := watched.CancelUnread?;
    }
    if orphaned && env'.workload.Terminal() {
      var kept;
      s, env', kept := ReleaseOrphan(server, store, env', plan);
      end := Settled(kept);
    } else {
      s := store.WriteEnvelope(env');
      end := Open(unread);
    }
  }

  /** A supervisor that is not alive makes the job orphaned: its record says
      running only until status corrects it. */
  function Disowned(env: JobEnvelope, alive: bool): (e: JobEnvelope)
    ensures !alive ==> !e.supervisor.Running?
    ensures alive || !env.supervisor.Running? ==> e == env
    ensures e == env.(supervisor := e.supervisor, reason := e.reason)
  {
    if env.supervisor.Running? && !alive
    then env.(supervisor := Supervisor.Interrupted, reason := Some(SupervisorGone))
    else env
  }

  predicate Orphaned(env: JobEnvelope, alive: bool) {
    !alive && !Disowned(env, alive).supervisor.Running?
  }

  /** Orphaned means no more and no less than that no supervisor lives,
      whatever the record says. */
  lemma OrphanedIffNotAlive(env: JobEnvelope, alive: bool)
    ensures Orphaned(env, alive) <==> !alive
  {
  }

  predicate CleanupPending(env: JobEnvelope) {
    !env.cleanup.Gone() && !env.cleanup.LeftUp?
  }

  /** `job status`. Release soundness holds however it ends. An orphaned job
      past launch whose credential is off the VM is brought to its end by
      `--poll`, unless its result is one this CLI cannot read; brought to its
      end it is done, unless the VM is kept with the offload still open. A
      forced release ends done exactly when the offload was closed. */
  method Status(server: Server, store: JobStore, vm: Vm, plan: SavedPlan, alive: bool, sessionKnown: bool,
                poll: bool, interval: int, patience: nat)
    returns (end: StatusEnd)
    requires server.Valid() && store.Valid() && vm.Valid() && Safe(server, store)
    modifies server, store, vm
    ensures server.Valid() && store.Valid() && vm.Valid() && Safe(server, store)
    ensures end.NoRecord? <==> old(store.envelope).None?
    ensures !end.NoRecord? ==> store.envelope.Some?
    ensures end.Forced? ==>
              && store.envelope.value.workload.Terminal()
              && (store.envelope.value.Done() <==> store.envelope.value.offload.Terminal())
    ensures end.Settled? ==>
              && !alive && store.envelope.value.workload.Terminal()
              && (store.envelope.value.Done() <==> store.envelope.value.offload.Terminal())
              && (!end.kept ==> store.envelope.value.Done())
              && (end.kept ==>
                    store.envelope.value.options.leaveUp || UploadToRescue(store.envelope.value, SpecOf(plan)))
    ensures end.NotConsulted? || end.Open? ==> server.calls == old(server.calls)
    ensures
      old(store.envelope).Some? && !alive && old(store.envelope).value.session && sessionKnown && poll
      && CleanupPending(old(store.envelope).value) && !old(store.envelope).value.workload.Terminal()
      && PollDeadline(old(store.envelope).value, plan).Some? ==>
        end.Settled? || end.Forced? || end.StatusDied? || (end == Open(true) && !Absorbable(vm.result))
  {
    if store.envelope.None? {
      return NoRecord;
    }
    var env := Disowned(store.envelope.value, alive);
    var orphaned := Orphaned(store.envelope.value, alive);
    var mustScrub := orphaned || env.cleanup.Failed?;
    if env.session && CleanupPending(env) {
      var scrubbed: bool := *;
      if mustScrub && !(sessionKnown && scrubbed) {
        end := ForceStatus(server, store, vm, env, plan);
        return;
      }
      if sessionKnown {
        var s;
        s, env, end := Consult(server, store, vm, env, plan, orphaned, poll, interval, patience);
        if !s.Fine? {
          return StatusDied;
        }
        if end.Settled? {
          return;
        }
      } else {
        end := NotConsulted;
      }
    } else {
      end := NotConsulted;
    }
    var s := store.WriteEnvelope(env);
    if !s.Fine? {
      end := StatusDied;
    }
  }

  /** The credential may still be on the VM: a last look at control.result,
      then the VM goes. */
  method ForceStatus(server: Server, store: JobStore, vm: Vm, env: JobEnvelope, plan: SavedPlan)
    returns (end: StatusEnd)
    requires PointsAt(server, store, env) && Safe(server, store) && store.envelope.Some? && CleanupPending(env)
    modifies server, store
    ensures server.Valid() && store.Valid() && Safe(server, store) && store.envelope.Some?
    ensures end.Forced? || end.StatusDied?
    ensures end.Forced? ==>
              && store.envelope.value.workload.Terminal()
              && (store.envelope.value.Done() <==> store.envelope.value.offload.Terminal())
  {
    var _, recovered := RecoverOffVm(env, plan, vm.now);
    var s, forced := ForceRelease(server, store, recovered);
    end := if s.Fine? then Forced else StatusDied;
  }
}
