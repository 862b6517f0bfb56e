/** `job destroy`: unconditional teardown (src/colab_cli/commands/job.py). */
module DestroyCommand {
  import opened Options
  import opened JobModels
  import opened Absorb
  import opened World
  import opened RunnerWatching
  import opened Orchestration
  import opened JobCommands

  /** How a destroy ended. `Ended` ran to its end: with the VM released, or
      kept by `--cancel-only`; `failed` is its exit status. `LeftToApply` is the
      success of a live apply that released the VM itself. */
  datatype DestroyEnd = NoSuchJob | PlanUnreadable | DestroyDied | LeftToApply | Ended(released: bool, failed: bool)

  /** The VM's own result, then control.result: the verdict destroy can still
      save before the VM goes. */
  method Reconcile(vm: Vm, env: JobEnvelope, plan: SavedPlan, reachable: bool) returns (env': JobEnvelope)
    requires vm.Valid()
    modifies vm
    ensures vm.Valid() && SameVm(env, env')
    ensures env'.workload != env.workload ==> env'.supervisor == Supervisor.Finished
    ensures env.workload.Terminal() ==> env'.workload.Terminal()
    ensures env'.offload == env.offload || env'.offload.Terminal()
    ensures plan.PlanRead? && !env.workload.Terminal() && env'.workload.Terminal() ==> env'.offload.Terminal()
  {
    env' := env;
    if reachable {
      var status, _ := vm.ReadJson(ResultFile);
      if status.Ok? {
        var absorbed;
        absorbed, env' := AbsorbRemote(env, plan, vm.result, vm.now);
        if absorbed {
          env' := env'.(supervisor := Supervisor.Finished);
        }
      }
    }
    if !env'.workload.Terminal() {
      var recovered;
      recovered, env' := RecoverOffVm(env', plan, vm.now);
      if recovered {
        env' := env'.(supervisor := Supervisor.Finished);
      }
    }
  }

  /** The last steps of every teardown: release, settle what has no verdict
      with `closing`, and write. */
  method Finish(server: Server, store: JobStore, env: JobEnvelope, closing: JobEnvelope)
    returns (s: Step, env': JobEnvelope)
    requires PointsAt(server, store, env) && Safe(server, store) && store.envelope.Some?
    requires closing == env.(workload := closing.workload, offload := closing.offload, reason := closing.reason,
                             retryClass := closing.retryClass, failedPhase := closing.failedPhase)
    requires closing.workload.Terminal()
    modifies server, store
    ensures s.Fine? || s.Killed?
    ensures server.Valid() && store.Valid() && Safe(server, store) && store.envelope.Some?
    ensures s.Fine? ==>
              && store.envelope == Some(env')
              && env'.workload == closing.workload && env'.offload == closing.offload
              && env'.supervisor == Supervisor.Finished && (env'.cleanup.Gone() || env'.cleanup.Failed?)
              && (env'.Done() <==> closing.offload.Terminal())
    ensures s.Fine? && env.endpoint.Some? ==>
              ReleaseAttempt(old(server.calls), server.calls, env.endpoint.value, env'.cleanup)
  {
    env' := closing;
    s := Tick();
    if !s.Fine? {
      s := Killed;
      return;
    }
    env' := Release(server, closing);
    env' := env'.(supervisor := Supervisor.Finished);
    s := store.WriteEnvelope(env');
  }

  /** A job whose VM is destroyed without a verdict: unknown, and nothing
      more was offloaded. */
  function WithoutVerdict(env: JobEnvelope, plan: SavedPlan, confirmed: bool): (e: JobEnvelope)
    ensures e.workload.Terminal()
    ensures env.workload.Terminal() ==> e == env
    ensures !env.workload.Terminal() ==> e.offload.Terminal()
    ensures e.offload == env.offload || !env.offload.Terminal()
  {
    if env.workload.Terminal() then env
    else
      env.(workload := Workload.Unknown,
           offload := if env.offload.Terminal() then env.offload
                      else if plan.PlanRead? then NothingOffloaded(plan.spec)
                      else Offload.NotRequired,
           reason := Some(Destroyed(confirmed)),
           retryClass := Some(DoNotRetry))
  }

  /** `--cancel-only` with the credential not confirmed gone: the VM goes
      after all, whatever was asked for; offload is left as it was. */
  function Overridden(env: JobEnvelope): (e: JobEnvelope)
    ensures e.workload.Terminal()
    ensures env.workload.Terminal() ==> e == env
    ensures !env.workload.Terminal() ==> e.failedPhase.Some?
    ensures e.offload == env.offload
  {
    if env.workload.Terminal() then env
    else
      env.(workload := Workload.Unknown, reason := Some(ForcedTeardown), retryClass := Some(DoNotRetry))
         .RecordFailure(Teardown)
  }

  /** With nobody supervising the run, destroy waits for the runner to stop
      and absorbs its result. */
  method AwaitStop(vm: Vm, env: JobEnvelope, plan: SavedPlan, wait: nat) returns (env': JobEnvelope)
    requires vm.Valid() && !env.workload.Terminal()
    modifies vm
    ensures vm.Valid() && SameVm(env, env')
    ensures vm.polls <= old(vm.polls) + (wait + RESULT_POLL - 1) / RESULT_POLL
    ensures env'.offload == env.offload || env'.offload.Terminal()
    ensures plan.PlanRead? && env'.workload.Terminal() ==> env'.offload.Terminal()
  {
    env' := env;
    var result := AwaitRunnerResult(vm, wait);
    if result.Some? {
      var absorbed;
      absorbed, env' := AbsorbRemote(env, plan, result.value, vm.now);
      if absorbed {
        env' := env'.(supervisor := Supervisor.Finished);
      }
    }
  }

  /** A torn-down job's record: done exactly when its offload is closed, which
      it is when it was before, or when a readable plan says what was due. */
  predicate TornDown(before: JobEnvelope, e: JobEnvelope, planKnown: bool) {
    && e.workload.Terminal() && e.supervisor == Supervisor.Finished
    && (e.cleanup.Gone() || e.cleanup.Failed?)
    && (e.Done() <==> e.offload.Terminal())
    && (before.offload.Terminal() || (planKnown && !before.workload.Terminal()) ==> e.Done())
  }

  /** Destroy past its reads, the VM to be released in the end. */
  method ReleaseForGood(server: Server, store: JobStore, vm: Vm, env: JobEnvelope, plan: SavedPlan, confirmed: bool,
                        wait: nat)
    returns (s: Step, env': JobEnvelope)
    requires PointsAt(server, store, env) && Safe(server, store) && store.envelope.Some? && vm.Valid()
    requires confirmed ==> !env.workload.Terminal()
    modifies server, store, vm
    ensures s.Fine? || s.Killed?
    ensures server.Valid() && store.Valid() && vm.Valid() && Safe(server, store) && store.envelope.Some?
    ensures s.Fine? ==> store.envelope == Some(env') && TornDown(env, env', plan.PlanRead?)
    ensures s.Fine? && env.endpoint.Some? ==>
              ReleaseAttempt(old(server.calls), server.calls, env.endpoint.value, env'.cleanup)
  {
    var last := env;
    if confirmed && wait > 0 {
      last := AwaitStop(vm, env, plan, wait);
    }
    s, env' := Finish(server, store, last, WithoutVerdict(last, plan, confirmed));
  }

  // -- beside a live apply -----------------------------------------------------

  /** What a live `job apply` past its grant may have done since: written any
      record that keeps release soundness and its endpoint, released the VM,
      and forgotten an endpoint known to be gone. */
  method ApplyActs(server: Server, store: JobStore)
    requires server.Valid() && store.Valid() && Safe(server, store) && store.envelope.Some?
    modifies server, store
    ensures server.Valid() && store.Valid() && Safe(server, store) && store.envelope.Some?
    ensures store.owned == old(store.owned) && server.issued == old(server.issued)
    ensures server.assignments <= old(server.assignments)
  {
    var acts: bool, releases: bool, forgets: bool := *, *, *;
    if !acts {
      return;
    }
    var e: JobEnvelope := *;
    e := e.(endpoint := store.envelope.value.endpoint,
            cleanup := if e.cleanup.Gone() then Cleanup.Pending else e.cleanup);
    if releases && e.endpoint.Some? {
      var outcome := ReleaseAssignment(server, e.endpoint.value);
      assert Live(server, store) <= {e.endpoint.value};
      assert outcome.Gone() ==> Live(server, store) == {};
      e := e.(cleanup := outcome, endpoint := if outcome.Gone() && forgets then None else e.endpoint);
    }
    assert PointsAt(server, store, e);
    var _ := store.WriteEnvelope(e);
  }

  /** `_await_supervisor_cleanup`: the record once its cleanup is terminal or
      the apply is gone, None when the wait passes first. */
  method AwaitApply(server: Server, store: JobStore, wait: nat) returns (current: Option<JobEnvelope>)
    requires server.Valid() && store.Valid() && Safe(server, store) && store.envelope.Some?
    modifies server, store
    ensures server.Valid() && store.Valid() && Safe(server, store) && store.envelope.Some?
    ensures store.owned == old(store.owned) && server.issued == old(server.issued)
    ensures server.assignments <= old(server.assignments)
    ensures current.Some? && current.value.cleanup.Terminal() ==> store.envelope == current
  {
    for i := 0 to (wait + RESULT_POLL - 1) / RESULT_POLL
      invariant server.Valid() && store.Valid() && Safe(server, store) && store.envelope.Some?
      invariant store.owned == old(store.owned) && server.issued == old(server.issued)
      invariant server.assignments <= old(server.assignments)
    {
      ApplyActs(server, store);
      var readable: bool := *;
      if readable {
        current := store.envelope;
        if current.value.cleanup.Terminal() {
          return;
        }
        ApplyActs(server, store);
        var alive: bool := *;
        if !alive {
          return;
        }
      }
    }
    return None;
  }

  /** With a live apply to act on the cancel, destroy waits for it: the VM it
      released is left at that, any other is released from the latest record,
      or from the one in hand when that cannot be read. `from` is the record
      the release starts from, `earlier` the calls made before it. */
  method ReleaseAfterApply(server: Server, store: JobStore, env: JobEnvelope, plan: SavedPlan, wait: nat)
    returns (s: Step, env': JobEnvelope, left: bool, ghost from: JobEnvelope, ghost earlier: seq<Call>)
    requires PointsAt(server, store, env) && Safe(server, store) && store.envelope.Some?
    modifies server, store
    ensures s.Fine? || s.Killed?
    ensures server.Valid() && store.Valid() && Safe(server, store) && store.envelope.Some?
    ensures left ==> s.Fine? && store.envelope.value.cleanup.Gone() && Live(server, store) == {}
    ensures s.Fine? && !left ==> store.envelope == Some(env') && TornDown(from, env', plan.PlanRead?)
    ensures s.Fine? && !left && from.endpoint.Some? ==>
              ReleaseAttempt(earlier, server.calls, from.endpoint.value, env'.cleanup)
  {
    s, env', from, earlier := Fine, env, env, server.calls;
    var current := AwaitApply(server, store, wait);
    left := current.Some? && current.value.cleanup.Gone();
    if left {
      return;
    }
    var readable: bool := *;
    var last := if readable then store.envelope.value else env;
    from, earlier := last, server.calls;
    s, env' := Finish(server, store, last, WithoutVerdict(last, plan, true));
  }

  /** Destroy past its reads, `--cancel-only` asked for: the VM goes only
      when the credential may still be on it. */
  method CancelOrOverride(server: Server, store: JobStore, env: JobEnvelope, removed: bool, confirmed: bool)
    returns (s: Step, env': JobEnvelope, failed: bool)
    requires PointsAt(server, store, env) && Safe(server, store) && store.envelope.Some?
    modifies server, store
    ensures s.Fine? || s.Killed?
    ensures server.Valid() && store.Valid() && Safe(server, store) && store.envelope.Some?
    ensures s.Fine? ==> store.envelope == Some(env')
    ensures s.Fine? && !removed ==> failed && TornDown(env, env', false)
    ensures s.Fine? && !removed && env.endpoint.Some? ==>
              ReleaseAttempt(old(server.calls), server.calls, env.endpoint.value, env'.cleanup)
    ensures removed ==> server.calls == old(server.calls) && env' == env.(reason := env'.reason)
    ensures removed ==> (failed <==> !env.workload.Terminal() && !confirmed)
  {
    if !removed {
      failed := true;
      s, env' := Finish(server, store, env, Overridden(env));
      return;
    }
    env' := env.(reason := if env.workload.Terminal() then Later(env.reason, Some(CancelOnly(true)))
                           else Some(CancelOnly(confirmed)));
    failed := !env.workload.Terminal() && !confirmed;
    s := store.WriteEnvelope(env');
  }

  /** `job destroy`. Release soundness holds however it ends. A teardown that
      runs to its end makes one release attempt of the held endpoint, exits
      nonzero exactly when the release failed, and leaves the job done
      exactly when its offload is closed: always, when the run had no verdict
      and its plan can be read. `--cancel-only` keeps the VM unless the
      credential may still be on it. A live apply is given time to release the
      VM first; `from` is the record the release starts from and `earlier` the
      calls before it, those at the start when no apply is alive. */
  method Destroy(server: Server, store: JobStore, vm: Vm, plan: SavedPlan, sessionKnown: bool, alive: bool,
                 cancelOnly: bool, wait: nat)
    returns (end: DestroyEnd, ghost from: Option<JobEnvelope>, ghost earlier: seq<Call>)
    requires server.Valid() && store.Valid() && vm.Valid() && Safe(server, store)
    modifies server, store, vm
    ensures server.Valid() && store.Valid() && vm.Valid() && Safe(server, store)
    ensures end.NoSuchJob? <==> old(store.envelope).None?
    ensures end.PlanUnreadable? <==> old(store.envelope).Some? && plan.UnreadablePlan?
    ensures end.NoSuchJob? || end.PlanUnreadable? ==>
              && server.calls == old(server.calls)
              && store.envelope == old(store.envelope) && store.written == old(store.written)
    ensures !end.NoSuchJob? ==> store.envelope.Some?
    ensures end.LeftToApply? ==>
              alive && !cancelOnly && store.envelope.value.cleanup.Gone() && Live(server, store) == {}
    ensures !alive || cancelOnly ==> from == old(store.envelope) && earlier == old(server.calls)
    ensures end.Ended? && end.released ==>
              from.Some? && TornDown(from.value, store.envelope.value, plan.PlanRead? && !cancelOnly)
    ensures end.Ended? && end.released ==> (end.failed <==> cancelOnly || store.envelope.value.cleanup.Failed?)
    ensures end.Ended? && end.released && from.value.endpoint.Some? ==>
              ReleaseAttempt(earlier, server.calls, from.value.endpoint.value, store.envelope.value.cleanup)
    ensures end.Ended? && !end.released ==>
              && cancelOnly && server.calls == old(server.calls)
              && SameVm(old(store.envelope).value, store.envelope.value)
  {
    from, earlier := store.envelope, server.calls;
    if store.envelope.None? {
      end := NoSuchJob;
      return;
    }
    if plan.UnreadablePlan? {
      end := PlanUnreadable;
      return;
    }
    var env := store.envelope.value;
    var reachable := env.session && sessionKnown;
    env := Reconcile(vm, env, plan, reachable);
    var scrubbed: bool, written: bool := *, *;
    var removed := reachable && scrubbed;
    var confirmed := !env.workload.Terminal() && reachable && written;
    var s, failed;
    if cancelOnly {
      s, env, failed := CancelOrOverride(server, store, env, removed, confirmed);
      end := if s.Fine? then Ended(!removed, failed) else DestroyDied;
      return;
    }
    if confirmed && wait > 0 && alive {
      var left;
      ghost var last;
      s, env, left, last, earlier := ReleaseAfterApply(server, store, env, plan, wait);
      from := Some(last);
      end := if left then LeftToApply else if s.Fine? then Ended(true, env.cleanup.Failed?) else DestroyDied;
      return;
    }
    s, env := ReleaseForGood(server, store, vm, env, plan, confirmed, wait);
    end := if s.Fine? then Ended(true, env.cleanup.Failed?) else DestroyDied;
  }
}
