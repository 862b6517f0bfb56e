/** `jobs prune`, and every run of the job commands one after another
    (src/colab_cli/commands/job.py). */
module JobHistory {
  import opened Options
  import opened JobModels
  import opened Absorb
  import opened World
  import opened Orchestration
  import opened JobCommands
  import Applying = ApplyCommand
  import Destroying = DestroyCommand

  /** One job directory as prune finds it. */
  datatype JobDir = JobDir(store: JobStore, readable: bool, applyLockHeld: bool, hasApplyLog: bool)

  /** What prune may delete: a plan never applied, or a done job whose VM is
      gone. */
  ghost predicate Prunable(dir: JobDir)
    reads dir.store
  {
    && dir.readable
    && match dir.store.envelope
       case None => !dir.applyLockHeld && !dir.hasApplyLog
       case Some(e) => e.Done() && e.cleanup.Gone()
  }

  function Stores(dirs: seq<JobDir>): set<JobStore> {
    set d | d in dirs :: d.store
  }

  ghost predicate AllSafe(server: Server, dirs: seq<JobDir>)
    reads server, Stores(dirs)
  {
    forall i | 0 <= i < |dirs| :: dirs[i].store.Valid() && Safe(server, dirs[i].store)
  }

  predicate Distinct(dirs: seq<JobDir>) {
    forall i, j | 0 <= i < j < |dirs| :: dirs[i].store != dirs[j].store
  }

  /** The classifying loop of prune: the prunable directories, and the rest,
      in order. */
  method Classify(dirs: seq<JobDir>) returns (marked: seq<nat>, skipped: seq<nat>)
    ensures forall i | 0 <= i < |marked| :: marked[i] < |dirs|
    ensures forall i, j | 0 <= i < j < |marked| :: marked[i] < marked[j]
    ensures forall k | 0 <= k < |dirs| :: k in marked <==> Prunable(dirs[k])
    ensures forall k: nat :: k in skipped <==> k < |dirs| && !Prunable(dirs[k])
  {
    marked, skipped := [], [];
    for i := 0 to |dirs|
      invariant forall a | 0 <= a < |marked| :: marked[a] < i
      invariant forall a, b | 0 <= a < b < |marked| :: marked[a] < marked[b]
      invariant forall k | 0 <= k < i :: k in marked <==> Prunable(dirs[k])
      invariant forall k: nat :: k in skipped <==> k < i && !Prunable(dirs[k])
    {
      var dir := dirs[i];
      var prunable :=
        && dir.readable
        && (if dir.store.envelope.None? then !dir.applyLockHeld && !dir.hasApplyLog
            else dir.store.envelope.value.Done() && dir.store.envelope.value.cleanup.Gone());
      if prunable {
        marked := marked + [i];
      } else {
        skipped := skipped + [i];
      }
    }
  }

  /** A job's record untouched, or lost where it may be. */
  twostate predicate KeptOr(store: JobStore, deletable: bool)
    reads store
  {
    && store.Valid() && store.owned == old(store.owned)
    && (store.envelope == old(store.envelope) || (deletable && store.envelope == None))
  }

  /** The deleting loop of prune: each marked directory is gone, or its
      deletion failed; the others are untouched. */
  method DeleteMarked(dirs: seq<JobDir>, marked: seq<nat>) returns (removed: seq<nat>, failed: seq<nat>)
    requires Distinct(dirs) && forall i | 0 <= i < |dirs| :: dirs[i].store.Valid()
    requires forall i | 0 <= i < |marked| :: marked[i] < |dirs|
    requires forall i, j | 0 <= i < j < |marked| :: marked[i] < marked[j]
    modifies Stores(dirs)
    ensures forall k | 0 <= k < |dirs| :: KeptOr(dirs[k].store, k in marked)
    ensures forall k: nat :: k in marked <==> k in removed || k in failed
    ensures forall k | k in removed :: k !in failed && k < |dirs| && dirs[k].store.envelope == None
  {
    removed, failed := [], [];
    for i := 0 to |marked|
      invariant forall k | 0 <= k < |dirs| :: KeptOr(dirs[k].store, k in marked)
      invariant forall a | 0 <= a < i :: marked[a] in removed || marked[a] in failed
      invariant forall k | k in removed || k in failed :: k in marked && (i == |marked| || k < marked[i])
      invariant forall k | k in removed :: k !in failed && k < |dirs| && dirs[k].store.envelope == None
    {
      var gone := dirs[marked[i]].store.Delete();
      if gone {
        removed := removed + [marked[i]];
      } else {
        failed := failed + [marked[i]];
      }
    }
  }

  /** `jobs prune`: exactly the prunable directories are deleted, or reported
      on a dry run, save those whose deletion fails; no job removed has a VM
      the server still holds. */
  method Prune(server: Server, dirs: seq<JobDir>, dryRun: bool) returns (removed: seq<nat>, skipped: seq<nat>)
    requires server.Valid() && Distinct(dirs) && AllSafe(server, dirs)
    modifies Stores(dirs)
    ensures AllSafe(server, dirs)
    ensures forall k: nat :: k < |dirs| <==> k in removed || k in skipped
    ensures forall k | k in removed :: k !in skipped && old(Prunable(dirs[k])) && Live(server, dirs[k].store) == {}
    ensures forall k | k in removed :: !dryRun ==> dirs[k].store.envelope == None
    ensures forall k | k in skipped && !old(Prunable(dirs[k])) :: dirs[k].store.envelope == old(dirs[k].store.envelope)
    ensures dryRun ==>
              && (forall k | k in skipped :: !old(Prunable(dirs[k])))
              && (forall k | 0 <= k < |dirs| :: dirs[k].store.envelope == old(dirs[k].store.envelope))
    ensures forall k | 0 <= k < |dirs| :: dirs[k].store.owned == old(dirs[k].store.owned)
  {
    var marked;
    marked, skipped := Classify(dirs);
    if dryRun {
      return marked, skipped;
    }
    var failed;
    removed, failed := DeleteMarked(dirs, marked);
    skipped := skipped + failed;
  }

  // -- whole runs ------------------------------------------------------------

  /** A job never has two VMs, and a record that says gone leaves none. */
  lemma SafeMeans(server: Server, store: JobStore)
    requires Safe(server, store)
    ensures |Live(server, store)| <= 1
    ensures store.envelope.None? || store.envelope.value.endpoint.None? || store.envelope.value.cleanup.Gone() ==>
              Live(server, store) == {}
  {
    if store.envelope.Some? && store.envelope.value.endpoint.Some? {
      var held := {store.envelope.value.endpoint.value};
      assert Live(server, store) <= held;
      if Live(server, store) != {} {
        assert Live(server, store) == held;
      }
    }
  }

  /** One command on the job, with everything its process finds; `runner` and
      `result` are what the VM of an apply will do. */
  datatype Command =
    | DoApply(spec: JobSpec, options: ApplyOptions, timeout: Option<nat>, debug: bool,
              runner: Timeline, result: RunnerResult)
    | DoStatus(plan: SavedPlan, alive: bool, sessionKnown: bool, poll: bool, interval: int, patience: nat)
    | DoDestroy(plan: SavedPlan, sessionKnown: bool, alive: bool, cancelOnly: bool, wait: nat)
    | DoPrune(readable: bool, locked: bool, logged: bool, dryRun: bool)
  {
    predicate Realistic() {
      DoApply? ==> runner.Ordered() && (Readable(result) ==> TerminalResult(result))
    }
  }

  /** One command, run to wherever it ends. */
  method Execute(server: Server, store: JobStore, vm: Vm, c: Command) returns (vm': Vm)
    requires server.Valid() && store.Valid() && vm.Valid() && Safe(server, store) && c.Realistic()
    modifies server, store, vm
    ensures server.Valid() && store.Valid() && vm'.Valid() && Safe(server, store)
    ensures vm' == vm || fresh(vm')
  {
    vm' := vm;
    match c {
      case DoApply(spec, options, timeout, debug, runner, result) =>
        vm' := new Vm(runner, result);
        var _ := Applying.Apply(server, store, vm', spec, options, timeout, debug);
      case DoStatus(plan, alive, sessionKnown, poll, interval, patience) =>
        var _ := Status(server, store, vm, plan, alive, sessionKnown, poll, interval, patience);
      case DoDestroy(plan, sessionKnown, alive, cancelOnly, wait) =>
        var end;
        ghost var from, earlier;
        end, from, earlier := Destroying.Destroy(server, store, vm, plan, sessionKnown, alive, cancelOnly, wait);
      case DoPrune(readable, locked, logged, dryRun) =>
        var dirs := [JobDir(store, readable, locked, logged)];
        assert dirs[0].store == store;
        var _, _ := Prune(server, dirs, dryRun);
        assert Safe(server, dirs[0].store);
    }
  }

  /** Release soundness over every run: an apply stopped anywhere the model
      lets it stop, then any commands in any order, any of them stopped too,
      with Colab free to reclaim VMs in between. After each of them the
      record points at the one VM the job may still have, and when it says
      the VM is gone, it is. */
  method Run(server: Server, store: JobStore, vm: Vm, commands: seq<Command>)
    requires server.Valid() && store.Valid() && vm.Valid()
    requires store.envelope.None? && store.owned == {}
    requires forall c | c in commands :: c.Realistic()
    modifies server, store, vm
    ensures server.Valid() && store.Valid() && Safe(server, store)
    ensures |Live(server, store)| <= 1
    ensures store.envelope.None? || store.envelope.value.cleanup.Gone() ==> Live(server, store) == {}
    ensures |store.outcomes| + store.lostEvents == DoneEdges(store.written)
  {
    var current := vm;
    for i := 0 to |commands|
      invariant server.Valid() && store.Valid() && current.Valid() && Safe(server, store)
      invariant current == vm || fresh(current)
    {
      server.Reclaim();
      current := Execute(server, store, current, commands[i]);
    }
    SafeMeans(server, store);
  }
}
