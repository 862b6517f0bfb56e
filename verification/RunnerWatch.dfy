/** What `apply` and `status` see of the runner through its files
    (src/colab_cli/job/orchestrator.py): `observe_remote`,
    `await_runner_result`, and the reads of `poll` with the evidence behind
    each way it can end. */
module RunnerWatching {
  import opened Options
  import opened JobModels
  import opened World

  const LAUNCH_RECORD_GRACE := 120
  const LAUNCH_ABSENCE_CONFIRM := 90
  const RESULT_POLL := 5

  // -- one look at the VM ---------------------------------------------------

  datatype Observation =
    | SawResult
    | SawSessionLost
    | SawDegraded
    | SawNeverStarted
    | SawLaunchInvalid
    | SawRunnerDead
    | SawRunnerAlive(stamped: bool)

  /** `observe_remote`: result.json, then launch.json, then watchdog.json,
      stopping at the first answer that decides. A dead report misses a verdict
      that is there whenever the runner wrote one: after the first read, when
      that read was honest. */
  method ObserveRemote(vm: Vm) returns (seen: Observation)
    requires vm.Valid()
    modifies vm`now, vm`log
    ensures vm.Valid() && vm.now >= old(vm.now) && old(vm.log) <= vm.log
    ensures seen.SawResult? ==> vm.runner.Exists(ResultFile, vm.now)
    ensures seen.SawRunnerDead? ==>
              |vm.log| == |old(vm.log)| + 3
              && Sighting(vm.log[|vm.log| - 3], vm.log[|vm.log| - 1])
              && (vm.runner.Exists(ResultFile, vm.now) <==> vm.runner.resultAt.Some?)
              && (vm.runner.Exists(ResultFile, vm.now) && vm.runner.Honest(vm.log[|vm.log| - 3]) ==>
                    vm.log[|vm.log| - 3].at < vm.runner.resultAt.value)
  {
    var status, alive := vm.ReadJson(ResultFile);
    if status.SessionLost? {
      return SawSessionLost;
    }
    if status.Ok? {
      return SawResult;
    }
    if status.DegradedRead? {
      return SawDegraded;
    }
    status, alive := vm.ReadJson(LaunchFile);
    if status.SessionLost? {
      return SawSessionLost;
    }
    if status.DegradedRead? {
      return SawDegraded;
    }
    if !status.Ok? {
      return SawNeverStarted;
    }
    var identity: bool := *;
    if !identity {
      return SawLaunchInvalid;
    }
    status, alive := vm.ReadJson(WatchdogFile);
    if status.SessionLost? {
      return SawSessionLost;
    }
    if status.Ok? && alive == Some(false) {
      return SawRunnerDead;
    }
    return SawRunnerAlive(status.Ok?);
  }

  /** A result read that found nothing and a later watchdog record of a dead
      runner. */
  predicate Sighting(first: Read, last: Read) {
    && first.file.ResultFile? && first.status.NotFound?
    && last.file.WatchdogFile? && last.runnerAlive == Some(false)
    && first.at <= last.at
  }

  /** Reads that told the truth and still report a runner dead whose verdict
      is there. */
  predicate Misses(runner: Timeline, first: Read, last: Read) {
    && Sighting(first, last)
    && runner.Possible(first) && runner.Possible(last) && runner.Honest(first) && runner.Honest(last)
    && runner.Exists(ResultFile, last.at)
  }

  /** `observe_remote` does not read result.json again after seeing a dead
      runner, so its honest reads can miss a verdict: of exactly the runners
      that wrote one, not at the first moment, and exited. */
  lemma ObserveMissesVerdictIff(runner: Timeline)
    requires runner.Ordered()
    ensures
      (exists first, last :: Misses(runner, first, last))
      <==> runner.resultAt.Some? && runner.exitAt.Some? && runner.resultAt.value > 0
  {
    if runner.resultAt.Some? && runner.exitAt.Some? && runner.resultAt.value > 0 {
      var first := Read(0, 1, ResultFile, ReadStatus.NotFound, None);
      var last := Read(runner.exitAt.value, 1, WatchdogFile, ReadStatus.Ok, Some(false));
      assert Misses(runner, first, last);
    }
  }

  /** Such a run exists: the result written one second after the first read,
      the runner gone a second later. */
  lemma ObserveCanMissVerdict()
    ensures
      var runner := Timeline(Some(0), Some(11), Some(12));
      var first := Read(10, 1, ResultFile, ReadStatus.NotFound, None);
      var last := Read(13, 1, WatchdogFile, ReadStatus.Ok, Some(false));
      runner.Ordered() && Misses(runner, first, last)
  {
  }

  /** `await_runner_result`: at most ceil(wait / 5) looks, and a result only
      when the runner wrote one. */
  method AwaitRunnerResult(vm: Vm, wait: nat) returns (result: Option<RunnerResult>)
    requires vm.Valid()
    modifies vm
    ensures vm.Valid() && vm.now >= old(vm.now)
    ensures vm.polls <= old(vm.polls) + (wait + RESULT_POLL - 1) / RESULT_POLL
    ensures result.Some? ==> result.value == vm.result && vm.runner.Exists(ResultFile, vm.now)
  {
    var rounds := (wait + RESULT_POLL - 1) / RESULT_POLL;
    for i := 0 to rounds
      invariant vm.Valid() && vm.now >= old(vm.now) && vm.polls == old(vm.polls) + i
    {
      vm.Pass(RESULT_POLL);
      vm.BeginPoll();
      var raised: bool := *;
      if raised {
        return None;
      }
      var seen := ObserveRemote(vm);
      if seen.SawResult? {
        return Some(vm.result);
      }
      if seen.SawRunnerDead? || seen.SawNeverStarted? || seen.SawSessionLost? {
        return None;
      }
    }
    return None;
  }

  // -- poll's reads ----------------------------------------------------------

  datatype Look = LookResult | LookLost | LookDegraded | LookDead | LookNeverLaunched | LookAlive(stalled: bool) {
    /** The poll goes on. */
    predicate Unsettled() {
      LookDegraded? || LookAlive?
    }
  }

  /** A read that cannot be an honest one of a launched runner: it failed, or
      did not find launch.json. */
  predicate Suspect(r: Read) {
    !(r.status.Ok? || r.status.NotFound?) || (r.file.LaunchFile? && !r.status.Ok?)
  }

  /** Poll `p` made a suspect read at or after read `from`. */
  ghost predicate SuspectPoll(log: seq<Read>, from: nat, p: nat) {
    from < |log| && exists j :: from <= j < |log| && log[j].poll == p && Suspect(log[j]) && log[from].at <= log[j].at
  }

  /** Poll `p` made a read at or after read `from` that did not tell the truth. */
  ghost predicate DishonestPoll(runner: Timeline, log: seq<Read>, from: nat, p: nat) {
    exists j :: from <= j < |log| && log[j].poll == p && !runner.Honest(log[j])
  }

  lemma TrailExtends(log: seq<Read>, more: seq<Read>, from: nat, limit: nat)
    requires log <= more
    ensures forall p: nat | p < limit && SuspectPoll(log, from, p) :: SuspectPoll(more, from, p)
  {
    forall p: nat | p < limit && SuspectPoll(log, from, p) ensures SuspectPoll(more, from, p) {
      var j :| from <= j < |log| && log[j].poll == p && Suspect(log[j]);
      assert more[j] == log[j];
    }
  }

  ghost predicate NoResultRead(log: seq<Read>, from: nat) {
    forall i | from <= i < |log| :: log[i].file.ResultFile? ==> !log[i].status.Ok?
  }

  /** The watchdog saw the runner dead, and result.json, read again after
      that, was not there. */
  predicate Redundant(death: Read, again: Read) {
    && death.file.WatchdogFile? && death.runnerAlive == Some(false)
    && again.file.ResultFile? && !again.status.Ok? && death.at <= again.at
  }

  /** The poll state of one `Orchestrator`: whether the runner's records have
      ever been read, and since when launch.json has been absent. */
  class RunnerWatch {
    const vm: Vm
    var runnerSeen: bool
    var launchAbsentSince: Option<nat>
    /** Where this poll's reads start, and the read that started the absence. */
    ghost var firstRead: nat
    ghost var absentRead: nat

    constructor (vm: Vm)
      ensures this.vm == vm && Trail(vm.polls + 1) && launchAbsentSince == None
    {
      this.vm := vm;
      runnerSeen, launchAbsentSince, firstRead, absentRead := false, None, |vm.log|, 0;
    }

    /** launch.json was absent at read `absentRead`, and every poll from then
        up to `limit` has made a suspect read. */
    ghost predicate Absence(limit: nat)
      reads this, vm
    {
      && firstRead <= absentRead < |vm.log|
      && vm.log[absentRead].file.LaunchFile? && vm.log[absentRead].status.NotFound?
      && launchAbsentSince == Some(vm.log[absentRead].at)
      && forall p | vm.log[absentRead].poll <= p < limit :: SuspectPoll(vm.log, absentRead, p)
    }

    /** What the poll loop has seen in the polls before `limit`: no result,
        and an unbroken trail of suspect polls while launch.json counts as
        absent. */
    ghost predicate Trail(limit: nat)
      reads this, vm
    {
      && firstRead <= |vm.log|
      && NoResultRead(vm.log, firstRead)
      && (!runnerSeen && launchAbsentSince.Some? ==> Absence(limit))
    }

    /** The reads behind "dead, no result": the watchdog's report, then the
        re-read of result.json. */
    ghost predicate DeadEvidence()
      reads this, vm
    {
      && |vm.log| >= 2 && Redundant(vm.log[|vm.log| - 2], vm.log[|vm.log| - 1])
      && NoResultRead(vm.log, firstRead)
    }

    /** The reads behind "never started": launch.json absent from
        `absentRead` to a read at least 90 s later, then a last result read. */
    ghost predicate NeverLaunchedEvidence()
      reads this, vm
    {
      && Absence(vm.polls + 1) && absentRead < |vm.log| - 1
      && vm.log[|vm.log| - 2].file.LaunchFile? && vm.log[|vm.log| - 2].status.NotFound?
      && vm.log[|vm.log| - 2].at >= vm.log[absentRead].at + LAUNCH_ABSENCE_CONFIRM
      && NoResultRead(vm.log, firstRead)
    }

    /** The reads that back a look. */
    ghost predicate Explains(look: Look)
      reads this, vm
    {
      match look
      case LookResult => vm.runner.Exists(ResultFile, vm.now)
      case LookDead => DeadEvidence()
      case LookNeverLaunched => NeverLaunchedEvidence()
      case _ => true
    }

    /** An absence is only ever noted past the grace after launch. */
    ghost predicate PastGrace(startedAt: Option<nat>)
      reads this
    {
      launchAbsentSince.Some? ==> startedAt.Some? && launchAbsentSince.value > startedAt.value + LAUNCH_RECORD_GRACE
    }

    /** One read within the current poll, and what it does to the trail. */
    method Probe(file: File) returns (status: ReadStatus, alive: Option<bool>)
      requires vm.Valid() && Trail(vm.polls)
      modifies vm`now, vm`log
      ensures vm.Valid() && vm.now >= old(vm.now)
      ensures vm.log == old(vm.log) + [Read(vm.now, vm.polls, file, status, alive)]
      ensures status.Ok? ==> vm.runner.Exists(file, vm.now)
      ensures (file.ResultFile? && status.Ok?) || Trail(vm.polls)
      ensures Trail(vm.polls) && Suspect(vm.log[|vm.log| - 1]) ==> Trail(vm.polls + 1)
    {
      ghost var before := vm.log;
      status, alive := vm.ReadJson(file);
      TrailExtends(before, vm.log, absentRead, vm.polls);
      assert vm.log[|vm.log| - 1].poll == vm.polls;
      if !runnerSeen && launchAbsentSince.Some? && Suspect(vm.log[|vm.log| - 1]) {
        assert SuspectPoll(vm.log, absentRead, vm.polls);
      }
    }

    /** One poll's reads: result.json, then watchdog.json, then launch.json
        for a runner never seen; and result.json once more before the runner
        is declared gone (`_absorb_late_result`). */
    method LookOnce(startedAt: Option<nat>) returns (look: Look)
      requires vm.Valid() && Trail(vm.polls + 1) && PastGrace(startedAt)
      modifies this, vm
      ensures vm.Valid() && vm.now >= old(vm.now) && PastGrace(startedAt)
      ensures look.Unsettled() ==> Trail(vm.polls + 1)
      ensures Explains(look)
    {
      vm.BeginPoll();
      var status, alive := Probe(ResultFile);
      if status.Ok? {
        return LookResult;
      }
      if status.SessionLost? {
        return LookLost;
      }
      if status.DegradedRead? {
        return LookDegraded;
      }
      look := LookAtWatchdog(startedAt);
    }

    /** The poll's reads past a result.json that is not there. */
    method LookAtWatchdog(startedAt: Option<nat>) returns (look: Look)
      requires vm.Valid() && Trail(vm.polls) && PastGrace(startedAt)
      modifies this, vm`now, vm`log
      ensures vm.Valid() && vm.now >= old(vm.now) && PastGrace(startedAt)
      ensures look.LookAlive? || look.LookResult? || look.LookDead? || look.LookNeverLaunched?
      ensures look.LookAlive? ==> Trail(vm.polls + 1)
      ensures Explains(look)
    {
      var status, alive := Probe(WatchdogFile);
      if status.Ok? {
        runnerSeen := true;
        if alive == Some(false) {
          status, alive := Probe(ResultFile);
          return if status.Ok? then LookResult else LookDead;
        }
        var stalled: bool := *;
        return LookAlive(stalled);
      }
      look := LookAlive(false);
      if status.NotFound? && !runnerSeen && startedAt.Some? && vm.now > startedAt.value + LAUNCH_RECORD_GRACE {
        look := ConfirmAbsence(startedAt);
      }
    }

    /** launch.json has not appeared within the grace after launch: it must
        stay absent for the confirmation time before the runner is declared
        never started. */
    method ConfirmAbsence(ghost startedAt: Option<nat>) returns (look: Look)
      requires vm.Valid() && Trail(vm.polls) && !runnerSeen && PastGrace(startedAt)
      requires startedAt.Some? && vm.now > startedAt.value + LAUNCH_RECORD_GRACE
      modifies this, vm`now, vm`log
      ensures vm.Valid() && vm.now >= old(vm.now) && PastGrace(startedAt)
      ensures look.LookAlive? || look.LookResult? || look.LookNeverLaunched?
      ensures look.LookAlive? ==> Trail(vm.polls + 1)
      ensures Explains(look)
    {
      var status, _ := Probe(LaunchFile);
      look := LookAlive(false);
      if status.Ok? {
        runnerSeen, launchAbsentSince := true, None;
        return;
      }
      if launchAbsentSince.None? {
        if status.NotFound? {
          launchAbsentSince, absentRead := Some(vm.now), |vm.log| - 1;
          assert SuspectPoll(vm.log, absentRead, vm.polls);
        }
        return;
      }
      if status.NotFound? && vm.now - launchAbsentSince.value >= LAUNCH_ABSENCE_CONFIRM {
        ghost var before := vm.log;
        var again, _ := vm.ReadJson(ResultFile);
        TrailExtends(before, vm.log, absentRead, vm.polls + 1);
        return if again.Ok? then LookResult else LookNeverLaunched;
      }
    }
  }

  /** `poll` says "dead, no result" of a runner that wrote one only when the
      re-read of result.json told something other than the truth. */
  lemma DeadVerdictIsHonest(watch: RunnerWatch)
    requires watch.vm.Valid() && watch.DeadEvidence()
    requires watch.vm.runner.resultAt.Some?
    ensures
      var log := watch.vm.log;
      log[|log| - 1].file.ResultFile? && !watch.vm.runner.Honest(log[|log| - 1])
  {
    var log := watch.vm.log;
    assert watch.vm.runner.Possible(log[|log| - 2]);
  }

  /** `poll` says "never started" of a runner whose launch.json was there when
      its absence was first noted only when every poll of a span of at least
      90 s from then on, the last one included, made a dishonest read. */
  lemma NeverStartedVerdictIsHonest(watch: RunnerWatch)
    requires watch.vm.Valid() && watch.NeverLaunchedEvidence()
    requires watch.vm.runner.Exists(LaunchFile, watch.vm.log[watch.absentRead].at)
    ensures
      var log := watch.vm.log;
      && log[|log| - 2].at - log[watch.absentRead].at >= LAUNCH_ABSENCE_CONFIRM
      && forall p | log[watch.absentRead].poll <= p <= watch.vm.polls ::
           DishonestPoll(watch.vm.runner, log, watch.absentRead, p)
  {
    var log := watch.vm.log;
    forall p | log[watch.absentRead].poll <= p <= watch.vm.polls
      ensures DishonestPoll(watch.vm.runner, log, watch.absentRead, p)
    {
      assert SuspectPoll(log, watch.absentRead, p);
      var j :| watch.absentRead <= j < |log| && log[j].poll == p && Suspect(log[j])
               && log[watch.absentRead].at <= log[j].at;
      assert !watch.vm.runner.Honest(log[j]);
    }
  }
}
