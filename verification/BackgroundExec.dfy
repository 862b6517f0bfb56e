/** `exec-async` and `log --tail --json`: background runs that share one log
    path, seen by pollers (src/colab_cli/commands/execution.py,
    src/colab_cli/commands/utility.py), and the session record that every
    command writes back whole (src/colab_cli/state.py). */
module BackgroundExec {
  import opened Options

  type Bytes = seq<bv8>

  /** What a poll reports. */
  datatype Report = NoJob | Verdict(run: nat) | Running | Terminated

  /** The sidecar file: being written or unparseable, or a run's verdict. */
  datatype Sidecar = Unfinished | Finished(run: nat)

  /** Whether a worker has a verdict to write: never, not yet begun, or begun
      in the sidecar that stood after so many removals. */
  datatype Duty = NoVerdict | Due | Writing(since: nat)

  /** A live worker: where in the log its next output goes, and its verdict. */
  datatype Worker = Worker(offset: nat, duty: Duty)

  /** Where one `exec-async` stands: it read the session and found the recorded
      worker dead; it wrote the session back; it removed the sidecar; it emptied
      the log; it spawned its worker. */
  datatype Stage = Checked | Persisted | Cleared | Truncated | Spawned

  /** `seen` is the pid it read, `run` its number once it removed the sidecar,
      and `json` whether its worker is to leave a verdict. */
  datatype Start = Start(stage: Stage, seen: Option<nat>, run: nat, json: bool)

  /** One atomic step of some process; starts are told apart by an id, and so
      are the other holders of the session record: the keep-alive daemon, a
      foreground `exec`, the worker itself. `Renew` is a session removed and
      made anew. */
  datatype Action =
    | Check(id: nat, json: bool)
    | Persist(id: nat)
    | Clear(id: nat)
    | Truncate(id: nat)
    | Spawn(id: nat)
    | Record(id: nat)
    | Stop(id: nat)
    | ReadRecord(holder: nat)
    | WriteBack(holder: nat)
    | Renew
    | WorkerWrites(run: nat, bytes: Bytes)
    | WorkerOpens(run: nat)
    | WorkerCloses(run: nat, whole: bool)
    | WorkerExits(run: nat)

  /** The files at one log path, the pid in the session's record, the copies of
      that pid others hold, the live workers, and the starts under way.
      `started` counts the starts that have removed the sidecar; run n is the
      n-th of them. */
  datatype State = State(
    log: Option<Bytes>,
    sidecar: Option<Sidecar>,
    recorded: Option<nat>,
    held: map<nat, Option<nat>>,
    workers: map<nat, Worker>,
    starts: map<nat, Start>,
    started: nat)

  const INITIAL := State(None, None, None, map[], map[], map[], 0)

  predicate At(st: State, id: nat, stage: Stage) {
    id in st.starts && st.starts[id].stage == stage
  }

  predicate RecordedLives(st: State) {
    st.recorded.Some? && st.recorded.value in st.workers
  }

  /** Whether an action can happen where things stand. */
  predicate Enabled(st: State, a: Action) {
    match a
    case Check(id, _) => id !in st.starts && !RecordedLives(st)
    case Persist(id) => At(st, id, Checked)
    case Clear(id) => At(st, id, Persisted)
    case Truncate(id) => At(st, id, Cleared)
    case Spawn(id) => At(st, id, Truncated)
    case Record(id) => At(st, id, Spawned)
    case Stop(id) => id in st.starts
    case ReadRecord(_) => true
    case WriteBack(holder) => holder in st.held
    case Renew => true
    case WorkerWrites(run, _) => run in st.workers && st.log.Some?
    case WorkerOpens(run) => run in st.workers && st.workers[run].duty.Due?
    case WorkerCloses(run, _) => run in st.workers && st.workers[run].duty.Writing?
    case WorkerExits(run) => run in st.workers
  }

  /** A write at an offset: what lies before it stays, a gap is zeros, and what
      lies under it is overwritten. */
  function WriteAt(log: Bytes, offset: nat, bytes: Bytes): (r: Bytes)
    ensures |r| == if offset + |bytes| > |log| then offset + |bytes| else |log|
  {
    var kept := if offset <= |log| then log[..offset] else log + seq(offset - |log|, _ => 0);
    kept + bytes + (if offset + |bytes| <= |log| then log[offset + |bytes|..] else [])
  }

  function Advanced(st: State, id: nat, stage: Stage): map<nat, Start>
    requires id in st.starts
  {
    st.starts[id := st.starts[id].(stage := stage)]
  }

  function WithDuty(st: State, run: nat, duty: Duty): map<nat, Worker>
    requires run in st.workers
  {
    st.workers[run := st.workers[run].(duty := duty)]
  }

  /** What it does; an action that cannot happen does nothing. A sidecar is
      removed by name: a worker still writing it writes to nobody. */
  function Next(st: State, a: Action): State {
    if !Enabled(st, a) then st
    else
      match a
      case Check(id, json) => st.(starts := st.starts[id := Start(Checked, st.recorded, 0, json)])
      case Persist(id) => st.(recorded := st.starts[id].seen, starts := Advanced(st, id, Persisted))
      case Clear(id) =>
        st.(sidecar := None, started := st.started + 1,
            starts := st.starts[id := st.starts[id].(stage := Cleared, run := st.started)])
      case Truncate(id) => st.(log := Some([]), starts := Advanced(st, id, Truncated))
      case Spawn(id) =>
        st.(workers := st.workers[st.starts[id].run := Worker(0, if st.starts[id].json then Due else NoVerdict)],
            starts := Advanced(st, id, Spawned))
      case Record(id) => st.(recorded := Some(st.starts[id].run), starts := st.starts - {id})
      case Stop(id) => st.(starts := st.starts - {id})
      case ReadRecord(holder) => st.(held := st.held[holder := st.recorded])
      case WriteBack(holder) => st.(recorded := st.held[holder])
      case Renew => st.(recorded := None)
      case WorkerWrites(run, bytes) =>
        var offset := st.workers[run].offset;
        st.(log := Some(WriteAt(st.log.value, offset, bytes)),
            workers := st.workers[run := st.workers[run].(offset := offset + |bytes|)])
      case WorkerOpens(run) => st.(sidecar := Some(Unfinished), workers := WithDuty(st, run, Writing(st.started)))
      case WorkerCloses(run, whole) =>
        st.(sidecar := if st.workers[run].duty.since != st.started then st.sidecar
                       else Some(if whole then Finished(run) else Unfinished),
            workers := WithDuty(st, run, NoVerdict))
      case WorkerExits(run) => st.(workers := st.workers - {run})
  }

  function Steps(st: State, schedule: seq<Action>): State
    decreases |schedule|
  {
    if schedule == [] then st else Steps(Next(st, schedule[0]), schedule[1..])
  }

  /** What a poll reports: the verdict first, then the recorded worker's life. */
  function Polled(st: State): Report {
    if st.log.None? && st.sidecar.None? then NoJob
    else if st.sidecar.Some? && st.sidecar.value.Finished? then Verdict(st.sidecar.value.run)
    else if RecordedLives(st) then Running
    else Terminated
  }

  /** The raw bytes past an offset; none past the end. */
  function Slice(log: Option<Bytes>, offset: nat): Bytes {
    if log.Some? && offset <= |log.value| then log.value[offset..] else []
  }

  /** The path itself: every step in place, as the processes take them. */
  class LogPath {
    var log: Option<Bytes>
    var sidecar: Option<Sidecar>
    var recorded: Option<nat>
    var held: map<nat, Option<nat>>
    var workers: map<nat, Worker>
    var starts: map<nat, Start>
    var started: nat

    constructor ()
      ensures View() == INITIAL
    {
      log, sidecar, recorded, held, workers, starts, started := None, None, None, map[], map[], map[], 0;
    }

    function View(): State
      reads this
    {
      State(log, sidecar, recorded, held, workers, starts, started)
    }

    method Take(a: Action)
      modifies this
      ensures View() == Next(old(View()), a)
    {
      if !Enabled(View(), a) {
        return;
      }
      match a {
        case Check(id, json) =>
          starts := starts[id := Start(Checked, recorded, 0, json)];
        case Persist(id) =>
          // The session is written back as it was read: with that pid.
          recorded := starts[id].seen;
          starts := starts[id := starts[id].(stage := Persisted)];
        case Clear(id) =>
          sidecar := None;
          starts := starts[id := starts[id].(stage := Cleared, run := started)];
          started := started + 1;
        case Truncate(id) =>
          log := Some([]);
          starts := starts[id := starts[id].(stage := Truncated)];
        case Spawn(id) =>
          workers := workers[starts[id].run := Worker(0, if starts[id].json then Due else NoVerdict)];
          starts := starts[id := starts[id].(stage := Spawned)];
        case Record(id) =>
          recorded := Some(starts[id].run);
          starts := starts - {id};
        case Stop(id) =>
          starts := starts - {id};
        case ReadRecord(holder) =>
          held := held[holder := recorded];
        case WriteBack(holder) =>
          recorded := held[holder];
        case Renew =>
          recorded := None;
        case WorkerWrites(run, bytes) =>
          var offset := workers[run].offset;
          log := Some(WriteAt(log.value, offset, bytes));
          workers := workers[run := workers[run].(offset := offset + |bytes|)];
        case WorkerOpens(run) =>
          sidecar := Some(Unfinished);
          workers := workers[run := workers[run].(duty := Writing(started))];
        case WorkerCloses(run, whole) =>
          if workers[run].duty.since == started {
            sidecar := Some(if whole then Finished(run) else Unfinished);
          }
          workers := workers[run := workers[run].(duty := NoVerdict)];
        case WorkerExits(run) =>
          workers := workers - {run};
      }
    }

    /** Any interleaving of starts, workers and holders of the record. */
    method Run(schedule: seq<Action>)
      modifies this
      ensures View() == Steps(old(View()), schedule)
    {
      for i := 0 to |schedule|
        invariant Steps(View(), schedule[i..]) == Steps(old(View()), schedule)
      {
        assert schedule[i..][1..] == schedule[i + 1..];
        Take(schedule[i]);
      }
    }

    /** `_tail_log_json`: the next offset counts raw bytes, whatever is done to
        the content. */
    method Poll(offset: nat, strip: bool, stripper: Bytes -> Bytes) returns (report: Report, content: Bytes, next: nat)
      ensures report == Polled(View())
      ensures next == offset + |Slice(log, offset)|
      ensures content == if strip && !report.NoJob? then stripper(Slice(log, offset)) else Slice(log, offset)
    {
      content := Slice(log, offset);
      next := offset + |content|;
      if log.None? && sidecar.None? {
        return NoJob, content, next;
      }
      if strip {
        content := stripper(content);
      }
      if sidecar.Some? && sidecar.value.Finished? {
        report := Verdict(sidecar.value.run);
      } else if recorded.Some? && recorded.value in workers {
        report := Running;
      } else {
        report := Terminated;
      }
    }
  }

  // -- schedules ------------------------------------------------------------------

  lemma OneStep(st: State, a: Action)
    ensures Steps(st, [a]) == Next(st, a)
  {
    assert Steps(Next(st, a), []) == Next(st, a);
  }

  lemma TwoSteps(st: State, a: Action, b: Action)
    ensures Steps(st, [a, b]) == Next(Next(st, a), b)
  {
    assert [a, b][1..] == [b];
    OneStep(Next(st, a), b);
  }

  lemma {:induction false} StepsJoin(st: State, first: seq<Action>, second: seq<Action>)
    ensures Steps(st, first + second) == Steps(Steps(st, first), second)
    decreases |first|
  {
    if first == [] {
      assert first + second == second;
    } else {
      assert (first + second)[1..] == first[1..] + second;
      StepsJoin(Next(st, first[0]), first[1..], second);
    }
  }

  // -- whose verdict a poll can show --------------------------------------------

  /** The poll shows the verdict of a run before the latest. */
  predicate ShowsEarlier(st: State) {
    Polled(st).Verdict? && Polled(st).run + 1 < st.started
  }

  /** A live worker whose verdict can still reach the sidecar. */
  predicate CanReport(st: State, run: nat) {
    run in st.workers && (st.workers[run].duty.Due? || st.workers[run].duty == Writing(st.started))
  }

  /** A start past removing the sidecar that has yet to spawn its worker. */
  predicate WillReport(s: Start) {
    s.json && (s.stage == Cleared || s.stage == Truncated)
  }

  /** Something of an earlier run is about: its verdict, a worker with one to
      write, or a start that has yet to spawn such a worker. */
  predicate Threatened(st: State) {
    || ShowsEarlier(st)
    || (exists w | w in st.workers :: CanReport(st, w) && w + 1 < st.started)
    || (exists id | id in st.starts :: WillReport(st.starts[id]) && st.starts[id].run + 1 < st.started)
  }

  /** No start removes the sidecar in the meantime. */
  predicate NoClear(schedule: seq<Action>) {
    forall a | a in schedule :: !a.Clear?
  }

  lemma {:induction false} UnthreatenedStays(st: State, schedule: seq<Action>)
    requires !Threatened(st) && NoClear(schedule)
    ensures !Threatened(Steps(st, schedule))
    decreases |schedule|
  {
    if schedule != [] {
      assert schedule[0] in schedule;
      StepStays(st, schedule[0]);
      UnthreatenedStays(Next(st, schedule[0]), schedule[1..]);
    }
  }

  lemma StepStays(st: State, a: Action)
    requires !Threatened(st) && !a.Clear?
    ensures !Threatened(Next(st, a))
  {
    if a.Spawn? && Enabled(st, a) {
      assert WillReport(st.starts[a.id]) || !st.starts[a.id].json;
    }
    if a.WorkerCloses? && Enabled(st, a) {
      assert CanReport(st, a.run) || st.workers[a.run].duty.since != st.started;
    }
  }

  /** Before the next start removes the sidecar, some poll can show an earlier
      run's verdict exactly when something of an earlier run is about now. */
  lemma ShowsEarlierIff(st: State)
    ensures Threatened(st) <==> exists schedule :: NoClear(schedule) && ShowsEarlier(Steps(st, schedule))
  {
    if Threatened(st) {
      var schedule := Exposure(st);
      assert NoClear(schedule) && ShowsEarlier(Steps(st, schedule));
    }
    if schedule :| NoClear(schedule) && ShowsEarlier(Steps(st, schedule)) {
      if !Threatened(st) {
        UnthreatenedStays(st, schedule);
      }
    }
  }

  lemma Exposure(st: State) returns (schedule: seq<Action>)
    requires Threatened(st)
    ensures NoClear(schedule) && ShowsEarlier(Steps(st, schedule))
  {
    if ShowsEarlier(st) {
      schedule := [];
    } else if w :| w in st.workers && CanReport(st, w) && w + 1 < st.started {
      schedule := Reporting(st, w);
    } else {
      var id :| id in st.starts && WillReport(st.starts[id]) && st.starts[id].run + 1 < st.started;
      var first := if st.starts[id].stage == Cleared then [Truncate(id), Spawn(id)] else [Spawn(id)];
      OneStep(st, Spawn(id));
      TwoSteps(st, Truncate(id), Spawn(id));
      var spawned := Steps(st, first);
      var rest := Reporting(spawned, st.starts[id].run);
      StepsJoin(st, first, rest);
      schedule := first + rest;
    }
  }

  /** A worker that can report does. */
  lemma Reporting(st: State, w: nat) returns (schedule: seq<Action>)
    requires CanReport(st, w)
    ensures NoClear(schedule) && Steps(st, schedule).sidecar == Some(Finished(w))
    ensures Steps(st, schedule).started == st.started
  {
    OneStep(st, WorkerCloses(w, true));
    TwoSteps(st, WorkerOpens(w), WorkerCloses(w, true));
    schedule := if st.workers[w].duty.Due? then [WorkerOpens(w), WorkerCloses(w, true)] else [WorkerCloses(w, true)];
  }

  predicate WorkerNumbered(w: nat, worker: Worker, started: nat) {
    w < started && (worker.duty.Writing? ==> worker.duty.since <= started)
  }

  predicate WorkersNumbered(st: State) {
    && (st.sidecar.Some? && st.sidecar.value.Finished? ==> st.sidecar.value.run < st.started)
    && (forall w | w in st.workers :: WorkerNumbered(w, st.workers[w], st.started))
  }

  predicate StartsNumbered(st: State) {
    forall id | id in st.starts ::
      st.starts[id].stage.Checked? || st.starts[id].stage.Persisted? || st.starts[id].run < st.started
  }

  /** Run numbers are given out in order. */
  predicate Numbered(st: State) {
    WorkersNumbered(st) && StartsNumbered(st)
  }

  lemma StartsStayNumbered(st: State, a: Action)
    requires StartsNumbered(st)
    ensures StartsNumbered(Next(st, a))
  {
  }

  lemma WorkersStayNumbered(st: State, a: Action)
    requires StartsNumbered(st) && WorkersNumbered(st)
    ensures WorkersNumbered(Next(st, a))
  {
  }

  lemma {:induction false} StaysNumbered(st: State, schedule: seq<Action>)
    requires Numbered(st)
    ensures Numbered(Steps(st, schedule))
    decreases |schedule|
  {
    if schedule != [] {
      StartsStayNumbered(st, schedule[0]);
      WorkersStayNumbered(st, schedule[0]);
      StaysNumbered(Next(st, schedule[0]), schedule[1..]);
    }
  }

  predicate SomeDue(st: State) {
    exists w | w in st.workers :: st.workers[w].duty.Due?
  }

  /** A start that removes the sidecar now is safe from every earlier verdict
      until the next one does, exactly when no live worker, recorded or not, has
      yet to begin its verdict, and no other start is about to spawn one. */
  lemma ClearProtectsIff(st: State, id: nat)
    requires Numbered(st) && Enabled(st, Clear(id))
    ensures
      (forall schedule | NoClear(schedule) :: !ShowsEarlier(Steps(Next(st, Clear(id)), schedule)))
      <==> !SomeDue(st) && forall other | other in st.starts :: !WillReport(st.starts[other])
  {
    var cleared := Next(st, Clear(id));
    ShowsEarlierIff(cleared);
    if w :| w in st.workers && st.workers[w].duty.Due? {
      assert w in cleared.workers && CanReport(cleared, w) && w + 1 < cleared.started;
    }
    if other :| other in st.starts && WillReport(st.starts[other]) {
      assert other in cleared.starts && WillReport(cleared.starts[other]);
    }
  }

  // -- when the source's own check is enough ----------------------------------------

  /** Every live worker that has yet to begin its verdict is the recorded one. */
  predicate Sound(st: State) {
    forall w | w in st.workers && st.workers[w].duty.Due? :: st.recorded == Some(w)
  }

  predicate Pending(st: State) {
    exists id | id in st.starts :: st.starts[id].stage == Spawned
  }

  /** A write of this pid does no harm: a start has yet to record its worker,
      or every worker the check is needed for is the one it names. */
  predicate Harmless(st: State, pid: Option<nat>) {
    Pending(st) || forall w | w in st.workers && st.workers[w].duty.Due? :: pid == Some(w)
  }

  /** Starts come one at a time, none stops between spawning its worker and
      recording it, and nobody else writes a harmful pid into the record. */
  predicate Orderly(st: State, a: Action) {
    match a
    case Check(_, _) => st.starts == map[]
    case Stop(id) => !At(st, id, Spawned)
    case WriteBack(holder) => holder in st.held ==> Harmless(st, st.held[holder])
    case Renew => Harmless(st, None)
    case _ => true
  }

  predicate AllOrderly(st: State, schedule: seq<Action>)
    decreases |schedule|
  {
    schedule == [] || (Orderly(st, schedule[0]) && AllOrderly(Next(st, schedule[0]), schedule[1..]))
  }

  /** Every worker with a verdict to begin is the recorded one, or the one a
      start is about to record; past its check a start finds none. */
  predicate Covered(st: State) {
    && (st.starts == map[] ==> Sound(st))
    && (forall a, b | a in st.starts && b in st.starts :: a == b)
    && (forall id | id in st.starts ::
          if st.starts[id].stage == Spawned
          then forall w | w in st.workers && st.workers[w].duty.Due? :: w == st.starts[id].run
          else !SomeDue(st))
  }

  /** Nothing of an earlier run is about, nor can be. */
  predicate Accounted(st: State) {
    Numbered(st) && !Threatened(st) && Covered(st)
  }

  lemma StaysAccounted(st: State, a: Action)
    requires Accounted(st) && Orderly(st, a)
    ensures Accounted(Next(st, a))
  {
    StartsStayNumbered(st, a);
    WorkersStayNumbered(st, a);
    if Enabled(st, a) {
      StaysUnthreatened(st, a);
      if a.Check? || a.Persist? || a.Clear? || a.Truncate? || a.Spawn? || a.Record? || a.Stop? {
        StartStaysCovered(st, a);
      } else {
        OtherStaysCovered(st, a);
      }
    }
  }

  lemma StaysUnthreatened(st: State, a: Action)
    requires Accounted(st) && Orderly(st, a) && Enabled(st, a)
    ensures !Threatened(Next(st, a))
  {
    if a.Clear? {
      var cleared := Next(st, a);
      forall w | w in cleared.workers ensures !CanReport(cleared, w) {
        assert WorkerNumbered(w, st.workers[w], st.started);
      }
    } else {
      StepStays(st, a);
    }
  }

  lemma StartStaysCovered(st: State, a: Action)
    requires Covered(st) && Orderly(st, a) && Enabled(st, a)
    requires a.Check? || a.Persist? || a.Clear? || a.Truncate? || a.Spawn? || a.Record? || a.Stop?
    ensures Covered(Next(st, a))
  {
    if a.Record? || a.Stop? {
      assert st.starts - {a.id} == map[];
    } else {
      assert a.Check? ==> Sound(st);
      assert !SomeDue(st) && a.id in Next(st, a).starts;
      assert !a.Spawn? ==> Next(st, a).workers == st.workers;
    }
  }

  lemma OtherStaysCovered(st: State, a: Action)
    requires Covered(st) && Orderly(st, a) && Enabled(st, a)
    requires a.ReadRecord? || a.WriteBack? || a.Renew? || a.WorkerWrites? || a.WorkerOpens? || a.WorkerCloses?
             || a.WorkerExits?
    ensures Covered(Next(st, a))
  {
  }

  lemma {:induction false} OrderlyStays(st: State, schedule: seq<Action>)
    requires Accounted(st) && AllOrderly(st, schedule)
    ensures Accounted(Steps(st, schedule))
    decreases |schedule|
  {
    if schedule != [] {
      StaysAccounted(st, schedule[0]);
      OrderlyStays(Next(st, schedule[0]), schedule[1..]);
    }
  }

  /** Over every orderly interleaving no poll ever shows an earlier run's
      verdict. */
  lemma OrderlyNeverStale(schedule: seq<Action>)
    requires AllOrderly(INITIAL, schedule)
    ensures !ShowsEarlier(Steps(INITIAL, schedule))
  {
    OrderlyStays(INITIAL, schedule);
  }

  /** A schedule everyone in is orderly, with an earlier verdict at its end. */
  predicate Exposes(st: State, schedule: seq<Action>) {
    AllOrderly(st, schedule) && ShowsEarlier(Steps(st, schedule))
  }

  /** With no start under way and nothing of an earlier run about, the source's
      check is enough for everything orderly that can follow, exactly when every
      live worker that has yet to begin its verdict is the recorded one. */
  lemma CheckSufficesIff(st: State)
    requires Numbered(st) && st.starts == map[] && !Threatened(st)
    ensures (forall schedule :: !Exposes(st, schedule)) <==> Sound(st)
  {
    if Sound(st) {
      forall schedule ensures !Exposes(st, schedule) {
        if AllOrderly(st, schedule) {
          OrderlyStays(st, schedule);
        }
      }
    } else {
      var w :| w in st.workers && st.workers[w].duty.Due? && st.recorded != Some(w);
      var schedule := Overlooking(st, w);
      assert Exposes(st, schedule);
    }
  }

  /** A write-back is harmless to everything orderly that can follow exactly
      when the pid it holds is that of every live worker with a verdict to
      begin. */
  lemma WriteBackHarmlessIff(st: State, holder: nat)
    requires Numbered(st) && st.starts == map[] && !Threatened(st) && holder in st.held
    ensures
      (forall schedule :: !Exposes(Next(st, WriteBack(holder)), schedule))
      <==> forall w | w in st.workers && st.workers[w].duty.Due? :: st.held[holder] == Some(w)
  {
    StepStays(st, WriteBack(holder));
    CheckSufficesIff(Next(st, WriteBack(holder)));
  }

  /** A start, from a check that passes to its worker's record. */
  function WholeStart(id: nat): seq<Action> {
    [Check(id, true), Persist(id), Clear(id)] + [Truncate(id), Spawn(id), Record(id)]
  }

  lemma ThreeSteps(st: State, a: Action, b: Action, c: Action)
    ensures Steps(st, [a, b, c]) == Next(Next(Next(st, a), b), c)
  {
    assert [a, b, c][1..] == [b, c];
    TwoSteps(Next(st, a), b, c);
  }

  lemma FirstHalf(st: State, id: nat)
    requires st.starts == map[] && !RecordedLives(st)
    ensures
      var first := [Check(id, true), Persist(id), Clear(id)];
      && Steps(st, first) == st.(sidecar := None, started := st.started + 1,
                                 starts := map[id := Start(Cleared, st.recorded, st.started, true)])
      && AllOrderly(st, first)
  {
    ThreeSteps(st, Check(id, true), Persist(id), Clear(id));
    OrderlyThree(st, Check(id, true), Persist(id), Clear(id));
  }

  lemma OrderlyThree(st: State, a: Action, b: Action, c: Action)
    requires Orderly(st, a) && Orderly(Next(st, a), b) && Orderly(Next(Next(st, a), b), c)
    ensures AllOrderly(st, [a, b, c])
  {
    assert [a, b, c][1..] == [b, c] && [b, c][1..] == [c] && [c][1..] == [];
    assert AllOrderly(Next(Next(Next(st, a), b), c), []);
    assert AllOrderly(Next(Next(st, a), b), [c]);
    assert AllOrderly(Next(st, a), [b, c]);
  }

  lemma {:induction false} OrderlyJoin(st: State, first: seq<Action>, second: seq<Action>)
    requires AllOrderly(st, first) && AllOrderly(Steps(st, first), second)
    ensures AllOrderly(st, first + second)
    decreases |first|
  {
    if first == [] {
      assert first + second == second;
    } else {
      assert (first + second)[1..] == first[1..] + second;
      OrderlyJoin(Next(st, first[0]), first[1..], second);
    }
  }

  /** A worker writes its verdict. */
  lemma Reported(st: State, run: nat)
    requires run in st.workers && st.workers[run].duty.Due?
    ensures
      var report := [WorkerOpens(run), WorkerCloses(run, true)];
      && Steps(st, report).sidecar == Some(Finished(run)) && Steps(st, report).started == st.started
      && AllOrderly(st, report)
  {
    var report := [WorkerOpens(run), WorkerCloses(run, true)];
    TwoSteps(st, WorkerOpens(run), WorkerCloses(run, true));
    assert report[1..] == [report[1]] && report[1..][1..] == [];
  }

  lemma Exited(st: State) returns (exit: seq<Action>)
    ensures AllOrderly(st, exit) && !RecordedLives(Steps(st, exit))
    ensures Steps(st, exit) == if RecordedLives(st) then Next(st, WorkerExits(st.recorded.value)) else st
  {
    exit := [];
    if RecordedLives(st) {
      exit := [WorkerExits(st.recorded.value)];
      OneStep(st, exit[0]);
      assert AllOrderly(Next(st, exit[0]), exit[1..]);
    }
  }

  /** The recorded worker, if another, exits; the check passes over `w`; and `w`
      writes its verdict after the sidecar was removed. */
  lemma Overlooking(st: State, w: nat) returns (schedule: seq<Action>)
    requires Numbered(st) && st.starts == map[]
    requires w in st.workers && st.workers[w].duty.Due? && st.recorded != Some(w)
    ensures AllOrderly(st, schedule) && ShowsEarlier(Steps(st, schedule))
  {
    var exit := Exited(st);
    var alone := Steps(st, exit);
    assert w < st.started by {
      assert WorkerNumbered(w, st.workers[w], st.started);
    }
    var rest := PassedOver(alone, w);
    StepsJoin(st, exit, rest);
    OrderlyJoin(st, exit, rest);
    schedule := exit + rest;
  }

  lemma PassedOver(st: State, w: nat) returns (schedule: seq<Action>)
    requires st.starts == map[] && !RecordedLives(st)
    requires w in st.workers && st.workers[w].duty.Due? && w < st.started
    ensures AllOrderly(st, schedule) && ShowsEarlier(Steps(st, schedule))
  {
    FirstHalf(st, 0);
    var start, report := [Check(0, true), Persist(0), Clear(0)], [WorkerOpens(w), WorkerCloses(w, true)];
    Reported(Steps(st, start), w);
    StepsJoin(st, start, report);
    OrderlyJoin(st, start, report);
    schedule := start + report;
  }

  // -- copies read since the last start recorded its worker ----------------------------

  /** Starts come one at a time and none stops between spawning and recording;
      the session is not made anew; and whoever writes the record back read it
      since the last start recorded its worker. `recent` are those who have. */
  predicate Timely(st: State, recent: set<nat>, schedule: seq<Action>)
    decreases |schedule|
  {
    schedule == [] ||
    var a, rest := schedule[0], schedule[1..];
    match a
    case Renew => false
    case Check(_, _) => st.starts == map[] && Timely(Next(st, a), recent, rest)
    case Stop(id) => !At(st, id, Spawned) && Timely(Next(st, a), recent, rest)
    case Record(id) => Timely(Next(st, a), if At(st, id, Spawned) then {} else recent, rest)
    case ReadRecord(holder) => Timely(Next(st, a), recent + {holder}, rest)
    case WriteBack(holder) => holder in recent && Timely(Next(st, a), recent, rest)
    case _ => Timely(Next(st, a), recent, rest)
  }

  /** A recent copy holds the pid that is there. */
  predicate Current(st: State, recent: set<nat>) {
    && (forall h | h in recent :: h in st.held && st.held[h] == st.recorded)
    && (forall id | id in st.starts && st.starts[id].stage == Checked :: st.starts[id].seen == st.recorded)
  }

  lemma {:induction false} TimelyIsOrderly(st: State, recent: set<nat>, schedule: seq<Action>)
    requires Accounted(st) && Current(st, recent) && Timely(st, recent, schedule)
    ensures AllOrderly(st, schedule)
    decreases |schedule|
  {
    if schedule != [] {
      var a := schedule[0];
      FreshIsHarmless(st, recent);
      StaysAccounted(st, a);
      var recent' :=
        match a
        case Record(id) => if At(st, id, Spawned) then {} else recent
        case ReadRecord(holder) => recent + {holder}
        case _ => recent;
      TimelyIsOrderly(Next(st, a), recent', schedule[1..]);
    }
  }

  lemma FreshIsHarmless(st: State, recent: set<nat>)
    requires Accounted(st) && Current(st, recent)
    ensures forall h | h in recent :: Harmless(st, st.held[h])
  {
  }

  /** Where nobody writes back a copy from before a start's record after it, no
      poll ever shows an earlier run's verdict. */
  lemma TimelyNeverStale(schedule: seq<Action>)
    requires Timely(INITIAL, {}, schedule)
    ensures !ShowsEarlier(Steps(INITIAL, schedule))
  {
    TimelyIsOrderly(INITIAL, {}, schedule);
    OrderlyNeverStale(schedule);
  }

  // -- the ways to show an earlier verdict ------------------------------------------------

  lemma WholeStartSteps(st: State, id: nat)
    requires st.starts == map[] && !RecordedLives(st) && st.started !in st.workers
    ensures
      && Steps(st, WholeStart(id)) ==
         st.(log := Some([]), sidecar := None, recorded := Some(st.started), started := st.started + 1,
             workers := st.workers[st.started := Worker(0, Due)])
      && AllOrderly(st, WholeStart(id))
  {
    FirstHalf(st, id);
    var first, second := [Check(id, true), Persist(id), Clear(id)], [Truncate(id), Spawn(id), Record(id)];
    var cleared := Steps(st, first);
    ThreeSteps(cleared, Truncate(id), Spawn(id), Record(id));
    OrderlyThree(cleared, Truncate(id), Spawn(id), Record(id));
    assert Steps(cleared, second).starts == map[];
    StepsJoin(st, first, second);
    OrderlyJoin(st, first, second);
  }

  /** A start that stops between spawning and recording leaves a worker the
      next start does not see: the first run's verdict is polled as the
      second's. */
  lemma StrayShowsStaleVerdict()
    ensures
      var st := Steps(INITIAL, [Check(0, true), Persist(0), Clear(0)] + ([Truncate(0), Spawn(0), Stop(0)]
                               + (WholeStart(1) + [WorkerOpens(0), WorkerCloses(0, true)])));
      Polled(st) == Verdict(0) && ShowsEarlier(st)
  {
    var first, second := [Check(0, true), Persist(0), Clear(0)], [Truncate(0), Spawn(0), Stop(0)];
    var report := [WorkerOpens(0), WorkerCloses(0, true)];
    FirstHalf(INITIAL, 0);
    var cleared := Steps(INITIAL, first);
    ThreeSteps(cleared, Truncate(0), Spawn(0), Stop(0));
    var stray := State(Some([]), None, None, map[], map[0 := Worker(0, Due)], map[], 1);
    assert Steps(cleared, second) == stray;
    WholeStartSteps(stray, 1);
    Reported(Steps(stray, WholeStart(1)), 0);
    StepsJoin(stray, WholeStart(1), report);
    StepsJoin(cleared, second, WholeStart(1) + report);
    StepsJoin(INITIAL, first, second + (WholeStart(1) + report));
  }

  /** A copy of the record read before a start and written back after it has the
      same end, though both starts are orderly: the daemon, a foreground `exec`
      and the worker itself hold such copies. */
  lemma WriteBackShowsStaleVerdict()
    ensures
      var before := [ReadRecord(0)] + WholeStart(0);
      var after := WholeStart(1) + [WorkerOpens(0), WorkerCloses(0, true)];
      var mid := Steps(INITIAL, before);
      var st := Steps(Next(mid, WriteBack(0)), after);
      && AllOrderly(INITIAL, before) && !Orderly(mid, WriteBack(0)) && AllOrderly(Next(mid, WriteBack(0)), after)
      && Polled(st) == Verdict(0) && ShowsEarlier(st)
  {
    ReadThenStart();
    var mid := State(Some([]), None, Some(0), map[0 := None], map[0 := Worker(0, Due)], map[], 1);
    assert mid.workers[0].duty.Due?;
    var lost := Next(mid, WriteBack(0));
    var report := [WorkerOpens(0), WorkerCloses(0, true)];
    WholeStartSteps(lost, 1);
    Reported(Steps(lost, WholeStart(1)), 0);
    StepsJoin(lost, WholeStart(1), report);
    OrderlyJoin(lost, WholeStart(1), report);
  }

  lemma ReadThenStart()
    ensures
      var before := [ReadRecord(0)] + WholeStart(0);
      && Steps(INITIAL, before) ==
         State(Some([]), None, Some(0), map[0 := None], map[0 := Worker(0, Due)], map[], 1)
      && AllOrderly(INITIAL, before)
  {
    var read := Next(INITIAL, ReadRecord(0));
    OneStep(INITIAL, ReadRecord(0));
    assert [ReadRecord(0)][1..] == [];
    assert AllOrderly(INITIAL, [ReadRecord(0)]);
    WholeStartSteps(read, 0);
    StepsJoin(INITIAL, [ReadRecord(0)], WholeStart(0));
    OrderlyJoin(INITIAL, [ReadRecord(0)], WholeStart(0));
  }

  /** Two starts that both pass the check before either records a worker both
      spawn one, with the same end. */
  lemma TwoStartsShowStaleVerdict()
    ensures
      var st := Steps(INITIAL, [Check(0, true), Check(1, true)] + ([Persist(0), Persist(1), Clear(0)]
                               + ([Clear(1), Truncate(0), Spawn(0)] + [WorkerOpens(0), WorkerCloses(0, true)])));
      Polled(st) == Verdict(0) && ShowsEarlier(st)
  {
    var report := [WorkerOpens(0), WorkerCloses(0, true)];
    TwoSteps(INITIAL, Check(0, true), Check(1, true));
    var checked := Start(Checked, None, 0, true);
    var st0 := State(None, None, None, map[], map[], map[0 := checked, 1 := checked], 0);
    assert Steps(INITIAL, [Check(0, true), Check(1, true)]) == st0;
    ThreeSteps(st0, Persist(0), Persist(1), Clear(0));
    var st1 := State(None, None, None, map[], map[],
                     map[0 := Start(Cleared, None, 0, true), 1 := Start(Persisted, None, 0, true)], 1);
    assert Steps(st0, [Persist(0), Persist(1), Clear(0)]) == st1;
    ThreeSteps(st1, Clear(1), Truncate(0), Spawn(0));
    var st2 := Steps(st1, [Clear(1), Truncate(0), Spawn(0)]);
    assert st2.started == 2 && 0 in st2.workers && st2.workers[0].duty.Due?;
    Reported(st2, 0);
    StepsJoin(st1, [Clear(1), Truncate(0), Spawn(0)], report);
    StepsJoin(st0, [Persist(0), Persist(1), Clear(0)], [Clear(1), Truncate(0), Spawn(0)] + report);
    StepsJoin(INITIAL, [Check(0, true), Check(1, true)],
              [Persist(0), Persist(1), Clear(0)] + ([Clear(1), Truncate(0), Spawn(0)] + report));
  }

  // -- the log of one run ---------------------------------------------------------

  /** A write keeps what is there, whatever it writes, exactly when it starts at
      the end or past it. */
  lemma WriteKeepsIff(log: Bytes, offset: nat)
    ensures (forall bytes: Bytes :: log <= WriteAt(log, offset, bytes)) <==> offset >= |log|
  {
    if offset < |log| {
      var other: Bytes := [if log[offset] == 0 then 1 else 0];
      assert WriteAt(log, offset, other)[offset] == other[0];
    } else {
      forall bytes: Bytes ensures log <= WriteAt(log, offset, bytes) {
        assert offset == |log| ==> log[..offset] == log;
      }
    }
  }

  /** At most one worker lives, and it writes at the end of the log. */
  predicate SoleWriter(st: State) {
    && st.log.Some?
    && (forall v, w | v in st.workers && w in st.workers :: v == w)
    && (forall w | w in st.workers :: st.workers[w].offset == |st.log.value|)
  }

  /** No start reaches the log in the meantime. */
  predicate LogUntouched(schedule: seq<Action>) {
    forall a | a in schedule :: !a.Truncate? && !a.Spawn?
  }

  /** A start that empties the log beside no live worker spawns its sole writer. */
  lemma SpawnedIsSole(st: State, id: nat)
    requires Enabled(st, Truncate(id)) && st.workers == map[]
    ensures SoleWriter(Next(Next(st, Truncate(id)), Spawn(id)))
  {
  }

  /** Then the log only grows, over every interleaving, until the next start
      reaches it. */
  lemma {:induction false} SoleLogGrows(st: State, schedule: seq<Action>)
    requires SoleWriter(st) && LogUntouched(schedule)
    ensures SoleWriter(Steps(st, schedule)) && st.log.value <= Steps(st, schedule).log.value
    decreases |schedule|
  {
    if schedule != [] {
      var a := schedule[0];
      assert a in schedule;
      if a.WorkerWrites? && Enabled(st, a) {
        WriteKeepsIff(st.log.value, st.workers[a.run].offset);
      }
      SoleLogGrows(Next(st, a), schedule[1..]);
    }
  }

  /** Beside a live worker it need not: the older worker goes on at its own
      offset, and overwrites what the newer one wrote. */
  lemma StrayOverwrites()
    ensures
      var workers := map[0 := Worker(1, NoVerdict), 1 := Worker(2, NoVerdict)];
      var st := State(Some([7, 7]), None, None, map[], workers, map[], 2);
      !SoleWriter(st) && Next(st, WorkerWrites(0, [9])).log == Some([7, 9])
  {
    var workers := map[0 := Worker(1, NoVerdict), 1 := Worker(2, NoVerdict)];
    assert 0 in workers && 1 in workers;
    assert WriteAt([7, 7], 1, [9]) == [7, 9];
  }

  /** The log's contents at successive polls of one run: it only grows. */
  predicate Grows(logs: seq<Bytes>) {
    forall i | 0 <= i < |logs| - 1 :: logs[i] <= logs[i + 1]
  }

  /** The slices a poller gets by passing each poll's next offset to the next
      one are, end to end, the log as last polled: no gap, no overlap. */
  method TailSlices(logs: seq<Bytes>) returns (slices: seq<Bytes>, next: nat)
    requires Grows(logs)
    ensures |slices| == |logs| && Concat(slices) == (if logs == [] then [] else logs[|logs| - 1])
    ensures next == |Concat(slices)|
  {
    slices, next := [], 0;
    for i := 0 to |logs|
      invariant |slices| == i && next == |Concat(slices)|
      invariant Concat(slices) == if i == 0 then [] else logs[i - 1]
    {
      var slice := Slice(Some(logs[i]), next);
      assert i > 0 ==> logs[i - 1] <= logs[(i - 1) + 1];
      assert (slices + [slice])[..i] == slices;
      slices := slices + [slice];
      next := next + |slice|;
    }
  }

  function Concat(slices: seq<Bytes>): Bytes {
    if slices == [] then [] else Concat(slices[..|slices| - 1]) + slices[|slices| - 1]
  }
}
