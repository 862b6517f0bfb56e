/** What a job command talks to: Colab's assignment server, the local job
    record, and the VM seen through the Contents transport. Every answer the
    code cannot predict is a nondeterministic choice within the contract. */
module World {
  import opened Options
  import opened JobModels
  import opened Absorb

  /** How a step of a command ended: normally, with a phase failure, with
      another exception, with a caught signal, or with the process gone. */
  datatype Step =
    | Fine
    | PhaseError(phase: Phase, retryClass: Option<RetryClass>)
    | Internal
    | Signalled(how: Sig)
    | Killed
  {
    predicate IsFailure() {
      !Fine?
    }
  }

  /** A caught signal, an exception nobody foresaw or the end of the process,
      where any of them can strike. */
  method Tick() returns (s: Step)
    ensures !s.PhaseError?
  {
    s := *;
    if s.PhaseError? {
      s := Fine;
    }
  }

  /** A caught signal or an exception, where the end of the process is not
      considered. */
  method TickCaught() returns (s: Step)
    ensures !s.PhaseError? && !s.Killed?
  {
    s := *;
    if s.PhaseError? || s.Killed? {
      s := Fine;
    }
  }

  // -- the assignment server ---------------------------------------------

  datatype AssignReply =
    | Granted(endpoint: nat, accelerator: Accelerator)
    | LimitReached(limitStatus: Option<int>)
    | Refused(status: Option<int>, network: bool)

  datatype UnassignReply = Released | NotFound | Errored

  datatype Call =
    | AssignCall(assign: AssignReply)
    | UnassignCall(endpoint: nat, unassign: UnassignReply)
    | ListCall(listing: Option<set<nat>>)

  /** Endpoints are fresh and never reused; Colab may reclaim any VM at any
      time, so between calls the set of assignments only shrinks. */
  class Server {
    var assignments: set<nat>
    var issued: nat
    ghost var calls: seq<Call>

    constructor ()
      ensures Valid() && assignments == {} && issued == 0
    {
      assignments, issued, calls := {}, 0, [];
    }

    ghost predicate Valid()
      reads this
    {
      forall e | e in assignments :: e < issued
    }

    method Reclaim()
      requires Valid()
      modifies this`assignments
      ensures Valid() && assignments <= old(assignments)
    {
      var kept: set<nat> := *;
      assignments := assignments * kept;
    }

    method Assign() returns (reply: AssignReply)
      requires Valid()
      modifies this
      ensures Valid() && old(issued) <= issued
      ensures reply.Granted? ==> reply.endpoint == old(issued) && issued == old(issued) + 1
      ensures reply.Granted? ==> assignments <= old(assignments) + {reply.endpoint}
      ensures !reply.Granted? ==> issued == old(issued) && assignments <= old(assignments)
      ensures calls == old(calls) + [AssignCall(reply)]
    {
      Reclaim();
      reply := *;
      if reply.Granted? {
        reply := AssignReply.Granted(issued, reply.accelerator);
        assignments := assignments + {issued};
        issued := issued + 1;
      }
      calls := calls + [AssignCall(reply)];
    }

    /** A confirmed unassign removes the endpoint; a 404 or an error proves
        nothing, and an error may hide a release that happened. */
    method Unassign(endpoint: nat) returns (reply: UnassignReply)
      requires Valid()
      modifies this
      ensures Valid() && issued == old(issued) && assignments <= old(assignments)
      ensures reply.Released? ==> endpoint !in assignments
      ensures calls == old(calls) + [UnassignCall(endpoint, reply)]
    {
      Reclaim();
      reply := *;
      var happened: bool := *;
      if reply.Released? || (reply.Errored? && happened) {
        assignments := assignments - {endpoint};
      }
      calls := calls + [UnassignCall(endpoint, reply)];
    }

    method ListAssignments() returns (listing: Option<set<nat>>)
      requires Valid()
      modifies this
      ensures Valid() && issued == old(issued) && assignments <= old(assignments)
      ensures listing.Some? ==> assignments == listing.value
      ensures calls == old(calls) + [ListCall(listing)]
    {
      Reclaim();
      var answered: bool := *;
      listing := if answered then Some(assignments) else None;
      calls := calls + [ListCall(listing)];
    }
  }

  /** What a release attempt found, from the server's own answers. */
  function ReleaseVerdict(endpoint: nat, reply: UnassignReply, listing: Option<set<nat>>): Cleanup {
    match reply
    case Released => Cleanup.Released
    case NotFound => if listing.Some? && endpoint !in listing.value then Cleanup.AlreadyAbsent else Cleanup.Failed
    case Errored => Cleanup.Failed
  }

  /** `later` is `earlier` followed by one release attempt of `endpoint` that
      ended in `outcome`: a single unassign, and a listing only after a 404. */
  ghost predicate ReleaseAttempt(earlier: seq<Call>, later: seq<Call>, endpoint: nat, outcome: Cleanup) {
    exists reply: UnassignReply, listing: Option<set<nat>> ::
      && later == earlier + [UnassignCall(endpoint, reply)] + (if reply.NotFound? then [ListCall(listing)] else [])
      && outcome == ReleaseVerdict(endpoint, reply, listing)
  }

  /** `release_assignment`: only a confirmed unassign, or a 404 that the
      assignment listing confirms, says the VM is gone. Never raises. */
  method ReleaseAssignment(server: Server, endpoint: nat) returns (outcome: Cleanup)
    requires server.Valid()
    modifies server
    ensures server.Valid() && server.issued == old(server.issued) && server.assignments <= old(server.assignments)
    ensures outcome.Gone() || outcome.Failed?
    ensures outcome.Gone() ==> endpoint !in server.assignments
    ensures ReleaseAttempt(old(server.calls), server.calls, endpoint, outcome)
  {
    ghost var before := server.calls;
    var reply := server.Unassign(endpoint);
    var listing := None;
    outcome := Cleanup.Failed;
    match reply {
      case Released =>
        outcome := Cleanup.Released;
      case NotFound =>
        listing := server.ListAssignments();
        if listing.Some? && endpoint !in listing.value {
          outcome := Cleanup.AlreadyAbsent;
        }
      case Errored =>
    }
    assert server.calls ==
           before + [UnassignCall(endpoint, reply)] + (if reply.NotFound? then [ListCall(listing)] else []);
    assert outcome == ReleaseVerdict(endpoint, reply, listing);
  }

  // -- the local job record ----------------------------------------------

  /** How often a written history goes from not done to done. */
  function DoneEdges(written: seq<JobEnvelope>): nat {
    var n := |written|;
    if n == 0 then 0
    else DoneEdges(written[..n - 1]) + (if written[n - 1].Done() && (n == 1 || !written[n - 2].Done()) then 1 else 0)
  }

  /** One job's directory: envelope.json and the outcome events of
      events.jsonl. `owned` is the ledger of every endpoint ever granted to
      the job, `written` every envelope the record has held, and `lostEvents`
      how often the process died between an envelope and its event. */
  class JobStore {
    var envelope: Option<JobEnvelope>
    var outcomes: seq<JobEnvelope>
    ghost var owned: set<nat>
    ghost var written: seq<JobEnvelope>
    ghost var lostEvents: nat

    constructor ()
      ensures Valid() && envelope == None && owned == {}
    {
      envelope, outcomes, owned, written, lostEvents := None, [], {}, [], 0;
    }

    /** Each not-done to done edge on disk has appended exactly one outcome
        event, save those whose process died in between. */
    ghost predicate Valid()
      reads this
    {
      && envelope == (if written == [] then None else Some(written[|written| - 1]))
      && |outcomes| + lostEvents == DoneEdges(written)
    }

    method WriteEnvelope(e: JobEnvelope) returns (s: Step)
      requires Valid()
      modifies this`envelope, this`outcomes, this`written, this`lostEvents
      ensures Valid()
      ensures s.Fine? || s.Killed?
      ensures envelope == Some(e) && written == old(written) + [e]
      ensures lostEvents == old(lostEvents) + (if s.Killed? then 1 else 0)
    {
      var wasDone := e.Done() && envelope.Some? && envelope.value.Done();
      ghost var before := written;
      envelope := Some(e);
      written := before + [e];
      assert written[..|written| - 1] == before;
      if e.Done() && !wasDone {
        var dies: bool := *;
        if dies {
          lostEvents := lostEvents + 1;
          return Killed;
        }
        outcomes := outcomes + [e];
      }
      return Fine;
    }

    /** `delete_job`: the whole directory goes; when something stops that, the
        record may be gone or not. A record's history goes with it. */
    method Delete() returns (gone: bool)
      requires Valid()
      modifies this
      ensures Valid() && owned == old(owned)
      ensures gone ==> envelope == None
      ensures envelope == old(envelope) || envelope == None
    {
      gone := *;
      var recordGone: bool := *;
      if gone || recordGone {
        envelope, outcomes, written, lostEvents := None, [], [], 0;
      }
    }
  }

  /** The job's VMs that the server still holds. */
  ghost function Live(server: Server, store: JobStore): set<nat>
    reads server, store
  {
    store.owned * server.assignments
  }

  /** Release soundness on disk: every VM of the job the server still holds
      is the one the record points at, and a record that says the VM is gone
      is right. */
  ghost predicate Safe(server: Server, store: JobStore)
    reads server, store
  {
    && (forall e | e in store.owned :: e < server.issued)
    && match store.envelope
       case None => Live(server, store) == {}
       case Some(e) => Live(server, store) <= e.Held() && (e.cleanup.Gone() ==> Live(server, store) == {})
  }

  // -- the VM through the Contents transport -------------------------------

  datatype ReadStatus = Ok | NotFound | DegradedRead | SessionLost

  datatype File = ResultFile | LaunchFile | WatchdogFile

  /** One read: when, in which poll, of what, and the answer. */
  datatype Read = Read(at: nat, poll: nat, file: File, status: ReadStatus, runnerAlive: Option<bool>)

  /** When the runner wrote launch.json, then result.json, then exited. */
  datatype Timeline = Timeline(launchAt: Option<nat>, resultAt: Option<nat>, exitAt: Option<nat>) {
    predicate Ordered() {
      && (resultAt.Some? ==> launchAt.Some? && launchAt.value <= resultAt.value)
      && (resultAt.Some? && exitAt.Some? ==> resultAt.value <= exitAt.value)
    }

    predicate Exists(file: File, at: nat) {
      match file
      case ResultFile => resultAt.Some? && resultAt.value <= at
      case LaunchFile => launchAt.Some? && launchAt.value <= at
      case WatchdogFile => true
    }

    /** No read fabricates a file, and the watchdog reports the runner dead
        only after it exited. */
    predicate Possible(r: Read) {
      && (r.status.Ok? ==> Exists(r.file, r.at))
      && (r.runnerAlive == Some(false) ==> r.file.WatchdogFile? && r.status.Ok? && exitAt.Some? && exitAt.value <= r.at)
    }

    /** A read that told the truth about its file. */
    predicate Honest(r: Read) {
      r.status.Ok? || (r.status.NotFound? && !Exists(r.file, r.at))
    }
  }

  /** The job's VM: a runner on its timeline, whose verdict is terminal when
      this CLI can read it, and the log of every read made of its files. */
  class Vm {
    const runner: Timeline
    const result: RunnerResult
    var now: nat
    var polls: nat
    ghost var log: seq<Read>

    constructor (runner: Timeline, result: RunnerResult)
      requires runner.Ordered()
      requires Readable(result) ==> TerminalResult(result)
      ensures Valid()
    {
      this.runner, this.result := runner, result;
      now, polls, log := 0, 0, [];
    }

    ghost predicate Valid()
      reads this
    {
      && runner.Ordered()
      && (Readable(result) ==> TerminalResult(result))
      && (forall i | 0 <= i < |log| :: runner.Possible(log[i]) && log[i].at <= now && log[i].poll <= polls)
    }

    method Pass(atLeast: nat)
      requires Valid()
      modifies this`now
      ensures Valid() && now >= old(now) + atLeast
    {
      var more: int := *;
      now := now + atLeast + (if more > 0 then more else 0);
    }

    method BeginPoll()
      requires Valid()
      modifies this`polls
      ensures Valid() && polls == old(polls) + 1
    {
      polls := polls + 1;
    }

    /** `JobTransport.read_json`, the answer classified. */
    method ReadJson(file: File) returns (status: ReadStatus, runnerAlive: Option<bool>)
      requires Valid()
      modifies this`now, this`log
      ensures Valid() && now >= old(now)
      ensures log == old(log) + [Read(now, polls, file, status, runnerAlive)]
      ensures status.Ok? ==> runner.Exists(file, now)
    {
      Pass(0);
      status, runnerAlive := *, *;
      if status.Ok? && !runner.Exists(file, now) {
        status := ReadStatus.NotFound;
      }
      if || !file.WatchdogFile? || !status.Ok?
         || (runnerAlive == Some(false) && (runner.exitAt.None? || now < runner.exitAt.value))
      {
        runnerAlive := None;
      }
      log := log + [Read(now, polls, file, status, runnerAlive)];
    }
  }

  /** `fetch_control_result`: what the runner PUT off the VM, if anything. */
  method FetchControlResult() returns (fetched: Option<RunnerResult>)
  {
    fetched := *;
  }
}
