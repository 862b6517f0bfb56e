/** The MCP server's `job://` resources and the watches behind its
    subscriptions (src/colab_cli/mcp_server.py). */
module McpResources {
  import opened Options
  import opened JobModels

  // -- URIs ------------------------------------------------------------------

  datatype Resource =
    | JobList
    | RunningList
    | DoneList
    | Record(id: string)
    | Logs(id: string)
    | File(id: string, name: string)

  datatype Dispatch = Reads(resource: Resource) | Invalid

  const PREFIX := "job://"
  const LOGS := "/logs"
  const FILES := "/files/"

  predicate SlashFree(s: string) {
    s != "" && forall i | 0 <= i < |s| :: s[i] != '/'
  }

  /** The URI a resource is listed under. */
  function Print(r: Resource): string {
    match r
    case JobList => "jobs://"
    case RunningList => "jobs://running"
    case DoneList => "jobs://done"
    case Record(id) => PREFIX + id
    case Logs(id) => PREFIX + id + LOGS
    case File(id, name) => PREFIX + id + FILES + name
  }

  predicate StartsWith(s: string, prefix: string) {
    prefix <= s
  }

  predicate EndsWith(s: string, suffix: string) {
    |suffix| <= |s| && s[|s| - |suffix|..] == suffix
  }

  /** `part` occurs in `s` at `k`. */
  predicate At(s: string, part: string, k: nat) {
    k + |part| <= |s| && s[k..k + |part|] == part
  }

  /** Where `part` first occurs in `s` at or after `from`, or one past the
      length. */
  function Find(s: string, part: string, from: nat): (i: nat)
    requires from <= |s| + 1
    ensures from <= i <= |s| + 1
    ensures i <= |s| ==> At(s, part, i)
    ensures forall k | from <= k < i :: !At(s, part, k)
    decreases |s| + 1 - from
  {
    if from > |s| || At(s, part, from) then from else Find(s, part, from + 1)
  }

  predicate Contains(s: string, part: string) {
    Find(s, part, 0) <= |s|
  }

  /** `_job_id_from_uri`. */
  function RecordOf(uri: string): Option<string> {
    if StartsWith(uri, PREFIX) && uri != PREFIX then Some(uri[|PREFIX|..]) else None
  }

  /** `_job_id_from_logs_uri`; the slice is empty when prefix and suffix meet
      or overlap. */
  function LogsOf(uri: string): Option<string> {
    if !StartsWith(uri, PREFIX) || !EndsWith(uri, LOGS) || |uri| <= |PREFIX| + |LOGS| then None
    else Some(uri[|PREFIX|..|uri| - |LOGS|])
  }

  /** `_job_file_from_uri`. */
  function FileOf(uri: string): Option<(string, string)> {
    if !StartsWith(uri, PREFIX) || !Contains(uri, FILES) then None
    else
      var rest := uri[|PREFIX|..];
      var i := Find(rest, FILES, 0);
      if i > |rest| || i == 0 || i + |FILES| == |rest| then None
      else Some((rest[..i], rest[i + |FILES|..]))
  }

  /** `on_read_resource`: which reader a URI goes to, and what it reads. */
  function DispatchUri(uri: string): Dispatch {
    if uri == "jobs://" then Reads(JobList)
    else if uri == "jobs://running" then Reads(RunningList)
    else if uri == "jobs://done" then Reads(DoneList)
    else if FileOf(uri).Some? then Reads(File(FileOf(uri).value.0, FileOf(uri).value.1))
    else if EndsWith(uri, LOGS) then (if LogsOf(uri).Some? then Reads(Logs(LogsOf(uri).value)) else Invalid)
    else if RecordOf(uri).Some? then Reads(Record(RecordOf(uri).value))
    else Invalid
  }

  predicate Named(r: Resource) {
    match r
    case Record(id) => SlashFree(id)
    case Logs(id) => SlashFree(id)
    case File(id, name) => SlashFree(id) && SlashFree(name)
    case _ => true
  }

  lemma SlashesAt(s: string, k: nat)
    requires At(s, FILES, k)
    ensures s[k] == '/' && s[k + 6] == '/'
  {
    assert s[k..k + 7][0] == s[k] && s[k..k + 7][6] == s[k + 6];
  }

  /** A text with at most one slash, at `at`, has no place for the files
      infix, which has two. */
  lemma NoFiles(rest: string, at: nat)
    requires forall i | 0 <= i < |rest| && i != at :: rest[i] != '/'
    ensures Find(rest, FILES, 0) > |rest|
  {
    forall k: nat | k <= |rest| ensures !At(rest, FILES, k) {
      if At(rest, FILES, k) {
        SlashesAt(rest, k);
      }
    }
  }

  lemma FileReadsBack(id: string, name: string)
    requires SlashFree(id) && SlashFree(name)
    ensures FileOf(Print(File(id, name))) == Some((id, name))
  {
    var uri := Print(File(id, name));
    var rest := id + FILES + name;
    assert uri == PREFIX + rest && uri[|PREFIX|..] == rest;
    assert At(uri, FILES, |PREFIX| + |id|);
    assert At(rest, FILES, |id|);
    assert forall k | 0 <= k < |id| :: rest[k] == id[k];
    forall k: nat | k < |id| ensures !At(rest, FILES, k) {
      if At(rest, FILES, k) {
        SlashesAt(rest, k);
      }
    }
    assert Find(rest, FILES, 0) == |id|;
    assert rest[..|id|] == id && rest[|id| + |FILES|..] == name;
  }

  lemma LogsReadBack(id: string)
    requires SlashFree(id)
    ensures FileOf(Print(Logs(id))).None? && EndsWith(Print(Logs(id)), LOGS) && LogsOf(Print(Logs(id))) == Some(id)
  {
    var uri := Print(Logs(id));
    var rest := id + LOGS;
    assert uri[|PREFIX|..] == rest;
    NoFiles(rest, |id|);
    assert uri[|uri| - |LOGS|..] == LOGS;
    assert uri[|PREFIX|..|uri| - |LOGS|] == id;
  }

  lemma RecordReadsBack(id: string)
    requires SlashFree(id)
    ensures FileOf(Print(Record(id))).None? && RecordOf(Print(Record(id))) == Some(id)
    ensures EndsWith(Print(Record(id)), LOGS) <==> id == "logs"
    ensures id == "logs" ==> LogsOf(Print(Record(id))).None?
  {
    var uri := Print(Record(id));
    assert uri[|PREFIX|..] == id;
    NoFiles(id, |id|);
    assert forall k | 6 <= k < |uri| :: uri[k] == id[k - 6];
    if EndsWith(uri, LOGS) {
      var at := |uri| - |LOGS|;
      assert uri[at] == uri[at..][0] == '/' && uri[at + 1] == uri[at..][1] == 'l';
      assert uri[2] == 'b' && uri[3] == ':' && uri[5] == '/';
      assert at == 5;
      assert id == uri[at..][1..] == LOGS[1..];
    }
    if id == "logs" {
      assert uri[|uri| - |LOGS|..] == LOGS;
    }
  }

  /** Reading a listed URI reads the resource it was listed for, for every
      resource but one: the record of a job whose id is "logs" goes to the
      logs reader, which refuses it. */
  lemma DispatchReadsBackIff(r: Resource)
    requires Named(r)
    ensures DispatchUri(Print(r)) == Reads(r) <==> r != Record("logs")
    ensures DispatchUri(Print(Record("logs"))) == Invalid
  {
    RecordReadsBack("logs");
    PrefixesDiffer("logs");
    match r {
      case Record(id) => RecordReadsBack(id); PrefixesDiffer(id);
      case Logs(id) => LogsReadBack(id); PrefixesDiffer(id + LOGS);
      case File(id, name) => FileReadsBack(id, name); PrefixesDiffer(id + FILES + name);
      case _ =>
    }
  }

  lemma PrefixesDiffer(rest: string)
    ensures PREFIX + rest != "jobs://" && PREFIX + rest != "jobs://running" && PREFIX + rest != "jobs://done"
  {
    assert (PREFIX + rest)[3] == ':';
    assert "jobs://"[3] == 's' && "jobs://running"[3] == 's' && "jobs://done"[3] == 's';
  }

  // -- watches ---------------------------------------------------------------

  /** What one tick of a watch finds of the job's record. */
  datatype Tick = Unreadable | NoRecord | Seen(workload: Workload, done: bool)

  datatype Notice = WorkloadChanged(at: nat) | JobDone(at: nat)

  predicate Changed(t: Tick) {
    t.Seen? && !t.done && t.workload != Workload.Pending
  }

  predicate SeenDone(t: Tick) {
    t.Seen? && t.done
  }

  /** The first tick that satisfies what `done` asks for, or the length. */
  function FirstTick(ticks: seq<Tick>, done: bool): (i: nat)
    ensures i <= |ticks|
    ensures i < |ticks| ==> (if done then SeenDone(ticks[i]) else Changed(ticks[i]))
    ensures forall k | 0 <= k < i :: !(if done then SeenDone(ticks[k]) else Changed(ticks[k]))
  {
    if ticks == [] || (if done then SeenDone(ticks[0]) else Changed(ticks[0])) then 0
    else 1 + FirstTick(ticks[1..], done)
  }

  /** What a watch should say of these ticks: that the workload changed, once,
      if the watch began before it did and before the job was seen done; and
      that the job is done, once, when it is first seen. */
  function Due(pending: bool, ticks: seq<Tick>): seq<Notice> {
    var d := FirstTick(ticks, true);
    var w := FirstTick(ticks, false);
    (if pending && w < d then [WorkloadChanged(w)] else []) + (if d < |ticks| then [JobDone(d)] else [])
  }

  /** `_watch`, over the ticks it lives to see; `gone` says at which tick the
      client is found gone, where a notice fails and the watch stops. */
  method Watch(pending: bool, ticks: seq<Tick>, gone: nat) returns (sent: seq<Notice>)
    ensures sent <= Due(pending, ticks)
    ensures gone >= |ticks| ==> sent == Due(pending, ticks)
    ensures forall n | n in sent :: n.at < gone
    ensures sent != Due(pending, ticks) ==> Due(pending, ticks)[|sent|].at >= gone
  {
    sent := [];
    ghost var d, w := FirstTick(ticks, true), FirstTick(ticks, false);
    var notified := !pending;
    for i := 0 to |ticks|
      invariant i <= d
      invariant sent == if pending && w < i then [WorkloadChanged(w)] else []
      invariant notified <==> !pending || w < i
      invariant pending && w < i ==> w < gone
    {
      if ticks[i].Seen? {
        if ticks[i].done {
          assert d == i;
          if i >= gone {
            return;
          }
          sent := sent + [JobDone(i)];
          return;
        }
        if !notified && ticks[i].workload != Workload.Pending {
          assert w == i;
          if i >= gone {
            return;
          }
          sent := sent + [WorkloadChanged(i)];
          notified := true;
        }
      }
    }
  }

  /** A watch says at most two things, and the last of them that the job is
      done; a job seen done is said to be done exactly once. */
  lemma DueIsShort(pending: bool, ticks: seq<Tick>)
    ensures |Due(pending, ticks)| <= 2
    ensures forall i, j | 0 <= i < j < |Due(pending, ticks)| ::
              Due(pending, ticks)[i].WorkloadChanged? && Due(pending, ticks)[j].JobDone?
              && Due(pending, ticks)[i].at < Due(pending, ticks)[j].at
    ensures (exists t | t in ticks :: SeenDone(t)) <==> (exists n | n in Due(pending, ticks) :: n.JobDone?)
  {
    var d := FirstTick(ticks, true);
    if d < |ticks| {
      assert ticks[d] in ticks && JobDone(d) in Due(pending, ticks);
    }
  }

  /** The subscriptions of one server: at most one watch a URI, with whether
      its workload change is still to be reported. */
  class Subscriptions {
    var pending: map<string, bool>

    constructor ()
      ensures pending == map[]
    {
      pending := map[];
    }

    /** `subscribe`: lists, logs and files are accepted without a watch; a job
        already done has nothing left to report; a watch already there is
        restarted from what the record says now. A record that cannot be read
        raises, and a watch already there goes on. */
    method Subscribe(uri: string, record: Tick) returns (accepted: bool)
      modifies this
      ensures accepted <==>
                || uri in {"jobs://", "jobs://running", "jobs://done"} || EndsWith(uri, LOGS)
                || FileOf(uri).Some? || (RecordOf(uri).Some? && !record.Unreadable?)
      ensures Watchable(uri) && !record.Unreadable? && !SeenDone(record) ==>
                pending == old(pending)[uri := record.NoRecord? || record.workload == Workload.Pending]
      ensures !Watchable(uri) || record.Unreadable? || SeenDone(record) ==> pending == old(pending)
    {
      if || uri == "jobs://" || uri == "jobs://running" || uri == "jobs://done"
         || EndsWith(uri, LOGS) || FileOf(uri).Some?
      {
        return true;
      }
      if RecordOf(uri).None? || record.Unreadable? {
        return false;
      }
      if !SeenDone(record) {
        Unsubscribe(uri);
        pending := pending[uri := record.NoRecord? || record.workload == Workload.Pending];
      }
      return true;
    }

    method Unsubscribe(uri: string)
      modifies this
      ensures pending == old(pending) - {uri}
    {
      pending := pending - {uri};
    }
  }

  predicate Watchable(uri: string) {
    && uri != "jobs://" && uri != "jobs://running" && uri != "jobs://done"
    && !EndsWith(uri, LOGS) && FileOf(uri).None? && RecordOf(uri).Some?
  }

  /** A subscription to a job's record is watched, for every job id but
      "logs". */
  lemma RecordIsWatchableIff(id: string)
    requires SlashFree(id)
    ensures Watchable(Print(Record(id))) <==> id != "logs"
  {
    RecordReadsBack(id);
    PrefixesDiffer(id);
  }

  // -- the job list ------------------------------------------------------------

  /** Where a listing differs from the last one read before it. */
  function Changes(known: set<string>, listings: seq<Option<set<string>>>): nat
    decreases |listings|
  {
    if listings == [] then 0
    else if listings[0].None? || listings[0].value == known then Changes(known, listings[1..])
    else 1 + Changes(listings[0].value, listings[1..])
  }

  function LastKnown(known: set<string>, listings: seq<Option<set<string>>>): set<string>
    decreases |listings|
  {
    if listings == [] then known
    else LastKnown(if listings[0].Some? then listings[0].value else known, listings[1..])
  }

  lemma {:induction false} ListingSnoc(known: set<string>, listings: seq<Option<set<string>>>,
                                       next: Option<set<string>>)
    ensures LastKnown(known, listings + [next]) == if next.Some? then next.value else LastKnown(known, listings)
    ensures Changes(known, listings + [next]) ==
            Changes(known, listings) + (if next.Some? && next.value != LastKnown(known, listings) then 1 else 0)
    decreases |listings|
  {
    if listings == [] {
    } else {
      assert (listings + [next])[1..] == listings[1..] + [next];
      ListingSnoc(if listings[0].Some? then listings[0].value else known, listings[1..], next);
    }
  }

  /** `JobListWatcher`: one notice for every change between successive
      readable listings, none for a listing that cannot be read, and what it
      knows is always the last one read. */
  class ListWatcher {
    var known: set<string>
    var notices: nat
    ghost const first: set<string>
    ghost var seen: seq<Option<set<string>>>

    constructor (listing: set<string>)
      ensures Valid() && seen == [] && first == listing
    {
      known, notices, first, seen := listing, 0, listing, [];
    }

    ghost predicate Valid()
      reads this
    {
      known == LastKnown(first, seen) && notices == Changes(first, seen)
    }

    method Look(listing: Option<set<string>>)
      requires Valid()
      modifies this
      ensures Valid() && seen == old(seen) + [listing]
    {
      ListingSnoc(first, seen, listing);
      seen := seen + [listing];
      if listing.Some? && listing.value != known {
        known, notices := listing.value, notices + 1;
      }
    }
  }
}
