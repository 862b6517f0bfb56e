/** What a runner result means for the caller's next action
    (src/colab_cli/job/verdict.py). Reasons keep who failed, not the wording. */
module Verdicts {
  import opened Options
  import opened JobModels

  /** A transfer's retry class: by HTTP status when there was a response,
      otherwise by the runner's category. */
  function TransferRetry(e: TransferError, put: bool): RetryClass {
    if e.httpStatus.Some? then
      var status := e.httpStatus.value;
      if status == 401 || status == 403 then RefreshUrls
      else if status == 404 then (if put then RefreshUrls else FixCode)
      else if status == 408 || status == 429 || 500 <= status < 600 then RetrySame
      else if 400 <= status < 500 then FixCode
      else RetrySame
    else if e.category.Checksum? || e.category.Size? || e.category.Local? then FixCode
    else if e.category.Blocked? then FixHuman
    else if e.category.Setup? then DoNotRetry
    else RetrySame
  }

  /** A failed assign's retry class. */
  function AssignRetry(status: Option<int>, network: bool): RetryClass {
    if status.Some? then
      if status.value == 400 || status.value == 401 || status.value == 403 then FixHuman
      else if status.value == 408 || status.value == 429 then RetrySame
      else RetryDifferent
    else if network then RetrySame else DoNotRetry
  }

  /** Position in the order do_not_retry, fix_human, fix_code,
      retry_different, refresh_urls, retry_same. */
  function Rank(c: RetryClass): nat {
    match c
    case DoNotRetry => 0
    case FixHuman => 1
    case FixCode => 2
    case RetryDifferent => 3
    case RefreshUrls => 4
    case RetrySame => 5
  }

  /** The strongest of several classes: one of them, none stronger. */
  function Strongest(classes: seq<RetryClass>): (r: Option<RetryClass>)
    ensures r.None? <==> classes == []
    ensures r.Some? ==> r.value in classes
    ensures r.Some? ==> forall c | c in classes :: Rank(r.value) <= Rank(c)
  {
    if classes == [] then None else
    var rest := Strongest(classes[1..]);
    if rest.Some? && Rank(rest.value) < Rank(classes[0]) then rest else Some(classes[0])
  }

  /** The workload's own part of the verdict: whether it gives a reason, and
      its class. */
  function WorkloadOutcome(r: RunnerResult): (bool, Option<RetryClass>)
    requires r.workload.Some?
  {
    match r.workload.value
    case Succeeded => (false, None)
    case Cancelled => (true, if r.cancelledBy == Some(WallClock) then Some(FixCode) else None)
    case Unknown => (true, Some(DoNotRetry))
    case _ => (true, Some(FixCode))
  }

  predicate FailedWithError(i: InputResult) {
    i.failed && i.error.Some?
  }

  /** The first input that failed with an error record. */
  function FirstFailed(inputs: seq<InputResult>): Option<InputResult> {
    if inputs == [] then None
    else if FailedWithError(inputs[0]) then Some(inputs[0])
    else FirstFailed(inputs[1..])
  }

  /** A staging failure: the consumer never ran. */
  function StageOutcome(inputs: seq<InputResult>): (Reason, RetryClass) {
    match FirstFailed(inputs)
    case Some(i) =>
      (StagingFailed(Some(i.dest)), if i.error.Some? then TransferRetry(i.error.value, false) else DoNotRetry)
    case None => (StagingFailed(None), DoNotRetry)
  }

  /** The status recorded for `path`: the last row wins, a path with no row
      was not produced. */
  function StatusOf(rows: seq<ArtifactResult>, path: string): ArtifactStatus {
    if rows == [] then NotProduced
    else if rows[|rows| - 1].path == path then rows[|rows| - 1].status
    else StatusOf(rows[..|rows| - 1], path)
  }

  predicate RequiredMissing(declared: seq<ArtifactItem>, rows: seq<ArtifactResult>) {
    exists d | d in declared :: d.required && StatusOf(rows, d.path) == NotProduced
  }

  predicate SomeUploadFailed(rows: seq<ArtifactResult>) {
    exists a | a in rows :: a.status == NotSent
  }

  /** The classes of the failed uploads, in row order. */
  function UploadClasses(rows: seq<ArtifactResult>): (classes: seq<RetryClass>)
    ensures classes == [] <==> !SomeUploadFailed(rows)
  {
    if rows == [] then []
    else
      var rest := UploadClasses(rows[1..]);
      assert rows == [rows[0]] + rows[1..];
      if rows[0].status != NotSent then rest
      else [if rows[0].error.None? then RetrySame else TransferRetry(rows[0].error.value, true)] + rest
  }

  /** The classes of everything that went wrong with the offload. */
  function OffloadClasses(declared: seq<ArtifactItem>, rows: seq<ArtifactResult>, startFailed: bool): seq<RetryClass> {
    (if startFailed then [DoNotRetry] else [])
    + (if RequiredMissing(declared, rows) then [FixCode] else [])
    + UploadClasses(rows)
  }

  /** Offload's state and class for a run that reached offload. */
  function OffloadOutcome(declared: seq<ArtifactItem>, rows: seq<ArtifactResult>, remoteFailed: bool,
                          startFailed: bool):
    (Offload, Option<RetryClass>)
  {
    var classes := OffloadClasses(declared, rows, startFailed);
    if classes != [] then (Offload.Failed, Strongest(classes))
    else if remoteFailed then (Offload.Failed, Some(RetrySame))
    else (Offload.Ok, None)
  }

  /** Offload is ok exactly when nothing went wrong, and only a failed one
      carries a class. */
  lemma OffloadOkIff(declared: seq<ArtifactItem>, rows: seq<ArtifactResult>, remoteFailed: bool, startFailed: bool)
    ensures
      var (state, retry) := OffloadOutcome(declared, rows, remoteFailed, startFailed);
      && state.Terminal()
      && (state == Offload.Ok <==>
          !startFailed && !RequiredMissing(declared, rows) && !SomeUploadFailed(rows) && !remoteFailed)
      && (state == Offload.Failed <==> retry.Some?)
  {
    var classes := OffloadClasses(declared, rows, startFailed);
    if startFailed {
      assert classes[0] == DoNotRetry;
    }
    if RequiredMissing(declared, rows) {
      assert classes[if startFailed then 1 else 0] == FixCode;
    }
  }

  /** The class of a failed offload is one of those that apply and outranks
      the rest: a start failure outranks everything, a missing artifact every
      upload that can be retried, and each failed upload has its say. */
  lemma OffloadClassIsStrongest(declared: seq<ArtifactItem>, rows: seq<ArtifactResult>, remoteFailed: bool,
                                startFailed: bool,
                                c: RetryClass)
    requires OffloadOutcome(declared, rows, remoteFailed, startFailed).1.Some?
    requires
      || (startFailed && c == DoNotRetry)
      || (RequiredMissing(declared, rows) && c == FixCode)
      || c in UploadClasses(rows)
    ensures
      var retry := OffloadOutcome(declared, rows, remoteFailed, startFailed).1.value;
      Rank(retry) <= Rank(c) && retry in OffloadClasses(declared, rows, startFailed)
  {
    var classes := OffloadClasses(declared, rows, startFailed);
    assert c in classes by {
      ClassApplies(declared, rows, startFailed, c);
    }
  }

  lemma ClassApplies(declared: seq<ArtifactItem>, rows: seq<ArtifactResult>, startFailed: bool, c: RetryClass)
    requires
      || (startFailed && c == DoNotRetry)
      || (RequiredMissing(declared, rows) && c == FixCode)
      || c in UploadClasses(rows)
    ensures c in OffloadClasses(declared, rows, startFailed)
  {
    var classes := OffloadClasses(declared, rows, startFailed);
    if startFailed {
      assert classes[0] == DoNotRetry;
    }
    if RequiredMissing(declared, rows) {
      assert classes[if startFailed then 1 else 0] == FixCode;
    }
    if c in UploadClasses(rows) {
      var i :| 0 <= i < |UploadClasses(rows)| && UploadClasses(rows)[i] == c;
      assert classes[|classes| - |UploadClasses(rows)| + i] == c;
    }
  }
}
