# Verification of mighty-colab's job lifecycle and its self-contained cores

This Dafny project models the unattended `job` lifecycle of the command line
client and the pieces around it, and proves what they promise. `dafny verify
dfyconfig.toml` checks all of it.

The lifecycle is a crash-tolerant protocol between a local supervisor, a
durable record on disk, Colab's assignment server, and a runner on the VM that
is seen only through the files it writes.

- `JobModels`, `Verdicts` and `Absorb` hold the job spec, the runner's result,
  the envelope with its four orthogonal states, and what a result means.
- `World` is what a command talks to: the server, whose endpoints are fresh and
  whose VMs Colab may reclaim at any time; the job record, with the ledger of
  every endpoint ever granted to the job; and the VM, a runner on a timeline
  seen through reads that may fail or lie by omission. A step that the process
  can die in, that a signal can strike, or that can raise, is a nondeterministic
  choice.
- `RunnerWatching`, `Watchdog`, `Orchestration` and `ApplyCommand` are `job
  apply`: provision, launch, poll, absorb and cleanup, then the try, except and
  finally structure around them.
- `JobCommands`, `DestroyCommand` and `JobHistory` are `job status`, `job
  destroy` and `jobs prune`, and every run of all commands one after another.

The self-contained cores are `Urls` and `PlanStore` (plans saved without their
signed URLs), `CredentialScan` (the scan of code files), `AnsiStream` (stripping
a stream), `SyncPaths`, `SyncLinks` and `SyncInstall` (symlinks, their check and
the atomic install), `McpResources` (URIs and watches), `Contents` and `Staging`
(uploads), `BackgroundExec`, `KeepAlive` and `UrlExpiry`.

Some promises do not hold of the code in every case. There the model follows
the code, a lemma gives the case, and another says exactly when the promise
holds:

- a failed result without a known phase is read by the phase the envelope was
  in (`VerdictIgnoresHistoryIff`), and a result with a phase this CLI does not
  know adds its hint again (`AbsorbIdempotentIff`);
- a run cut off by the deadline is documented as always failed; a verdict
  fetched from the control channel keeps its own outcome instead, so the run
  counts as failed exactly when a result was collected from the VM, none could
  be absorbed, something failed before, or that verdict says so
  (`CancelAfterDeadline`, `FetchedVerdictPassesIff`; a succeeded control.result
  is the case in `DeadlineCanEndOk`);
- the status read can miss a verdict (`ObserveMissesVerdictIff`,
  `ObserveCanMissVerdict`);
- the ANSI stream, documented to hold back only what a sequence could complete,
  also holds back a line that ends in an unfinished sequence
  (`HeldBackIsCompletableIff`, `HoldsBackALine`);
- a signed URL whose text, or whose identity, does not split is saved under a
  reference nothing recognises (`ReferenceRecognisedIff`; the cases are
  `BracketedNameIsUnrecognised` and `UnsplitIsUnrecognised`): alone in a plan it
  loads as that reference, beside recognised ones it makes the plan refused
  (`RoundTripsIff`, `OwnSidecarLoadsIff`, `UnrecognisedLoadsAsReference`), and
  the saved plan's hash differs (`IdentityKeptIff`);
- the record of a job called "logs" cannot be read or watched
  (`DispatchReadsBackIff`);
- a poll of a background run can show an earlier run's verdict
  (`ShowsEarlierIff`, `ClearProtectsIff`): after a start that stopped between
  spawning and recording its worker (`StrayShowsStaleVerdict`), after two starts
  at once (`TwoStartsShowStaleVerdict`), and after another holder of the session
  record wrote back the pid it had read before a start recorded its worker
  (`WriteBackShowsStaleVerdict`); the start's own check is enough exactly when
  every live worker with a verdict to begin is the recorded one
  (`CheckSufficesIff`, `WriteBackHarmlessIff`), which orderly starts and timely
  write-backs keep (`OrderlyNeverStale`, `TimelyNeverStale`);
- two workers alive on one log overwrite each other (`WriteKeepsIff`,
  `StrayOverwrites`), and the keep-alive counter miscounts where another holder
  writes the record back (`CounterCountsIff`, `OverwrittenMiscounts`);
- a link that passes the check of the staged tree can lead outside once the tree
  is installed (`CheckedLinkCanEscape`), never one of a tree whose links do not
  leave it on their way (`InsideEverywhereIff`), as none that `sync` writes does
  (`SnapshotStaysInside`);
- an apply's record is not done where a signal left a launched run behind, and
  where `--debug` lets an unexpected exception through before the verdict
  (`Apply`); a kept VM, a forced release, and a `--cancel-only` whose credential
  could not be confirmed gone leave a job not done when its offload was still
  open (`Status`, `ForceRelease`, `Destroy`); a run cancelled past its deadline
  whose result cannot be read stays open (`WatchRun`); and a plan that cannot be
  read stops `job destroy` before it releases anything (`Destroy`).

## Model

| member | source | states |
|---|---|---|
| JobHistory.Run | src/colab_cli/commands/job.py:491-2048 | Release soundness over every run: any commands in any order, each stoppable at every step the model has, with Colab reclaiming VMs in between, leave at most one VM of the job, the one the record points at, and none when the record says released or already absent; done edges on disk equal outcome events plus those a death came before |
| JobHistory.SafeMeans | src/colab_cli/job/orchestrator.py:385-473 | What the on-disk invariant means: never two VMs of a job, and a record without an endpoint or with a cleanup of gone leaves none |
| JobHistory.Execute | src/colab_cli/commands/job.py:491-2048 | Each command keeps the on-disk invariant, whatever its process finds |
| JobHistory.Prune | src/colab_cli/commands/job.py:1954-2048 | Exactly the unapplied plans and the done jobs whose VM is gone are removed, save failed deletions; no removed job has a VM the server still holds; a dry run changes nothing |
| JobHistory.Classify | src/colab_cli/commands/job.py:1975-2014 | Every record is marked or skipped, once, by the pruning rule |
| JobHistory.DeleteMarked | src/colab_cli/commands/job.py:2015-2020 | Marked directories are gone or reported failed; every other record is untouched |
| ApplyCommand.Apply | src/colab_cli/commands/job.py:491-983 | Every apply keeps release soundness; one that leaves on its own feet leaves the record done, unless a signal left a launched run behind or --debug re-raised an unexpected exception (then exactly when the run already had its verdict); without --debug nothing is re-raised; one outcome event per done edge; a reason that blames the runner rests on dishonest reads when the runner did its part; a refused apply touches nothing |
| ApplyCommand.Attempt | src/colab_cli/commands/job.py:786-977 | The try, except and finally structure: what is on disk is the final envelope, and it meets the record rules (ok implies done; left_up implies no survivors and --leave-up or a failed upload to rescue); it re-raises exactly under --debug after an unexpected exception, and hands off only after a signal |
| ApplyCommand.Drive | src/colab_cli/commands/job.py:786-812 | The body of the try, any step of which may raise, be signalled or be the last: it ends settled when it ends normally, keeps the VM in the envelope when it does not, and has a verdict only when settled |
| ApplyCommand.Supervise | src/colab_cli/commands/job.py:795-812 | From launch to the verdict: poll to the deadline, then cancel; an exception from the transport, the reads or the cancel, or a signal, leaves the VM in the envelope and the reason backed by the reads |
| ApplyCommand.Except | src/colab_cli/commands/job.py:813-925 | The except clauses: --debug lets an unexpected exception through with the envelope untouched; every other failure settles the run, or hands a launched one off |
| ApplyCommand.Conclude | src/colab_cli/commands/job.py:813-925 | Each except clause that writes: a phase error, a signal before or after launch, an internal failure; a verdict already reached survives an internal failure, and the first failed phase is never replaced |
| ApplyCommand.Leave | src/colab_cli/commands/job.py:926-975 | The finally: the VM goes unless it is to be kept with the credential confirmed gone, and the workload and offload stay as they were |
| Orchestration.Orchestrator.Provision | src/colab_cli/job/orchestrator.py:364-497 | Candidates are tried in order and never two VMs are held; success is the server's own latest, fresh grant, never a CPU for a GPU request; exhausting them fails with the strongest class of the attempts |
| Orchestration.Orchestrator.TryCandidate | src/colab_cli/job/orchestrator.py:385-473 | One candidate: granted and on disk, refused with one more attempt and nothing held, or stopped with the VM in the envelope |
| Orchestration.Orchestrator.RefuseCpu | src/colab_cli/job/orchestrator.py:424-447 | A CPU answer to a GPU request is released before the next candidate, or the endpoint stays for cleanup to retry |
| Orchestration.Orchestrator.StartKeepAlive | src/colab_cli/job/orchestrator.py:499-571 | A missing scope releases the VM; no other outcome, a failing session store included, forgets it |
| Orchestration.Orchestrator.CleanupSecretChannel | src/colab_cli/job/orchestrator.py:919-963 | Removal is claimed only when nothing was prepared or an independent path confirmed it; without a session never |
| Orchestration.Orchestrator.Launch | src/colab_cli/job/orchestrator.py:965-1059 | The launch time and running state are on disk when it returns; a failed, interrupted or raising launch leaves the workload pending; nothing else of the envelope changes but the phase |
| Orchestration.Orchestrator.Poll | src/colab_cli/job/orchestrator.py:1061-1158 | Polling ends; a settled look has the reads behind it, the record is settled and on disk with a reason tied to that look, and a reason that blames the runner has its evidence; a passed deadline, a signal or a raising read leaves the workload as it was |
| Orchestration.Orchestrator.Act | src/colab_cli/job/orchestrator.py:1069-1158 | What each look writes: a readable result gives exactly its own verdict, silence gives unknown with the reason of the look and of no other, a failing transport only degrades |
| Orchestration.Orchestrator.BackedIsHonest | src/colab_cli/job/orchestrator.py:1069-1158 | A recorded dead of a runner that wrote its result rests on a dishonest read of result.json; a recorded never started on a launch record truly absent at first, or on a dishonest read in every poll of at least 90 s |
| Orchestration.Orchestrator.AbsorbOrKeep | src/colab_cli/job/orchestrator.py:1199-1213 | A result this CLI can read is always absorbed, at any depth of the mutual recursion; otherwise the record concludes by control.result or by unknown; an unreadable one never raises without a control channel, and raising changes nothing |
| Orchestration.Orchestrator.FinishWithoutResult | src/colab_cli/job/orchestrator.py:1224-1248 | The record ends with the verdict of what was absorbed from control.result, or unknown with the given reason and offload closed, which it always is without a control channel; the recursion with its partner ends at the interpreter's limit |
| Orchestration.Orchestrator.CancelAfterDeadline | src/colab_cli/job/orchestrator.py:1170-1197 | Past the deadline the run counts as failed exactly when a result was collected, none could be absorbed, something failed before, or the verdict fetched from control.result says so itself |
| Orchestration.FetchedVerdictPassesIff | src/colab_cli/job/orchestrator.py:1297-1391 | A fetched verdict names no failed phase exactly when the run succeeded, or was cancelled by other than its own wall clock, with nothing wrong in the offload |
| Orchestration.DeadlineCanEndOk | src/colab_cli/job/orchestrator.py:1170-1197 | A run past its deadline that the documentation calls failed and the record does not: a succeeded control.result |
| Orchestration.Orchestrator.CleanUp | src/colab_cli/job/orchestrator.py:1398-1440 | The VM stays only when asked for with no survivors; otherwise one release attempt decides released, already absent or failed, and reason, class and first failure set earlier stay |
| Orchestration.RecordVmKept | src/colab_cli/job/orchestrator.py:1524-1551 | A kept VM is left_up exactly when no descendant survived; otherwise cleanup failed, filling only empty reason and class |
| World.ReleaseAssignment | src/colab_cli/job/orchestrator.py:1554-1597 | Gone is claimed only when the server confirmed the unassign or a listing after a 404 lacked the endpoint; exactly one unassign is made |
| World.JobStore.WriteEnvelope | src/colab_cli/job/store.py:326-354 | The envelope is on disk, and each not-done to done edge appends one outcome event unless the process dies between the two |
| Absorb.AbsorbResult | src/colab_cli/job/orchestrator.py:1287-1391 | All or nothing: the envelope is replaced exactly when schema, versions, workload and types are accepted, by the specified result |
| Absorb.AbsorbVerdict | src/colab_cli/job/orchestrator.py:1346-1391 | Offload, reason, class and first failure, set branch by branch, equal the verdict that depends on result, spec and phase alone |
| Absorb.AbsorbFrame | src/colab_cli/job/orchestrator.py:1297-1391 | Absorbing leaves cleanup, supervisor, endpoint and an earlier failed phase alone and closes offload |
| Absorb.VerdictIgnoresHistoryIff | src/colab_cli/job/orchestrator.py:1297-1391 | The verdict is the same from any two prior envelopes exactly when the result names a known phase or did not fail |
| Absorb.AbsorbIdempotentIff | src/colab_cli/job/orchestrator.py:1297-1391 | Absorbing twice equals once exactly when the phase is known or absent and the finish time is the result's own or the moment is the same |
| Verdicts.OffloadOkIff | src/colab_cli/job/verdict.py:244-286 | Offload is ok exactly when nothing went wrong, and only a failed one carries a class |
| Verdicts.OffloadClassIsStrongest | src/colab_cli/job/verdict.py:244-286 | The class of a failed offload is one that applies, and none that applies outranks it |
| Verdicts.Strongest | src/colab_cli/job/verdict.py:112-115 | One of the given classes with none stronger, none only for none |
| RunnerWatching.DeadVerdictIsHonest | src/colab_cli/job/orchestrator.py:1085-1104 | Poll reports dead without a result, of a runner that wrote one, only when the re-read of result.json did not tell the truth |
| RunnerWatching.NeverStartedVerdictIsHonest | src/colab_cli/job/orchestrator.py:1105-1136 | Poll reports never started, of a runner whose launch.json was there, only when every poll over a span of at least 90 s made a dishonest read |
| RunnerWatching.RunnerWatch.LookOnce | src/colab_cli/job/orchestrator.py:1069-1158 | One poll's reads, in order, keep the trail of reads that backs every way the poll can end |
| RunnerWatching.RunnerWatch.ConfirmAbsence | src/colab_cli/job/orchestrator.py:1105-1136 | The absence clock starts only past the grace, is cleared by any launch record, and ends the poll only after the confirmation time and one more result read |
| RunnerWatching.ObserveRemote | src/colab_cli/job/orchestrator.py:1600-1635 | A dead report rests on a result read that found nothing before it, and misses a verdict whenever the runner wrote one: after that read, when the read was honest |
| RunnerWatching.ObserveMissesVerdictIff | src/colab_cli/job/orchestrator.py:1600-1635 | Honest status reads can miss a verdict of exactly the runners that wrote one, not at the first moment, and exited |
| RunnerWatching.ObserveCanMissVerdict | src/colab_cli/job/orchestrator.py:1600-1635 | A concrete runner whose verdict the status read misses |
| RunnerWatching.AwaitRunnerResult | src/colab_cli/job/orchestrator.py:1816-1846 | At most ceil(wait / 5) polls, and a result only when the runner wrote one |
| Watchdog.Staleness.Observe | src/colab_cli/job/orchestrator.py:1652-1678 | A stall is reported exactly when some stretch of reads of at least 300 s up to now found one and the same stamp |
| Watchdog.StallOfRun | src/colab_cli/job/orchestrator.py:1652-1678 | Only the last run of equal stamps can have stalled, and its first read decides |
| JobCommands.Status | src/colab_cli/commands/job.py:1413-1627 | Status keeps release soundness however it ends; --poll brings an orphaned, launched, scrubbed job to its end unless its result is unreadable; a settled job is done unless its VM is kept with offload open, and is kept only for --leave-up or a failed upload to rescue; a forced release is done exactly when offload was closed |
| JobCommands.OrphanedIffNotAlive | src/colab_cli/commands/job.py:1443-1448 | Orphaned is no more and no less than a supervisor process that is not alive |
| JobCommands.WatchRun | src/colab_cli/commands/job.py:1486-1601 | With a deadline and a positive interval the poll loop of an orphaned job ends within one look a second to the deadline plus 60, and leaves the run open only over an unreadable result; a negative interval ends it at the first wait |
| JobCommands.Consult | src/colab_cli/commands/job.py:1484-1605 | An orphaned job with a verdict is kept or released, every other is written back without a server call |
| JobCommands.StatusLook | src/colab_cli/commands/job.py:1512-1601 | The loop ends exactly with a terminal workload, and an unsettled look changes neither workload nor offload |
| JobCommands.CancelOrphan | src/colab_cli/commands/job.py:1290-1315 | At most 60 polls after the cancel; the run ends terminal unless its result cannot be read, which leaves its workload as it was |
| JobCommands.ReleaseOrphan | src/colab_cli/commands/job.py:1318-1344 | Kept exactly when keep_vm says so; released otherwise by one attempt; done exactly when offload is closed |
| JobCommands.ForceRelease | src/colab_cli/commands/job.py:1137-1160 | The VM is released whatever was asked for; the record is done exactly when offload was closed, and an earlier verdict stays |
| JobCommands.AbsorbRemote | src/colab_cli/commands/job.py:1163-1178 | With the plan the whole verdict, of a result well typed throughout; without one the workload and how it ended, of a result well typed in those; with an unreadable one nothing |
| JobCommands.RecoverOffVm | src/colab_cli/commands/job.py:1181-1201 | A recovered envelope has a terminal workload and closed offload; otherwise nothing changed |
| JobCommands.Release | src/colab_cli/commands/job.py:1109-1122 | One release attempt of the held endpoint decides cleanup; none is made without one; a failure is recorded as the first only when it is |
| DestroyCommand.Destroy | src/colab_cli/commands/job.py:1630-1835 | Destroy keeps release soundness, makes one release attempt, fails exactly when the release failed, and leaves the job done exactly when offload is closed; --cancel-only keeps the VM unless the credential may still be on it; an unreadable plan stops it before anything; a live apply is waited for, and a VM it released is left at that |
| DestroyCommand.ReleaseAfterApply | src/colab_cli/commands/job.py:1753-1790 | Beside a live apply: it ends at once with the VM gone, or releases from the latest record with the teardown's own outcome |
| DestroyCommand.AwaitApply | src/colab_cli/commands/job.py:1077-1092 | The record returned with a terminal cleanup is the one on disk; whatever the apply writes meanwhile keeps release soundness |
| DestroyCommand.CancelOrOverride | src/colab_cli/commands/job.py:1696-1751 | --cancel-only makes no server call with the credential gone, and releases after all without |
| DestroyCommand.ReleaseForGood | src/colab_cli/commands/job.py:1753-1835 | The teardown's record: terminal workload, finished supervisor, done exactly when offload is closed |
| DestroyCommand.Reconcile | src/colab_cli/commands/job.py:1664-1694 | The verdict still to be had before the VM goes: the VM's own result, then the control channel's |
| CredentialScan.RejectCredentialContent | src/colab_cli/job/payload_bundle.py:130-172 | The byte automaton rejects a file exactly when the split-based definition says it leaks, however its bytes are divided into blocks |
| CredentialScan.ReadByte | src/colab_cli/job/payload_bundle.py:142-172 | One byte keeps the automaton in step with the definition from every state |
| CredentialScan.WindowDecides | src/colab_cli/job/payload_bundle.py:166-172 | The 8-byte window sees a scheme exactly when the whole text ends in one; what an earlier URL left in it never counts |
| CredentialScan.TruncatedDecides | src/colab_cli/job/payload_bundle.py:153-161 | Dropping what does not fit in the key never changes whether it is listed |
| CredentialScan.SecretNameLeaks | src/colab_cli/job/payload_bundle.py:149-156 | A listed name met by =, &, ; or # leaks whatever follows |
| CredentialScan.QuietUrlStops | src/colab_cli/job/payload_bundle.py:144-148 | A URL read without a hit has no leak when a delimiter or the end of the file stops it |
| CredentialScan.SplitFirst | src/colab_cli/job/payload_bundle.py:112-129 | The definition's split is splitting: up to the first separator, then the rest split |
| AnsiStream.FollowLog | src/colab_cli/commands/utility.py:56-84 | Following a log prints the whole log stripped as one string: the final flush is always reached |
| AnsiStream.StripChunks | src/colab_cli/common.py:57-86 | For every chunking, the outputs ending with a final feed are the stripped whole |
| AnsiStream.StreamStripper.Feed | src/colab_cli/common.py:74-84 | What is out is the stripped text up to the last partial tail, and that tail is what is held back; a final feed completes it |
| AnsiStream.StripAcross | src/colab_cli/common.py:42-46 | Stripping goes piece by piece across any cut no control sequence crosses |
| AnsiStream.TailIsLocal | src/colab_cli/common.py:49-54 | Where the stream is cut depends on what was held back and the new chunk alone |
| AnsiStream.PartialIffCompletable | src/colab_cli/common.py:49-54 | The partial form is exactly what some more text completes to a control sequence |
| AnsiStream.HeldBackIsCompletableIff | src/colab_cli/common.py:49-84 | What is held back can still become a sequence exactly when the text does not end in a newline: the pattern's end mark also matches before one |
| AnsiStream.HoldsBackALine | src/colab_cli/common.py:49-84 | A line with an unfinished sequence at its end is held back though nothing can complete it |
| Urls.ReferenceRecognisedIff | src/colab_cli/job/spec_io.py:40-54 | For every text, the reference kept in its place is recognised exactly when the text splits and its identity does, on every platform |
| Urls.ReferenceKeepsIdentityIff | src/colab_cli/job/spec_io.py:163-226 | A recognised reference has the identity of its URL exactly when the URL has a scheme and its identity prints the host it is read back with |
| Urls.ReferenceIsSilent | src/colab_cli/job/spec_io.py:163-226 | No reference, recognised or not, of a URL or of a text that does not split, is refused as a signed URL |
| Urls.BracketedNameIsUnrecognised | src/colab_cli/job/spec_io.py:163-226 | URLs that split and whose reference is not recognised: an IPvFuture name in brackets with a bracket of its own |
| Urls.ExampleIsUnrecognised | src/colab_cli/job/spec_io.py:163-226 | One of them, with any query and on every platform |
| Urls.UnsplitIsUnrecognised | src/colab_cli/job/spec_io.py:163-226 | Signed URLs that do not split and whose reference is not recognised: a name in brackets that is no address |
| Urls.RecognisableInWords | src/colab_cli/job/spec_io.py:163-226 | An absolute URL with an ASCII host is recognisable exactly when its host has a colon, as an IPv6 address has, or no bracket |
| Urls.AbsoluteKeepsIdentity | src/colab_cli/job/spec_io.py:163-183 | For absolute URLs a recognised reference always has the identity |
| Urls.MalformedReferenceSplits | src/colab_cli/job/spec_io.py:163-171 | The reference of a text that does not split does not split either, and is cut where the text was |
| Urls.PrintHostStable | src/colab_cli/job/spec_io.py:173-183 | A host printed for the identity reads back and prints the same: user information gone, IPv6 brackets and port kept |
| Urls.ParsePrint | src/colab_cli/job/spec_io.py:176-183 | A port prints and parses to itself |
| PlanStore.RoundTripsIff | src/colab_cli/job/store.py:119-161 | Hydrating a redacted document gives it back exactly when it held no references before and each of its signed URLs has a recognised one; then the saved references are the sidecar's keys |
| PlanStore.HydrateUndoes | src/colab_cli/job/store.py:119-161 | The same over any subtree and any sidecar that covers it |
| PlanStore.HydrateGives | src/colab_cli/job/store.py:119-161 | Otherwise it gives the document with the signed URLs of unrecognised references replaced by them, and nothing else changed |
| PlanStore.RedactKeeps | src/colab_cli/job/store.py:119-145 | A redacted document has no signed URL in a URL field, and as references those it had and the recognised ones of its URLs |
| PlanStore.IdentityKeptIff | src/colab_cli/job/spec_io.py:313-325 | Redaction leaves the identity unchanged exactly when the reference of each signed URL has that URL's |
| PlanStore.Redactor.Walk | src/colab_cli/job/store.py:119-129 | One walk rewrites the document and fills the dictionary with every URL under its reference |
| PlanStore.SecretsPair | src/colab_cli/job/store.py:119-129 | The dictionary holds exactly the references of the signed URLs, each with a URL it is the reference of |
| PlanStore.SavedPlanHashes | src/colab_cli/job/spec_io.py:313-349 | A saved plan has the hash of the plan when every reference has its URL's identity, and, for a hash that tells identities apart, only then |
| PlanStore.OnlyOwnSidecar | src/colab_cli/job/store.py:164-192 | The dictionary of a set of references matches it and no other does, given collision-free references |
| PlanStore.LoadOwnOrRefuse | src/colab_cli/job/store.py:213-232 | Whatever sidecar stands beside a saved plan, loading gives the plan with its own URLs exactly when the sidecar holds the recognised references and their URLs, or there are none, and refuses otherwise |
| PlanStore.OwnSidecarLoadsIff | src/colab_cli/job/store.py:213-245 | Beside its own sidecar a plan loads whole exactly when every reference is recognised; with only some it is refused; with none it loads with references in the URLs' places |
| PlanStore.PlanFiles.WritePlanFile | src/colab_cli/job/store.py:235-245 | Stopped at any step the files load as the old plan, the new one, or a refusal, whole when every reference is recognised; completed, as the new plan exactly then |
| PlanStore.BetweenTheFilesIff | src/colab_cli/job/store.py:235-245 | Between the two replacements the old plan still loads whole exactly when its references are all recognised and it has none or shares the credentials |
| PlanStore.UnrecognisedLoadsAsReference | src/colab_cli/job/store.py:148-161 | Where a URL's reference is not recognised, a text that does not split included, the plan loads with the reference in its place, not a refusal |
| SyncPaths.RelPathCancels | src/colab_cli/commands/sync.py:398-433 | relpath, join and normpath cancel, from the image of the start under any root |
| SyncPaths.LinkSurvives | src/colab_cli/commands/sync.py:398-433 | A link accepted from the source resolves, in the snapshot, the archive and wherever it is extracted, to the image of what it resolved to; the archive keeps the snapshot's text |
| SyncPaths.ArchivedLinkResolves | src/colab_cli/commands/sync.py:523-535 | A link copied as written by Git-aware sync is put right by the archive alone |
| SyncPaths.Snapshot.CopyDirectory | src/colab_cli/commands/sync.py:410-464 | The copy is exactly the specified nodes, or stops at an escaping link or an unsupported entry |
| SyncPaths.SnapshotIsImage | src/colab_cli/commands/sync.py:410-464 | Every node of the snapshot is the image of an entry listed at its path, Git metadata left out |
| SyncPaths.SnapshotIsWhole | src/colab_cli/commands/sync.py:410-464 | Every listed entry has its node |
| SyncPaths.DestinationStandsFor | src/colab_cli/commands/sync.py:46-59 | An accepted destination is strictly below /content and its normal form names the same place, without the leading name exactly when it does not start with it again |
| SyncLinks.ValidateLinks | src/colab_cli/commands/sync.py:653-671 | The staged tree is accepted exactly when every link is relative and really leads, through other links and loops, to the root or below it |
| SyncLinks.InsideEverywhereIff | src/colab_cli/commands/sync.py:653-671 | The check holds of a tree wherever it is put exactly when none of its links ever leads out of it on its way |
| SyncLinks.SnapshotStaysInside | src/colab_cli/commands/sync.py:398-464 | Every tree the snapshot accepts passes the check wherever staged, and its links lead inside wherever installed, through other links too |
| SyncLinks.WrittenLinkIsCanonical | src/colab_cli/commands/sync.py:398-535 | The link text of snapshot and archive goes up a number of directories there are, then down by names |
| SyncLinks.CheckedLinkCanEscape | src/colab_cli/commands/sync.py:653-671 | A link that leaves and comes back by the staged name passes the check and leads outside once installed |
| SyncInstall.InstallScript.Run | src/colab_cli/commands/sync.py:672-795 | In every end, failures and a kill included, the destination is the whole old tree or the whole new one whose links were checked where it was staged; one whose links never leave it has them inside from wherever it is read; success only with the new one; every due cleanup item is attempted |
| SyncInstall.InstallScript.Commit | src/colab_cli/commands/sync.py:745-754 | The exchange or rename is one step, and what it displaces is the old tree whole |
| SyncInstall.InstallScript.CleanUp | src/colab_cli/commands/sync.py:757-792 | Every due item is attempted in order whatever the ones before it did; after the commit an ordinary error only warns |
| McpResources.DispatchReadsBackIff | src/colab_cli/mcp_server.py:907-914 | Reading a listed URI reads the resource it was listed for, for every record, logs and file URI but the record of a job called logs, which is refused |
| McpResources.FileReadsBack | src/colab_cli/mcp_server.py:483-491 | A file URI reads back its id and name |
| McpResources.LogsReadBack | src/colab_cli/mcp_server.py:468-478 | A logs URI is no file URI and reads back its id |
| McpResources.RecordReadsBack | src/colab_cli/mcp_server.py:454-462 | A record URI reads back its id, and ends like a logs URI exactly when the id is logs |
| McpResources.Watch | src/colab_cli/mcp_server.py:765-808 | For every sequence of observed envelopes the notices are exactly those due, cut off only where the client is gone |
| McpResources.DueIsShort | src/colab_cli/mcp_server.py:765-808 | At most one workload notice, then at most one done notice; one exactly when done is observed |
| McpResources.Subscriptions.Subscribe | src/colab_cli/mcp_server.py:706-752 | Lists, logs, files and jobs already done get no watch; a record that cannot be read raises and leaves a watch already there; any other starts one from what the record says now |
| McpResources.RecordIsWatchableIff | src/colab_cli/mcp_server.py:706-752 | A record subscription is watched for every id but logs |
| McpResources.ListWatcher.Look | src/colab_cli/mcp_server.py:849-870 | One notice per change between successive readable listings |
| Contents.Upload | src/colab_cli/contents.py:121-177 | An unchanged file is stored byte for byte; above a chunk it takes ceil(size / 1 MiB) requests numbered 1, 2, ... with the last -1; a shorter one is found out; nothing else on the server changes |
| Contents.SendChunk | src/colab_cli/contents.py:146-176 | One pass of the chunk loop: -1 exactly on the request that reaches the measured size |
| Contents.MakeDirs | src/colab_cli/contents.py:89-119 | Exactly the missing ancestors are created, top down, and it refuses exactly where a file is in the way |
| Contents.MakeDirsTwice | src/colab_cli/contents.py:89-119 | Done twice it changes nothing |
| Staging.Stager.StagePayload | src/colab_cli/job/payload_bundle.py:342-448 | A staged job was sent exactly its runtime, its locked source, its manifests and its credentials, in that order, the credentials last; the files on the VM are those before with the last upload to each path in place, and no directory is lost |
| Staging.LastSentIsLast | src/colab_cli/job/payload_bundle.py:342-448 | What the VM holds at a path is its last upload: nothing sent to it later |
| Staging.Stager.StageSource | src/colab_cli/job/payload_bundle.py:366-389 | However the loop ends, the files sent are the first ones, each with the locked size and digest; it completes only when the lock is met as a map |
| Staging.Stager.UploadChecked | src/colab_cli/job/payload_bundle.py:74-98 | Every file put has its parent directory there before, made now or known; files over the ceiling are refused |
| Staging.VerifySourceFiles | src/colab_cli/job/payload_bundle.py:274-305 | Returns exactly when there is a lock and the files on disk equal it as a map; otherwise names every path that differs, by how |
| BackgroundExec.LogPath.Run | src/colab_cli/commands/execution.py:681-803 | Any interleaving of any number of starts, workers and other holders of the session record leaves the path and the record as the steps specify, one by one |
| BackgroundExec.LogPath.Poll | src/colab_cli/commands/utility.py:145-197 | The verdict first, then the worker's life; the next offset counts raw bytes, whatever is done to the content |
| BackgroundExec.ShowsEarlierIff | src/colab_cli/commands/execution.py:681-803 | Before the next start removes the sidecar some poll can show an earlier run's verdict exactly when such a verdict, a live worker that can still write one, or a start before its spawn is there now |
| BackgroundExec.ClearProtectsIff | src/colab_cli/commands/execution.py:735-790 | A start that removes the sidecar is safe from earlier verdicts exactly when no live worker, recorded or not, has yet to begin its verdict, and no other start stands between removing and spawning |
| BackgroundExec.OrderlyNeverStale | src/colab_cli/commands/execution.py:681-803 | With starts one at a time, none stopped between spawning and recording, and no harmful pid written into the session record, no poll of any interleaving shows an earlier run's verdict |
| BackgroundExec.CheckSufficesIff | src/colab_cli/commands/execution.py:681-803 | With no start under way and nothing of an earlier run about, the check is enough for everything orderly that can follow exactly when every live worker that has yet to begin its verdict is the recorded one |
| BackgroundExec.WriteBackHarmlessIff | src/colab_cli/state.py:148-152 | A write-back of the session record is harmless to everything orderly that can follow exactly when the pid it holds is that of every live worker with a verdict to begin |
| BackgroundExec.TimelyNeverStale | src/colab_cli/state.py:148-152 | Enough is that whoever writes the record back read it since the last start recorded its worker |
| BackgroundExec.WriteBackShowsStaleVerdict | src/colab_cli/commands/session.py:858-877 | A copy read before a start and written back after it, by the keep-alive daemon, a foreground exec or the worker itself, lets the next orderly run show the first one's verdict |
| BackgroundExec.StrayShowsStaleVerdict | src/colab_cli/commands/execution.py:790-803 | A start stopped between spawning and recording lets the next run show the first one's verdict |
| BackgroundExec.TwoStartsShowStaleVerdict | src/colab_cli/commands/execution.py:681-803 | Two starts that both pass the check let the second run show the first one's verdict |
| BackgroundExec.TailSlices | src/colab_cli/commands/utility.py:145-157 | The slices chosen by successive next offsets are the log, end to end |
| BackgroundExec.SoleLogGrows | src/colab_cli/commands/execution.py:611-621 | Beside one live worker the log only grows, over every interleaving, until the next start reaches it |
| BackgroundExec.WriteKeepsIff | src/colab_cli/commands/execution.py:611-621 | A worker's write keeps what the log holds, whatever it writes, exactly when its offset is at or past the end |
| BackgroundExec.StrayOverwrites | src/colab_cli/commands/execution.py:611-621 | Beside a newer worker the older one overwrites what that wrote |
| KeepAlive.Run | src/colab_cli/commands/session.py:847-908 | Stops for two 4xx exactly when two happened with no success between, whatever other errors were; the counter it writes comes from the one its last pass read, and is the failures since the last success when every failed pass read that count; every ping was of an endpoint still mapped; at most 1440 passes |
| KeepAlive.StrikeDecides | src/colab_cli/commands/session.py:870-905 | One counter decides the pair property: it survives other errors and a success resets it |
| KeepAlive.CounterCountsIff | src/colab_cli/commands/session.py:127-135 | Every counter the daemon writes is the failures since its last success exactly when every pass that failed read that number from the shared record |
| KeepAlive.SoleWriterCounts | src/colab_cli/commands/session.py:127-135 | Which they do when nobody else writes the record in between |
| KeepAlive.OverwrittenMiscounts | src/colab_cli/commands/session.py:127-135 | A counter written back in between by another holder miscounts |
| UrlExpiry.InTimeStaysInTime | src/colab_cli/job/planner.py:325-401 | No expiry problem before install means none after it within the allowance, for every URL and any retry budget |
| UrlExpiry.AllowanceIsExact | src/colab_cli/job/planner.py:325-355 | No smaller allowance would do |
| UrlExpiry.ExpiryProblems | src/colab_cli/job/planner.py:325-401 | Exactly the fields that expire too soon, in order |
| UrlExpiry.DurationOf | src/colab_cli/job/planner.py:314-322 | Never less than the seconds given, and less than a minute more |

## Left out

- ApplyCommand.Apply: the process dying, or a signal, between a successful assign and the record that holds its endpoint is not among its stopping points; a reply lost on the way back from assign is not either. In both the endpoint is known to nobody.
- Orchestration.Orchestrator.Provision: a caught signal is considered between whole assignments to the envelope, not between two field assignments of one.
- Orchestration.Orchestrator.FinishWithoutResult: the mutual recursion with its partner has no measure of its own in the source; it is modelled to the interpreter's recursion limit, where it raises like any unexpected exception.
- ApplyCommand.Leave: a job interrupted after launch whose credential could not be confirmed gone is released with its workload still open; its record is then not done, which the contract states.
- JobCommands.WatchRun: without a deadline, or with an interval of 0, the loop lasts as long as a given patience and then counts as stopped, where the source polls on; replies are not timed out.
- JobCommands.Status: self-healing of a dead keep-alive daemon is left out, as are hints and their wording.
- DestroyCommand.Destroy: the live apply it waits for is an environment that writes any record keeping release soundness and the endpoint, not a second run of the model's own apply.
- JobHistory.Run: commands follow one another; two at once, save a destroy beside a live apply, and the apply claim's mutual exclusion across release and unlink, are not modelled. Failing disk writes of the envelope are not either.
- PlanStore.RoundTripsIff: a document is a finite tree; its text form, and the validation of a plan beyond its URLs, are left out. Case folding of non-ASCII hosts is left out. Which texts are IPv6 addresses and which non-ASCII names NFKC leaves alone are parameters; of the two bracket checks that supported interpreters make, each is covered.
- PlanStore.LoadOwnOrRefuse: the sidecar's owner and permission checks appear only as a sidecar that may be absent.
- CredentialScan.RejectCredentialContent: a file that cannot be opened is skipped by the source; the second scan, of YAML documents with URL fields, is left out.
- SyncPaths.LinkSurvives: resolution is lexical, as in the source; links whose parents are themselves links are left to the checks that resolve for real, which are not modelled.
- SyncPaths.Snapshot.CopyDirectory: a source that changes while it is listed is refused by the source and not modelled; modes and times are not kept.
- SyncInstall.InstallScript.Run: the checks that the destination and its parents stay below /content appear as steps that may raise; another process putting an entry at the destination meanwhile is left out. Links outside the tree are taken to be resolved already.
- McpResources.Subscriptions.Subscribe: an unsubscribe that is still awaiting its cancelled watch while the same URI is subscribed again is left out.
- Staging.Stager.StagePayload: the retries and confirmations of the job transport count as one upload; the scans of a snapshot are a step that may refuse it.
- BackgroundExec.LogPath.Run: process ids are never reused; one session writes to the path, where the source checks the recorded worker of every session that does. A poll is one look at log, sidecar and record; it is of this path, though the record a write-back or a new session leaves behind may name none.
- Absorb.AbsorbResult: an envelope is a value here; the source mutates it in place from a copy, so aliasing is not captured. Exit notes, out-of-memory notes and reason wording are left out.
- HTTP, OAuth, the Jupyter kernel client, SSH, the console and the REPL: plumbing without a state property of its own.
- Plan preflight checks, path diagnostics, DNS and probe requests, argument and environment splitting: easy members.
- KeepAlive.Run: a success whose write of the record fails counts as a failed ping in the source; here the write succeeds.
- SHA-256, base64, tar, YAML and JSON text and date formats: functions with stated assumptions, or left out.
- Reading compute units, copying records and logs before a release: best effort, with no effect on an outcome.
