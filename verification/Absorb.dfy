/** Absorbing the runner's result into the envelope
    (`Orchestrator.absorb_result`, src/colab_cli/job/orchestrator.py). */
module Absorb {
  import opened Options
  import opened JobModels
  import opened Verdicts

  /** Schema 1, or schema 2 with both versions named. */
  predicate Accepted(p: Provenance) {
    p.schema.One? || (p.schema.Two? && p.cliVersion != "" && p.payloadVersion != "")
  }

  /** A result that says how the workload ended: a schema and a workload this
      CLI knows, and an end of the right types. */
  predicate Readable(r: RunnerResult) {
    && Accepted(r.provenance)
    && r.workload.Some?
    && r.endTyped
  }

  /** A result the CLI accepts whole: every field of the right type. */
  predicate Absorbable(r: RunnerResult) {
    Readable(r) && r.restTyped
  }

  predicate TerminalResult(r: RunnerResult) {
    r.workload.Some? && r.workload.value.Terminal()
  }

  /** A finished run counts as a staging failure when the envelope ends in
      phase stage with a failed workload. */
  predicate StageFailed(phase: Phase, w: Workload) {
    phase == Stage && w == Workload.Failed
  }

  /** The part of the envelope a caller acts on. */
  datatype VerdictFields = VerdictFields(
    workload: Workload,
    offload: Offload,
    reason: Option<Reason>,
    retryClass: Option<RetryClass>,
    artifacts: seq<ArtifactResult>)

  function VerdictOf(e: JobEnvelope): VerdictFields {
    VerdictFields(e.workload, e.offload, e.reason, e.retryClass, e.run.artifacts)
  }

  function Later<T>(first: Option<T>, second: Option<T>): Option<T> {
    if first.Some? then first else second
  }

  /** The verdict for a result seen in `phase`; nothing else of the envelope
      enters. */
  function VerdictFor(spec: JobSpec, r: RunnerResult, phase: Phase): (VerdictFields, Option<Phase>)
    requires Absorbable(r)
  {
    var w := r.workload.value;
    if StageFailed(phase, w) then
      var (reason, retry) := StageOutcome(r.run.inputs);
      (VerdictFields(w, NothingOffloaded(spec), Some(reason), Some(retry), r.run.artifacts), Some(Stage))
    else
      var (state, uploadRetry) :=
        if spec.artifacts == [] then (Offload.NotRequired, None)
        else OffloadOutcome(spec.artifacts, r.run.artifacts, r.offloadFailed, r.offloadError);
      var (why, workloadRetry) := WorkloadOutcome(r);
      var reason :=
        if !why && state != Offload.Failed then None
        else Some(ReachedVerdict(why, state == Offload.Failed));
      (VerdictFields(w, state, reason, Later(workloadRetry, uploadRetry), r.run.artifacts),
       if workloadRetry.Some? then Some(Run)
       else if state == Offload.Failed then Some(Upload)
       else None)
  }

  /** `hints` with each of `more` it does not hold yet appended in order. */
  function AddHints(hints: seq<Hint>, more: seq<Hint>): seq<Hint>
    decreases |more|
  {
    if more == [] then hints
    else AddHints(if more[0] in hints then hints else hints + [more[0]], more[1..])
  }

  lemma {:induction false} AddHintsKeeps(hints: seq<Hint>, more: seq<Hint>)
    ensures hints <= AddHints(hints, more)
    ensures forall h | h in more :: h in AddHints(hints, more)
    decreases |more|
  {
    if more != [] {
      var hints' := if more[0] in hints then hints else hints + [more[0]];
      AddHintsKeeps(hints', more[1..]);
      forall h | h in more ensures h in AddHints(hints, more) {
        if h == more[0] {
          assert h in hints' && hints' <= AddHints(hints, more);
        }
      }
    }
  }

  function ResultHints(r: RunnerResult): seq<Hint> {
    seq(|r.warnings|, i requires 0 <= i < |r.warnings| => RunnerWarning(r.warnings[i]))
    + (if r.run.survivors == [] then [] else [Survivors(|r.run.survivors|)])
  }

  function PhaseAfter(e: JobEnvelope, r: RunnerResult): Phase {
    if r.phase.KnownPhase? then r.phase.phase else e.phase
  }

  function PhaseHints(e: JobEnvelope, r: RunnerResult): seq<Hint> {
    if r.phase.OtherPhase? then e.hints + [UnknownPhase(r.phase.name)] else e.hints
  }

  /** The envelope after absorbing: its provenance, phase, run record and
      verdict come from the result; everything else stays. */
  function Absorbed(e: JobEnvelope, spec: JobSpec, r: RunnerResult, now: nat): (e': JobEnvelope)
    requires Absorbable(r)
  {
    var phase := PhaseAfter(e, r);
    var (v, failed) := VerdictFor(spec, r, phase);
    e.(provenance := if r.provenance.schema.Two? then r.provenance else e.provenance,
       phase := phase,
       failedPhase := Later(e.failedPhase, failed),
       workload := v.workload,
       offload := v.offload,
       run := r.run,
       retryClass := v.retryClass,
       reason := v.reason,
       hints := AddHints(PhaseHints(e, r), ResultHints(r)),
       finishedAt := Some(if r.finishedAt.Some? then r.finishedAt.value else now))
  }

  /** `absorb_provenance`: the versions a schema 2 result must name. */
  method AbsorbProvenance(e: JobEnvelope, r: RunnerResult) returns (accepted: bool, e': JobEnvelope)
    ensures accepted <==> Accepted(r.provenance)
    ensures e' == if accepted && r.provenance.schema.Two? then e.(provenance := r.provenance) else e
  {
    if r.provenance.schema.OtherSchema? {
      return false, e;
    }
    if r.provenance.schema.One? {
      return true, e;
    }
    if r.provenance.cliVersion == "" || r.provenance.payloadVersion == "" {
      return false, e;
    }
    return true, e.(provenance := r.provenance);
  }

  /** Offload, reason, retry class and first failure, in the source's order. */
  method AbsorbVerdict(e: JobEnvelope, spec: JobSpec, r: RunnerResult) returns (e': JobEnvelope)
    requires Absorbable(r)
    requires e.workload == r.workload.value
    requires e.run == r.run
    ensures
      var (v, failed) := VerdictFor(spec, r, e.phase);
      e' == e.(offload := v.offload, reason := v.reason, retryClass := v.retryClass,
               failedPhase := Later(e.failedPhase, failed))
  {
    var stageFailed := StageFailed(e.phase, e.workload);
    var offload, uploadRetry := Offload.NotRequired, None;
    if spec.artifacts != [] {
      if stageFailed {
        offload := Offload.Skipped;
      } else {
        var outcome := OffloadOutcome(spec.artifacts, e.run.artifacts, r.offloadFailed, r.offloadError);
        offload, uploadRetry := outcome.0, outcome.1;
      }
    }
    e' := e.(offload := offload);
    if stageFailed {
      var outcome := StageOutcome(e.run.inputs);
      e' := e'.(reason := Some(outcome.0), retryClass := Some(outcome.1)).RecordFailure(Stage);
    } else {
      var outcome := WorkloadOutcome(r);
      e' := e'.(reason := if !outcome.0 && offload != Offload.Failed then None
                          else Some(ReachedVerdict(outcome.0, offload == Offload.Failed)),
                retryClass := Later(outcome.1, uploadRetry));
      if outcome.1.Some? {
        e' := e'.RecordFailure(Run);
      } else if offload == Offload.Failed {
        e' := e'.RecordFailure(Upload);
      }
    }
  }

  /** The source's order: work on a copy, field by field, and hand it over
      only when nothing was refused. */
  method AbsorbResult(e: JobEnvelope, spec: JobSpec, r: RunnerResult, now: nat)
    returns (absorbed: bool, e': JobEnvelope)
    ensures absorbed <==> Absorbable(r)
    ensures e' == if absorbed then Absorbed(e, spec, r, now) else e
  {
    var candidate := e;
    match r.phase {
      case NoPhase =>
      case KnownPhase(p) => candidate := candidate.(phase := p);
      case OtherPhase(name) => candidate := candidate.(hints := candidate.hints + [UnknownPhase(name)]);
    }
    var accepted;
    accepted, candidate := AbsorbProvenance(candidate, r);
    if !accepted || r.workload.None? || !r.endTyped || !r.restTyped {
      return false, e;
    }
    candidate := candidate.(workload := r.workload.value, run := r.run,
                            finishedAt := Some(if r.finishedAt.Some? then r.finishedAt.value else now));
    candidate := AbsorbVerdict(candidate, spec, r);
    candidate := candidate.(hints := AddHints(candidate.hints, ResultHints(r)));
    return true, candidate;
  }

  // -- what absorbing promises -----------------------------------------

  /** Absorbing changes neither the VM's side of the record nor an earlier
      first failure, and leaves offload terminal. */
  lemma AbsorbFrame(e: JobEnvelope, spec: JobSpec, r: RunnerResult, now: nat)
    requires Absorbable(r)
    ensures
      var e' := Absorbed(e, spec, r, now);
      && e'.cleanup == e.cleanup && e'.supervisor == e.supervisor
      && e'.endpoint == e.endpoint && e'.session == e.session
      && e'.options == e.options && e'.grant == e.grant && e'.startedAt == e.startedAt
      && (e.failedPhase.Some? ==> e'.failedPhase == e.failedPhase)
      && e'.offload.Terminal()
      && (e'.workload.Terminal() <==> TerminalResult(r))
      && e.hints <= e'.hints
  {
    AddHintsKeeps(PhaseHints(e, r), ResultHints(r));
    if spec.artifacts != [] && !StageFailed(PhaseAfter(e, r), r.workload.value) {
      OffloadOkIff(spec.artifacts, r.run.artifacts, r.offloadFailed, r.offloadError);
    }
  }

  /** The verdict is a function of the result and the spec exactly when the
      result names a known phase or did not fail: a failed result without one
      is read as a staging failure or not by the phase the envelope happened
      to be in. */
  lemma VerdictIgnoresHistoryIff(spec: JobSpec, r: RunnerResult)
    requires Absorbable(r)
    ensures
      (forall e1: JobEnvelope, e2: JobEnvelope, n1: nat, n2: nat ::
         VerdictOf(Absorbed(e1, spec, r, n1)) == VerdictOf(Absorbed(e2, spec, r, n2)))
      <==> r.phase.KnownPhase? || r.workload != Some(Workload.Failed)
  {
    if !r.phase.KnownPhase? && r.workload == Some(Workload.Failed) {
      var e := FreshEnvelope(ApplyOptions(false, false));
      var staged := e.(phase := Stage);
      assert VerdictOf(Absorbed(e, spec, r, 0)).reason.value.ReachedVerdict?;
      assert VerdictOf(Absorbed(staged, spec, r, 0)).reason.value.StagingFailed?;
    }
  }

  lemma {:induction false} AddHintsKnown(hints: seq<Hint>, more: seq<Hint>)
    requires forall h | h in more :: h in hints
    ensures AddHints(hints, more) == hints
  {
    if more != [] {
      assert more[0] in more;
      AddHintsKnown(hints, more[1..]);
    }
  }

  /** Absorbing the same result twice equals absorbing it once, exactly when
      its phase is known or absent and the second read either finds the
      result's own finish time or happens at the same moment. */
  lemma AbsorbIdempotentIff(e: JobEnvelope, spec: JobSpec, r: RunnerResult, n1: nat, n2: nat)
    requires Absorbable(r)
    ensures
      Absorbed(Absorbed(e, spec, r, n1), spec, r, n2) == Absorbed(e, spec, r, n1)
      <==> !r.phase.OtherPhase? && (r.finishedAt.Some? || n1 == n2)
  {
    var once := Absorbed(e, spec, r, n1);
    var twice := Absorbed(once, spec, r, n2);
    AddHintsKeeps(PhaseHints(e, r), ResultHints(r));
    if !r.phase.OtherPhase? {
      AddHintsKnown(once.hints, ResultHints(r));
    } else {
      AddHintsKeeps(once.hints + [UnknownPhase(r.phase.name)], ResultHints(r));
      assert |twice.hints| > |once.hints|;
    }
  }
}
