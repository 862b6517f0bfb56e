/** Whether watchdog.json has stopped changing (`WatchdogStaleness`,
    src/colab_cli/job/orchestrator.py). */
module Watchdog {
  import opened Options

  const STALE_AFTER := 300.0

  /** One successful read: the record's own time stamp, if it has one, and
      when it was read by this machine's clock. */
  datatype Sample = Sample(ts: Option<int>, at: real)

  /** The clock never goes back. */
  predicate Monotonic(samples: seq<Sample>) {
    forall i, j | 0 <= i < j < |samples| :: samples[i].at <= samples[j].at
  }

  /** From sample `i` to the last the stamp never changed, for long enough. */
  predicate UnchangedFrom(samples: seq<Sample>, i: nat)
    requires i < |samples|
  {
    && (forall k | i <= k < |samples| :: samples[k].ts == samples[i].ts)
    && samples[|samples| - 1].at - samples[i].at >= STALE_AFTER
  }

  predicate Stalled(samples: seq<Sample>) {
    exists i: nat :: i < |samples| && UnchangedFrom(samples, i)
  }

  class Staleness {
    var ts: Option<int>
    var since: Option<real>
    ghost var seen: seq<Sample>

    constructor ()
      ensures Valid() && seen == []
    {
      ts, since, seen := None, None, [];
    }

    /** `since` is when the last run of one stamp was first read. */
    ghost predicate Valid()
      reads this
    {
      && Monotonic(seen)
      && (since.None? <==> seen == [])
      && (since.Some? ==> exists start: nat :: start < |seen| && RunStart(start))
    }

    ghost predicate RunStart(start: nat)
      reads this
      requires start < |seen|
    {
      && since == Some(seen[start].at)
      && (forall k | start <= k < |seen| :: seen[k].ts == ts)
      && (start > 0 ==> seen[start - 1].ts != ts)
    }

    /** `observe`: a stall is reported exactly when some stretch of reads, of
        at least 300 s and up to this one, found one and the same stamp. */
    method Observe(sample: Sample) returns (stalled: bool)
      requires Valid() && forall s | s in seen :: s.at <= sample.at
      modifies this
      ensures Valid() && seen == old(seen) + [sample]
      ensures stalled <==> Stalled(seen)
    {
      seen := seen + [sample];
      if since.None? || sample.ts != ts {
        ts, since := sample.ts, Some(sample.at);
        assert RunStart(|seen| - 1);
        StallOfRun(seen, |seen| - 1);
        return false;
      }
      ghost var start: nat :| start < |old(seen)| && old(RunStart(start));
      assert RunStart(start);
      StallOfRun(seen, start);
      return sample.at - since.value >= STALE_AFTER;
    }
  }

  /** Only the last run of equal stamps can have stalled, and its first read
      decides. */
  lemma StallOfRun(samples: seq<Sample>, start: nat)
    requires start < |samples| && Monotonic(samples)
    requires forall k | start <= k < |samples| :: samples[k].ts == samples[|samples| - 1].ts
    requires start > 0 ==> samples[start - 1].ts != samples[|samples| - 1].ts
    ensures Stalled(samples) <==> samples[|samples| - 1].at - samples[start].at >= STALE_AFTER
  {
    if samples[|samples| - 1].at - samples[start].at >= STALE_AFTER {
      assert UnchangedFrom(samples, start);
    }
    if Stalled(samples) {
      var i: nat :| i < |samples| && UnchangedFrom(samples, i);
      assert samples[|samples| - 1].ts == samples[i].ts;
      var before := if start == 0 then 0 else start - 1;
      assert i <= before ==> samples[before].ts == samples[i].ts;
      assert i > start ==> samples[start].at <= samples[i].at;
    }
  }
}
