/** The keep-alive daemon's loop (`keep_alive`,
    src/colab_cli/commands/session.py). */
module KeepAlive {

  /** What the session store maps the session to when it is looked up. */
  datatype Mapping = Unmapped | ThisEndpoint | OtherEndpoint

  datatype Ping = Success | HttpError(status: int) | OtherError

  /** What one pass of the loop finds: the store's mapping and the failure
      counter in it, the ping's outcome if it pings, and how long it sleeps
      after. */
  datatype Pass = Pass(mapping: Mapping, counter: nat, ping: Ping, slept: nat)

  datatype Reason = TimeLimit | SessionNotFound | EndpointMismatch | Consecutive4xx

  const MAX_DURATION := 24 * 3600
  const SLEEP := 60

  predicate Is4xx(p: Ping) {
    p.HttpError? && 400 <= p.status < 500
  }

  /** Pings `i` and `j` are 4xx with no success between them. */
  predicate Pair4xx(passes: seq<Pass>, i: nat, j: nat)
    requires j < |passes|
  {
    i < j && Is4xx(passes[i].ping) && Is4xx(passes[j].ping) && forall k | i < k < j :: !passes[k].ping.Success?
  }

  /** The second 4xx of a pair is at `j`. */
  predicate SecondStrike(passes: seq<Pass>, j: nat)
    requires j < |passes|
  {
    exists i: nat :: i < j && Pair4xx(passes, i, j)
  }

  /** Failures since the last success among the first `n` passes, on top of
      `before` when there was no success. */
  function Failures(passes: seq<Pass>, n: nat, before: nat): nat
    requires n <= |passes|
  {
    if n == 0 then before
    else if passes[n - 1].ping.Success? then 0
    else Failures(passes, n - 1, before) + 1
  }

  /** The counter a pass writes: from the one it read, whoever wrote that. */
  function Written(p: Pass): nat {
    if p.ping.Success? then 0 else p.counter + 1
  }

  /** Each of the first `n` passes that failed read the failures so far. */
  predicate ReadsCount(passes: seq<Pass>, n: nat, before: nat)
    requires n <= |passes|
  {
    forall k | 0 <= k < n && !passes[k].ping.Success? :: passes[k].counter == Failures(passes, k, before)
  }

  /** Each of the first `n` passes read what the one before wrote. */
  predicate SoleWriter(passes: seq<Pass>, n: nat, before: nat)
    requires n <= |passes|
  {
    forall k | 0 <= k < n :: passes[k].counter == if k == 0 then before else Written(passes[k - 1])
  }

  /** Every counter the daemon writes is the failures since its last success
      exactly when every pass that failed read that number. */
  lemma {:induction false} CounterCountsIff(passes: seq<Pass>, n: nat, before: nat)
    requires n <= |passes|
    ensures (forall k | 0 <= k < n :: Written(passes[k]) == Failures(passes, k + 1, before))
            <==> ReadsCount(passes, n, before)
  {
    if n > 0 {
      CounterCountsIff(passes, n - 1, before);
      LastCounted(passes, n, before);
    }
  }

  lemma LastCounted(passes: seq<Pass>, n: nat, before: nat)
    requires 0 < n <= |passes|
    ensures Written(passes[n - 1]) == Failures(passes, n, before)
            <==> passes[n - 1].ping.Success? || passes[n - 1].counter == Failures(passes, n - 1, before)
  {
  }

  /** As they do when nobody else writes the session record in between. */
  lemma {:induction false} SoleWriterCounts(passes: seq<Pass>, n: nat, before: nat)
    requires n <= |passes| && SoleWriter(passes, n, before)
    ensures ReadsCount(passes, n, before)
  {
    if n > 0 {
      SoleWriterCounts(passes, n - 1, before);
      if n > 1 {
        LastCounted(passes, n - 1, before);
      }
    }
  }

  /** A counter somebody else wrote back in between miscounts. */
  lemma OverwrittenMiscounts(before: nat)
    ensures
      var passes := [Pass(ThisEndpoint, before, OtherError, 0), Pass(ThisEndpoint, before, OtherError, 0)];
      Failures(passes, 2, before) == before + 2 && Written(passes[1]) == before + 1
  {
    var passes := [Pass(ThisEndpoint, before, OtherError, 0), Pass(ThisEndpoint, before, OtherError, 0)];
    assert Failures(passes, 1, before) == before + 1;
  }

  /** When pass `n` begins: the passes before it slept at least 60 s each. */
  function Elapsed(passes: seq<Pass>, n: nat): nat
    requires n <= |passes|
  {
    if n == 0 then 0 else Elapsed(passes, n - 1) + SLEEP + passes[n - 1].slept
  }

  /** Pass `n` stops the loop before it pings. */
  predicate StopsBefore(passes: seq<Pass>, n: nat)
    requires n < |passes|
  {
    Elapsed(passes, n) >= MAX_DURATION || !passes[n].mapping.ThisEndpoint?
  }

  /** Pass `n` pings, and the loop goes on after it. */
  predicate GoesOn(passes: seq<Pass>, n: nat)
    requires n < |passes|
  {
    !StopsBefore(passes, n) && !SecondStrike(passes, n)
  }

  lemma {:induction false} ElapsedGrows(passes: seq<Pass>, n: nat)
    requires n <= |passes|
    ensures Elapsed(passes, n) >= SLEEP * n
  {
    if n > 0 {
      ElapsedGrows(passes, n - 1);
    }
  }

  /** The loop over everything its passes will find. It stops for two 4xx
      exactly when the pass just made is the second of a pair with no success
      between, whatever other errors are between; the counter it leaves comes
      from the one its last pass read, and is the failures since the last
      success when every failed pass read that count; every ping was of an
      endpoint the store still mapped to the session; and it makes at most 1440
      passes. */
  method Run(passes: seq<Pass>, before: nat) returns (reason: Reason, iterations: nat, failures: nat, pings: nat)
    requires |passes| > MAX_DURATION / SLEEP
    ensures pings <= iterations <= MAX_DURATION / SLEEP && iterations <= pings + 1
    ensures forall k | 0 <= k < pings - 1 :: GoesOn(passes, k)
    ensures pings > 0 ==> !StopsBefore(passes, pings - 1)
    ensures failures == if pings == 0 then before else Written(passes[pings - 1])
    ensures ReadsCount(passes, pings, before) ==> failures == Failures(passes, pings, before)
    ensures reason.Consecutive4xx? <==> pings > 0 && SecondStrike(passes, pings - 1)
    ensures !reason.Consecutive4xx? ==> StopsBefore(passes, pings)
    ensures reason.TimeLimit? ==> Elapsed(passes, pings) >= MAX_DURATION && iterations == pings
    ensures reason.SessionNotFound? ==> passes[pings].mapping.Unmapped?
    ensures reason.EndpointMismatch? ==> passes[pings].mapping.OtherEndpoint?
  {
    reason, iterations, failures, pings := TimeLimit, 0, before, 0;
    var elapsed, strikes := 0, 0;
    ghost var last := 0;
    while elapsed < MAX_DURATION
      invariant iterations == pings <= MAX_DURATION / SLEEP && elapsed == Elapsed(passes, pings) >= SLEEP * pings
      invariant failures == if pings == 0 then before else Written(passes[pings - 1])
      invariant strikes <= 1 && LastStrike(passes, pings, strikes, last)
      invariant forall k | 0 <= k < pings :: GoesOn(passes, k)
      invariant reason == TimeLimit
      decreases MAX_DURATION - elapsed
    {
      var pass := passes[pings];
      iterations := iterations + 1;
      if pass.mapping.Unmapped? {
        reason := SessionNotFound;
        break;
      }
      if pass.mapping.OtherEndpoint? {
        reason := EndpointMismatch;
        break;
      }
      StrikeDecides(passes, pings, strikes, last);
      pings := pings + 1;
      if pass.ping.Success? {
        strikes, failures := 0, 0;
      } else {
        failures := pass.counter + 1;
        if Is4xx(pass.ping) {
          strikes, last := strikes + 1, pings - 1;
          if strikes >= 2 {
            reason := Consecutive4xx;
            break;
          }
        }
      }
      elapsed := elapsed + SLEEP + pass.slept;
      ElapsedGrows(passes, pings);
    }
    if pings > 0 {
      LastCounted(passes, pings, before);
    }
    assert pings > 0 && !reason.Consecutive4xx? ==> GoesOn(passes, pings - 1);
  }

  /** `strikes` counts the 4xx since the last success, at most one, which was
      at `last`. */
  predicate LastStrike(passes: seq<Pass>, n: nat, strikes: nat, last: nat)
    requires n <= |passes|
  {
    if strikes == 0 then
      forall i | 0 <= i < n && Is4xx(passes[i].ping) :: exists k :: i < k < n && passes[k].ping.Success?
    else
      && last < n && Is4xx(passes[last].ping)
      && (forall k | last < k < n :: !passes[k].ping.Success? && !Is4xx(passes[k].ping))
      && forall i | 0 <= i < last && Is4xx(passes[i].ping) :: exists k :: i < k < last && passes[k].ping.Success?
  }

  lemma StrikeDecides(passes: seq<Pass>, n: nat, strikes: nat, last: nat)
    requires n < |passes| && strikes <= 1 && LastStrike(passes, n, strikes, last)
    ensures SecondStrike(passes, n) <==> strikes == 1 && Is4xx(passes[n].ping)
    ensures passes[n].ping.Success? ==> LastStrike(passes, n + 1, 0, n)
    ensures !passes[n].ping.Success? && !Is4xx(passes[n].ping) ==> LastStrike(passes, n + 1, strikes, last)
    ensures strikes == 0 && Is4xx(passes[n].ping) ==> LastStrike(passes, n + 1, 1, n)
  {
    if strikes == 1 && Is4xx(passes[n].ping) {
      assert Pair4xx(passes, last, n);
    }
    forall i: nat | i < n && !(strikes == 1 && i == last) ensures !Pair4xx(passes, i, n) {
      if Is4xx(passes[i].ping) {
        var k :| i < k < n && passes[k].ping.Success?;
      }
    }
  }
}
