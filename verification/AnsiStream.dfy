/** Stripping ANSI escapes from whole strings and from text that arrives in
    pieces (src/colab_cli/common.py, src/colab_cli/commands/utility.py). */
module AnsiStream {

  const ESC := '\U{1B}'

  predicate IsParam(c: char) {
    '0' <= c <= '9' || c == ';'
  }

  predicate IsLetter(c: char) {
    'a' <= c <= 'z' || 'A' <= c <= 'Z'
  }

  /** The end of the run of parameter characters from `i`. */
  function ParamsEnd(s: string, i: nat): (j: nat)
    requires i <= |s|
    ensures i <= j <= |s| && (forall k | i <= k < j :: IsParam(s[k])) && (j < |s| ==> !IsParam(s[j]))
    decreases |s| - i
  {
    if i == |s| || !IsParam(s[i]) then i else ParamsEnd(s, i + 1)
  }

  predicate Introduced(s: string) {
    |s| >= 2 && s[0] == ESC && s[1] == '['
  }

  /** The length of the control sequence `s` starts with, 0 for none. */
  function Match(s: string): (n: nat)
    ensures n <= |s|
  {
    if !Introduced(s) then 0
    else
      var j := ParamsEnd(s, 2);
      if j < |s| && IsLetter(s[j]) then j + 1 else 0
  }

  /** `_strip_ansi`: every control sequence removed, left to right. */
  function Strip(s: string): string
    decreases |s|
  {
    if s == "" then ""
    else if Match(s) > 0 then Strip(s[Match(s)..])
    else [s[0]] + Strip(s[1..])
  }

  // -- where a string may be cut -------------------------------------------

  /** A control sequence starts at `k` and is cut short at `end`. */
  predicate PartialAt(s: string, k: nat, end: nat)
    requires end <= |s|
  {
    k < end && s[k] == ESC && (end == k + 1 || (s[k + 1] == '[' && forall j | k + 2 <= j < end :: IsParam(s[j])))
  }

  /** `s` becomes a control sequence with some more text. */
  ghost predicate Completable(s: string) {
    s != "" && exists more :: more != "" && Match(s + more) == |s + more|
  }

  lemma PartialIffCompletable(s: string)
    ensures PartialAt(s, 0, |s|) <==> Completable(s)
  {
    if PartialAt(s, 0, |s|) {
      var more := if |s| == 1 then "[m" else "m";
      var whole := s + more;
      assert whole[|whole| - 1] == 'm';
      assert forall k | 2 <= k < |whole| - 1 :: whole[k] == s[k];
      assert ParamsEnd(whole, 2) == |whole| - 1;
      assert Match(whole) == |whole|;
    }
    if Completable(s) {
      var more :| more != "" && Match(s + more) == |s + more|;
      var whole := s + more;
      assert forall k | 0 <= k < |s| :: whole[k] == s[k];
    }
  }

  /** The partial-tail pattern at `k`: its end mark matches at the end of the
      string and also before a newline there. */
  predicate TailAt(s: string, k: nat) {
    PartialAt(s, k, |s|) || (s != "" && s[|s| - 1] == '\n' && PartialAt(s, k, |s| - 1))
  }

  /** The leftmost match of the pattern at or after `from`, or the length. */
  function TailStart(s: string, from: nat): (i: nat)
    requires from <= |s|
    ensures from <= i <= |s| && (i < |s| ==> TailAt(s, i))
    ensures forall k | from <= k < i :: !TailAt(s, k)
    decreases |s| - from
  {
    if from == |s| || TailAt(s, from) then from else TailStart(s, from + 1)
  }

  /** A text with a control sequence at its start keeps it, and one without
      gets one only across its own end. */
  lemma MatchExtends(s: string, more: string)
    requires s != ""
    ensures Match(s) > 0 ==> Match(s + more) == Match(s)
    ensures Match(s) == 0 && Match(s + more) > 0 ==> PartialAt(s, 0, |s|) && more != "" && more[0] != ESC
  {
    var whole := s + more;
    assert forall k | 0 <= k < |s| :: whole[k] == s[k];
    if Introduced(s) {
      var j := ParamsEnd(s, 2);
      if j < |s| {
        assert ParamsEnd(whole, 2) == j;
      } else if more != "" {
        assert whole[|s|] == more[0];
      }
    } else if Introduced(whole) {
      assert whole[1] == more[0];
    }
  }

  /** Stripping goes piece by piece across any cut no control sequence
      crosses: at an escape, or where none is cut short. */
  lemma {:induction false} StripAcross(s: string, more: string)
    requires more == "" || more[0] == ESC || forall k | 0 <= k < |s| :: !PartialAt(s, k, |s|)
    ensures Strip(s + more) == Strip(s) + Strip(more)
    decreases |s|
  {
    if s == "" {
      assert s + more == more;
    } else if more == "" {
      assert s + more == s;
    } else {
      MatchExtends(s, more);
      var n := if Match(s) > 0 then Match(s) else 1;
      assert (s + more)[n..] == s[n..] + more;
      forall k | 0 <= k < |s[n..]| && PartialAt(s[n..], k, |s[n..]|) ensures PartialAt(s, n + k, |s|) {
        assert s[n..][k] == s[n + k];
        forall j | n + k + 2 <= j < |s| ensures IsParam(s[j]) {
          assert s[n..][j - n] == s[j];
        }
      }
      StripAcross(s[n..], more);
    }
  }

  /** A match of the pattern is a match at the same place in any text between
      its start and its end. */
  lemma TailShortens(whole: string, s: string, k: nat)
    requires s <= whole && k < |s| && TailAt(whole, k)
    ensures TailAt(s, k)
  {
    if !PartialAt(whole, k, |whole|) && |s| < |whole| {
      assert PartialAt(s, k, |s|);
    }
  }

  /** Where a longer text is cut is decided by what the shorter one held back
      and the addition alone. */
  lemma TailIsLocal(s: string, more: string)
    ensures
      var i := TailStart(s, 0);
      TailStart(s + more, 0) == i + TailStart(s[i..] + more, 0)
  {
    var i := TailStart(s, 0);
    var held := s[i..] + more;
    var whole := s + more;
    assert |whole| == i + |held| && forall k | 0 <= k < |held| :: whole[i + k] == held[k];
    forall k | 0 <= k < i ensures !TailAt(whole, k) {
      if TailAt(whole, k) {
        TailShortens(whole, s, k);
      }
    }
    forall k | 0 <= k < |held| ensures TailAt(whole, i + k) <==> TailAt(held, k) {
      TailShifts(whole, held, i, k);
    }
    TailStartIs(whole, i + TailStart(held, 0), i, held);
  }

  lemma TailShifts(whole: string, held: string, i: nat, k: nat)
    requires |whole| == i + |held| && (forall k | 0 <= k < |held| :: whole[i + k] == held[k]) && k < |held|
    ensures TailAt(whole, i + k) <==> TailAt(held, k)
  {
    PartShifts(whole, held, i, k, |held|);
    PartShifts(whole, held, i, k, |held| - 1);
    assert whole[|whole| - 1] == whole[i + (|held| - 1)];
  }

  lemma PartShifts(whole: string, held: string, i: nat, k: nat, end: nat)
    requires |whole| == i + |held| && (forall k | 0 <= k < |held| :: whole[i + k] == held[k]) && end <= |held|
    ensures PartialAt(whole, i + k, i + end) <==> PartialAt(held, k, end)
  {
    if PartialAt(whole, i + k, i + end) {
      forall j | k + 2 <= j < end ensures IsParam(held[j]) {
        assert whole[i + j] == held[j];
      }
    }
    if PartialAt(held, k, end) {
      assert whole[i + k] == held[k];
      forall j | i + k + 2 <= j < i + end ensures IsParam(whole[j]) {
        assert whole[i + (j - i)] == held[j - i];
      }
      if end > k + 1 {
        assert whole[i + (k + 1)] == held[k + 1];
      }
    }
  }

  lemma TailStartIs(whole: string, n: nat, i: nat, held: string)
    requires n <= |whole| && n == i + TailStart(held, 0) && |whole| == i + |held|
    requires forall k | 0 <= k < i :: !TailAt(whole, k)
    requires forall k | 0 <= k < |held| :: TailAt(whole, i + k) <==> TailAt(held, k)
    ensures TailStart(whole, 0) == n
  {
    forall k | 0 <= k < n ensures !TailAt(whole, k) {
      if k >= i {
        assert !TailAt(held, k - i);
        assert TailAt(whole, i + (k - i)) <==> TailAt(held, k - i);
      }
    }
    if n < |whole| {
      assert TailAt(held, n - i);
      assert TailAt(whole, i + (n - i)) <==> TailAt(held, n - i);
    }
  }

  /** What a text lets through and what follows strip piece by piece. */
  lemma CutIsClean(s: string, more: string)
    requires var i := TailStart(s, 0); i < |s| && more != "" ==> more[0] == ESC
    ensures Strip(s[..TailStart(s, 0)] + more) == Strip(s[..TailStart(s, 0)]) + Strip(more)
  {
    var i := TailStart(s, 0);
    if i == |s| {
      assert s[..i] == s;
      forall k | 0 <= k < |s| ensures !PartialAt(s, k, |s|) {
        assert !TailAt(s, k);
      }
    }
    StripAcross(s[..i], more);
  }

  // -- the streaming stripper -------------------------------------------------

  class StreamStripper {
    var pending: string
    /** What was fed and what came out since the last final feed. */
    ghost var fed: string
    ghost var emitted: string

    constructor ()
      ensures Valid() && pending == "" && fed == "" && emitted == ""
    {
      pending, fed, emitted := "", "", "";
    }

    ghost predicate Valid()
      reads this
    {
      Follows(fed, pending, emitted)
    }

    method Feed(chunk: string, final: bool) returns (out: string)
      requires Valid()
      modifies this
      ensures Valid()
      ensures !final ==> fed == old(fed) + chunk && emitted == old(emitted) + out
      ensures final ==> old(emitted) + out == Strip(old(fed) + chunk)
      ensures final ==> pending == "" && fed == "" && emitted == ""
    {
      var combined := pending + chunk;
      if final {
        LastStep(fed, pending, emitted, chunk);
        pending, fed, emitted := "", "", "";
        return Strip(combined);
      }
      FeedStep(fed, pending, emitted, chunk);
      var start := TailStart(combined, 0);
      out := Strip(combined[..start]);
      pending, fed, emitted := combined[start..], fed + chunk, emitted + out;
    }
  }

  /** All that was fed is out, stripped, up to the last partial tail, and that
      tail is what is held back. */
  predicate Follows(fed: string, pending: string, emitted: string) {
    && pending == fed[TailStart(fed, 0)..]
    && emitted == Strip(fed[..TailStart(fed, 0)])
  }

  lemma FeedStep(fed: string, pending: string, emitted: string, chunk: string)
    requires Follows(fed, pending, emitted)
    ensures
      var start := TailStart(pending + chunk, 0);
      Follows(fed + chunk, (pending + chunk)[start..], emitted + Strip((pending + chunk)[..start]))
  {
    var start := TailStart(pending + chunk, 0);
    TailIsLocal(fed, chunk);
    FeedOut(fed, chunk, start);
  }

  /** What a feed lets out is what the longer text lets through beyond the
      shorter one. */
  lemma FeedOut(fed: string, chunk: string, start: nat)
    requires start <= |fed[TailStart(fed, 0)..] + chunk|
    ensures
      var i := TailStart(fed, 0);
      var combined := fed[i..] + chunk;
      && (fed + chunk)[i + start..] == combined[start..]
      && Strip((fed + chunk)[..i + start]) == Strip(fed[..i]) + Strip(combined[..start])
  {
    var i := TailStart(fed, 0);
    HeldStarts(fed, chunk);
    SliceJoins(fed, chunk, i, start);
    CutIsClean(fed, (fed[i..] + chunk)[..start]);
  }

  lemma SliceJoins(fed: string, chunk: string, i: nat, start: nat)
    requires i <= |fed| && start <= |fed[i..] + chunk|
    ensures (fed + chunk)[..i + start] == fed[..i] + (fed[i..] + chunk)[..start]
    ensures (fed + chunk)[i + start..] == (fed[i..] + chunk)[start..]
  {
    assert fed + chunk == fed[..i] + (fed[i..] + chunk);
  }

  lemma LastStep(fed: string, pending: string, emitted: string, chunk: string)
    requires Follows(fed, pending, emitted)
    ensures emitted + Strip(pending + chunk) == Strip(fed + chunk)
  {
    HeldStarts(fed, chunk);
    assert fed + chunk == fed[..TailStart(fed, 0)] + (pending + chunk);
    CutIsClean(fed, pending + chunk);
  }

  lemma HeldStarts(fed: string, chunk: string)
    ensures var i := TailStart(fed, 0); i < |fed| ==> (fed[i..] + chunk)[0] == ESC
  {
  }

  /** Only the start of a control sequence is held back, except that the
      pattern also takes one before a final newline: what is held can still
      become a control sequence exactly when the text does not end in one. */
  lemma HeldBackIsCompletableIff(combined: string)
    requires TailStart(combined, 0) < |combined|
    ensures Completable(combined[TailStart(combined, 0)..]) <==> combined[|combined| - 1] != '\n'
  {
    var i := TailStart(combined, 0);
    var held := combined[i..];
    PartialIffCompletable(held);
    PartShifts(combined, held, i, 0, |held|);
    assert held[|held| - 1] == combined[|combined| - 1];
  }

  /** Such text exists: an unfinished sequence at the end of a line is held
      back with its newline, though nothing can complete it. */
  lemma HoldsBackALine()
    ensures
      var s := "done" + [ESC] + "[0;3\n";
      TailStart(s, 0) == 4 && !Completable(s[4..])
  {
    var s := "done" + [ESC] + "[0;3\n";
    assert PartialAt(s, 4, 9) && TailAt(s, 4);
    assert forall k | 0 <= k < 4 :: s[k] != ESC;
    assert TailStart(s, 0) == 4;
    HeldBackIsCompletableIff(s);
  }

  // -- following a log -----------------------------------------------------------

  function Concat(chunks: seq<string>): string {
    if chunks == [] then "" else Concat(chunks[..|chunks| - 1]) + chunks[|chunks| - 1]
  }

  /** Feeding a stream in any pieces, the last one final, strips it. */
  method StripChunks(chunks: seq<string>) returns (out: string)
    requires chunks != []
    ensures out == Strip(Concat(chunks))
  {
    var stripper := new StreamStripper();
    out := "";
    for i := 0 to |chunks| - 1
      invariant stripper.Valid() && stripper.emitted == out && stripper.fed == Concat(chunks[..i])
    {
      var piece := stripper.Feed(chunks[i], false);
      assert chunks[..i + 1][..i] == chunks[..i];
      out := out + piece;
    }
    var last := stripper.Feed(chunks[|chunks| - 1], true);
    out := out + last;
  }

  function Found(finds: seq<string>, k: nat): string {
    if k < |finds| then finds[k] else ""
  }

  /** What the first `k` reads found. */
  function FoundUpTo(finds: seq<string>, k: nat): string {
    if k == 0 then "" else FoundUpTo(finds, k - 1) + Found(finds, k - 1)
  }

  lemma {:induction false} FoundAll(finds: seq<string>, k: nat)
    ensures k <= |finds| ==> FoundUpTo(finds, k) == Concat(finds[..k])
    ensures k >= |finds| ==> FoundUpTo(finds, k) == Concat(finds)
  {
    if k > 0 {
      FoundAll(finds, k - 1);
      if k <= |finds| {
        assert finds[..k][..k - 1] == finds[..k - 1];
      }
    }
    assert finds[..|finds|] == finds;
  }

  lemma FoundLast(finds: seq<string>, k: nat)
    requires |finds| <= k + 2 && Found(finds, k) == ""
    ensures FoundUpTo(finds, k) + Found(finds, k + 1) == Concat(finds)
  {
    FoundAll(finds, k + 2);
    assert FoundUpTo(finds, k + 1) == FoundUpTo(finds, k);
    assert FoundUpTo(finds, k + 2) == FoundUpTo(finds, k + 1) + Found(finds, k + 1);
  }

  /** `_follow_log` past the wait for the file. `finds[k]` is what the k-th
      read finds; the liveness check after read k says alive while k < dead,
      and a worker that is gone writes nothing more, so read dead + 1 is the
      last that can find anything. The loop ends, and what it printed is the
      whole log, stripped whole: the final flush is always reached. */
  method FollowLog(finds: seq<string>, dead: nat, stripping: bool) returns (out: string)
    requires |finds| <= dead + 2
    ensures out == if stripping then Strip(Concat(finds)) else Concat(finds)
  {
    var stripper := new StreamStripper();
    out := "";
    var k := 0;
    while true
      invariant stripper.Valid() && fresh(stripper) && k <= |finds| + dead
      invariant if stripping then stripper.emitted == out && stripper.fed == FoundUpTo(finds, k)
                else out == FoundUpTo(finds, k)
      decreases |finds| + dead - k
    {
      var chunk := Found(finds, k);
      if chunk != "" {
        out := Emit(stripper, stripping, out, chunk);
      } else if k >= dead {
        FoundLast(finds, k);
        out := Flush(stripper, stripping, out, Found(finds, k + 1));
        return;
      }
      k := k + 1;
    }
  }

  method Emit(stripper: StreamStripper, stripping: bool, out: string, chunk: string) returns (out': string)
    requires stripper.Valid()
    modifies stripper
    ensures stripper.Valid()
    ensures stripping ==> stripper.fed == old(stripper.fed) + chunk
    ensures stripping && old(stripper.emitted) == out ==> stripper.emitted == out'
    ensures !stripping ==> out' == out + chunk
  {
    var piece := chunk;
    if stripping {
      piece := stripper.Feed(chunk, false);
    }
    out' := out + piece;
  }

  /** The last read: flushed through the stripper even when it is empty. */
  method Flush(stripper: StreamStripper, stripping: bool, out: string, chunk: string) returns (out': string)
    requires stripper.Valid() && (stripping ==> stripper.emitted == out)
    modifies stripper
    ensures out' == if stripping then Strip(old(stripper.fed) + chunk) else out + chunk
  {
    if stripping {
      var piece := stripper.Feed(chunk, true);
      out' := out + piece;
    } else {
      out' := if chunk != "" then out + chunk else out;
    }
  }
}
