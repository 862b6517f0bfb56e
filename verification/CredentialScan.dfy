/** The scan of code files for credential-bearing URLs
    (`_reject_credential_content`, src/colab_cli/job/payload_bundle.py): a
    byte-at-a-time automaton with an 8-byte window and a truncated key,
    against a definition that splits the whole file. */
module CredentialScan {

  /** A byte is written as the character with its code; that there are only
      256 of them matters nowhere. */
  type Byte = char
  type Bytes = seq<Byte>

  function Lower(b: Byte): Byte {
    if 'A' <= b <= 'Z' then (b as int + 32) as char else b
  }

  function LowerAll(s: Bytes): (r: Bytes)
    ensures |r| == |s| && forall i | 0 <= i < |s| :: r[i] == Lower(s[i])
  {
    seq(|s|, i requires 0 <= i < |s| => Lower(s[i]))
  }

  predicate IsDelimiter(b: Byte) {
    || b == ' ' || b == '\t' || b == '\r' || b == '\n' || b == '"' || b == '\''
    || b == '<' || b == '>' || b == '(' || b == ')'
    || b == '{' || b == '}'
  }

  predicate IsSecretKey(key: Bytes) {
    key in {"access_token", "awsaccesskeyid", "googleaccessid", "sig", "signature", "token", "x-amz-credential",
            "x-amz-security-token", "x-amz-signature", "x-goog-credential", "x-goog-signature"}
  }

  // -- the definition by splitting -------------------------------------------

  datatype Mark = Delimiter | Question | Hash | Separator | Equals {
    predicate Has(b: Byte) {
      match this
      case Delimiter => IsDelimiter(b)
      case Question => b == '?'
      case Hash => b == '#'
      case Separator => b == '&' || b == ';'
      case Equals => b == '='
    }
  }

  /** The first index in [from, to) of a byte `m` marks, or `to`. */
  function First(s: Bytes, m: Mark, from: nat, to: nat): (i: nat)
    requires from <= to <= |s|
    ensures from <= i <= to && (forall k | from <= k < i :: !m.Has(s[k])) && (i < to ==> m.Has(s[i]))
    decreases |s| - from
  {
    if from == to || m.Has(s[from]) then from else First(s, m, from + 1, to)
  }

  /** `scheme` ends at index `k` of `s`, in any letter case. */
  predicate EndsAt(s: Bytes, k: nat, scheme: Bytes)
    requires k <= |s|
  {
    |scheme| <= k && forall i | 0 <= i < |scheme| :: Lower(s[k - |scheme| + i]) == scheme[i]
  }

  predicate SchemeEndsAt(s: Bytes, k: nat)
    requires k <= |s|
  {
    EndsAt(s, k, "http://") || EndsAt(s, k, "https://")
  }

  /** Where the first scheme at or after `from` ends, or one past the length. */
  function SchemeEnd(s: Bytes, from: nat): (j: nat)
    requires from <= |s|
    ensures from <= j <= |s| + 1 && (j <= |s| ==> SchemeEndsAt(s, j))
    ensures forall k | from <= k < j :: !SchemeEndsAt(s, k)
    decreases |s| - from
  {
    if SchemeEndsAt(s, from) then from
    else if from == |s| then |s| + 1
    else SchemeEnd(s, from + 1)
  }

  /** The parts of a query between its separators. */
  function Split(query: Bytes): (parts: seq<Bytes>)
    ensures parts != []
  {
    var n := |query|;
    if n == 0 then [[]]
    else if Separator.Has(query[n - 1]) then Split(query[..n - 1]) + [[]]
    else
      var parts := Split(query[..n - 1]);
      parts[|parts| - 1 := parts[|parts| - 1] + [query[n - 1]]]
  }

  /** A parameter's name: up to the equals sign. */
  function Name(part: Bytes): Bytes {
    part[..First(part, Equals, 0, |part|)]
  }

  predicate HasValue(part: Bytes) {
    First(part, Equals, 0, |part|) < |part|
  }

  predicate Secret(part: Bytes) {
    IsSecretKey(LowerAll(Name(part)))
  }

  /** Some parameter has a listed name that something terminates: an equals
      sign, a separator, or the fragment's hash. */
  predicate QueryLeaks(query: Bytes, closed: bool) {
    var parts := Split(query);
    exists n | 0 <= n < |parts| :: Secret(parts[n]) && (n < |parts| - 1 || closed || HasValue(parts[n]))
  }

  /** Where the query of a URL's text starts, at its question mark, and where
      it stops, at a hash or with the URL; both are the URL's end when it has
      no query. */
  function QueryStart(u: Bytes): nat {
    First(u, Question, 0, First(u, Delimiter, 0, |u|))
  }

  function QueryStop(u: Bytes): (f: nat)
    ensures QueryStart(u) <= f <= |u|
  {
    var end := First(u, Delimiter, 0, |u|);
    var q := QueryStart(u);
    if q < end then First(u, Hash, q + 1, end) else end
  }

  /** `u` starts right after a recognised scheme. */
  predicate OwnQueryLeaks(u: Bytes) {
    var q := QueryStart(u);
    var f := QueryStop(u);
    q < f && QueryLeaks(u[q + 1..f], f < |u| && u[f] == '#')
  }

  /** This URL leaks, or one after it: the search for the next one resumes
      past the hash or delimiter that stops this one. */
  predicate UrlLeaks(u: Bytes)
    decreases |u|
  {
    var f := QueryStop(u);
    OwnQueryLeaks(u) || (f < |u| && Leaks(u[f + 1..]))
  }

  /** A file leaks when some recognised http or https URL's query does. */
  predicate Leaks(s: Bytes)
    decreases |s|
  {
    var j := SchemeEnd(s, 0);
    0 < j <= |s| && UrlLeaks(s[j..])
  }

  // -- the automaton ---------------------------------------------------------

  /** `query_key`: None before the question mark, then the name being read,
      then False past its equals sign. */
  datatype Key = NoQuery | Reading(name: Bytes) | Past

  datatype State = State(recent: Bytes, inUrl: bool, key: Key)

  const WINDOW := 8
  const KEY_LIMIT := 64

  function LastPart(query: Bytes): Bytes {
    var parts := Split(query);
    parts[|parts| - 1]
  }

  /** The key as the automaton keeps it: what does not fit is dropped. */
  function Truncated(name: Bytes): Bytes {
    if |name| <= KEY_LIMIT + 1 then name else name[..KEY_LIMIT + 1]
  }

  /** No parameter of the query so far leaks, and `key` says where its last
      parameter is. */
  predicate QuietSoFar(query: Bytes, key: Key) {
    && (forall n | 0 <= n < |Split(query)| - 1 :: !Secret(Split(query)[n]))
    && QuietPart(LastPart(query), key)
  }

  predicate QuietPart(last: Bytes, key: Key) {
    match key
    case NoQuery => false
    case Reading(name) => !HasValue(last) && name == Truncated(LowerAll(last))
    case Past => HasValue(last) && !Secret(last)
  }

  /** The first `n` bytes of a URL's text, its query started at `q` and not
      stopped. */
  predicate InQuery(u: Bytes, n: nat, q: nat)
    requires n <= |u|
  {
    && q < n && q == First(u, Question, 0, n)
    && (forall k | 0 <= k < n :: !IsDelimiter(u[k]))
    && (forall k | q < k < n :: u[k] != '#')
  }

  /** The first `n` bytes of a URL's text, read up to `key`. */
  predicate InsideUrl(u: Bytes, n: nat, key: Key)
    requires n <= |u|
  {
    var q := First(u, Question, 0, n);
    if key.NoQuery? then q == n && forall k | 0 <= k < n :: !IsDelimiter(u[k])
    else InQuery(u, n, q) && QuietSoFar(u[q + 1..n], key)
  }

  function Last8(s: Bytes): Bytes {
    if |s| <= WINDOW then s else s[|s| - WINDOW..]
  }

  /** The first `n` bytes of `s`, read with no scheme ended among them;
      `stale` is what the window held before. */
  predicate OutsideUrl(s: Bytes, n: nat, recent: Bytes, stale: Bytes)
    requires n <= |s|
  {
    && recent == Last8(stale + LowerAll(s[..n]))
    && (forall k | 0 <= k <= n :: !SchemeEndsAt(s, k))
    && WindowSpent(stale)
  }

  /** What an URL leaves in the window cannot start another scheme. */
  predicate WindowSpent(stale: Bytes) {
    stale == [] || (|stale| <= WINDOW && |stale| >= 3 && stale[|stale| - 3..] == "://")
  }

  /** The automaton stands at `n` in `piece`, the text since the last resume
      point or scheme. */
  predicate Tracks(st: State, piece: Bytes, n: nat, stale: Bytes) {
    && n <= |piece|
    && if st.inUrl then InsideUrl(piece, n, st.key) && WindowSpent(st.recent)
       else OutsideUrl(piece, n, st.recent, stale)
  }

  predicate Answer(st: State, piece: Bytes) {
    if st.inUrl then UrlLeaks(piece) else Leaks(piece)
  }

  // -- lemmas ----------------------------------------------------------------

  lemma SplitSnoc(a: Bytes, b: Byte)
    ensures
      Split(a + [b]) ==
      if Separator.Has(b) then Split(a) + [[]] else Split(a)[|Split(a)| - 1 := LastPart(a) + [b]]
  {
    assert (a + [b])[..|a|] == a;
  }

  /** More text only adds to the last part, or adds parts after it. */
  lemma {:induction false} PartsGrow(a: Bytes, w: Bytes)
    ensures
      var n := |Split(a)| - 1;
      && n < |Split(a + w)|
      && (forall k | 0 <= k < n :: Split(a + w)[k] == Split(a)[k])
      && LastPart(a) <= Split(a + w)[n]
    decreases |w|
  {
    if w == [] {
      assert a + w == a;
    } else {
      var init := w[..|w| - 1];
      PartsGrow(a, init);
      SplitSnoc(a + init, w[|w| - 1]);
      assert a + w == (a + init) + [w[|w| - 1]];
    }
  }

  predicate EndsWith(s: Bytes, suffix: Bytes) {
    |suffix| <= |s| && s[|s| - |suffix|..] == suffix
  }

  /** At most a window long, with slashes nowhere but in the last two places. */
  predicate SchemeShaped(scheme: Bytes) {
    2 < |scheme| <= WINDOW && forall k | 0 <= k < |scheme| - 2 :: scheme[k] != '/'
  }

  lemma SchemesAreShaped()
    ensures SchemeShaped("http://") && SchemeShaped("https://")
  {
  }

  predicate SameTail(t: Bytes, scheme: Bytes) {
    |scheme| <= |t| && forall i | 0 <= i < |scheme| :: t[|t| - |scheme| + i] == scheme[i]
  }

  lemma LastDecides(t: Bytes, scheme: Bytes)
    requires |scheme| <= WINDOW
    ensures EndsWith(Last8(t), scheme) <==> SameTail(t, scheme)
  {
    if |scheme| <= |t| {
      assert Last8(t)[|Last8(t)| - |scheme|..] == t[|t| - |scheme|..];
      if SameTail(t, scheme) {
        assert t[|t| - |scheme|..] == scheme;
      } else {
        var i :| 0 <= i < |scheme| && t[|t| - |scheme| + i] != scheme[i];
        assert t[|t| - |scheme|..][i] != scheme[i];
      }
    }
  }

  /** A text with a double slash before its end does not end in a scheme that
      reaches over it. */
  lemma Straddles(t: Bytes, scheme: Bytes, at: nat)
    requires SchemeShaped(scheme) && 1 <= at < |t| - 1 && |t| - |scheme| <= at
    requires t[at - 1] == '/' && t[at] == '/'
    ensures !SameTail(t, scheme)
  {
    var k := at - (|t| - |scheme|);
    if |scheme| <= |t| {
      var i := if k == 0 then 0 else k - 1;
      assert t[|t| - |scheme| + i] != scheme[i];
    }
  }

  /** The window ends with the scheme exactly when the text does: eight bytes
      are enough, and what an earlier URL left over never counts. */
  lemma WindowDecides(s: Bytes, n: nat, stale: Bytes, scheme: Bytes)
    requires 1 <= n <= |s| && WindowSpent(stale) && SchemeShaped(scheme)
    ensures EndsWith(Last8(stale + LowerAll(s[..n])), scheme) <==> EndsAt(s, n, scheme)
  {
    TailDecides(s, n, stale, scheme);
    LastDecides(stale + LowerAll(s[..n]), scheme);
  }

  lemma TailDecides(s: Bytes, n: nat, stale: Bytes, scheme: Bytes)
    requires 1 <= n <= |s| && WindowSpent(stale) && SchemeShaped(scheme)
    ensures SameTail(stale + LowerAll(s[..n]), scheme) <==> EndsAt(s, n, scheme)
  {
    var low := LowerAll(s[..n]);
    if n >= |scheme| {
      TailOfSuffix(stale, low, scheme);
      LowTail(s, n, scheme);
    } else if stale != [] {
      Straddles(stale + low, scheme, |stale| - 1);
    }
  }

  lemma TailOfSuffix(stale: Bytes, low: Bytes, scheme: Bytes)
    requires |scheme| <= |low|
    ensures SameTail(stale + low, scheme) <==> SameTail(low, scheme)
  {
    var t := stale + low;
    assert forall j | 0 <= j < |low| :: t[|stale| + j] == low[j];
    if SameTail(t, scheme) {
      forall i | 0 <= i < |scheme| ensures low[|low| - |scheme| + i] == scheme[i] {
        assert t[|t| - |scheme| + i] == scheme[i];
      }
    }
  }

  lemma LowTail(s: Bytes, n: nat, scheme: Bytes)
    requires |scheme| <= n <= |s|
    ensures SameTail(LowerAll(s[..n]), scheme) <==> EndsAt(s, n, scheme)
  {
    var low := LowerAll(s[..n]);
    assert forall j | 0 <= j < n :: low[j] == Lower(s[j]);
    if SameTail(low, scheme) {
      forall i | 0 <= i < |scheme| ensures Lower(s[n - |scheme| + i]) == scheme[i] {
        assert low[n - |scheme| + i] == scheme[i];
      }
    }
    if EndsAt(s, n, scheme) {
      forall i | 0 <= i < |scheme| ensures low[n - |scheme| + i] == scheme[i] {
        assert Lower(s[n - |scheme| + i]) == scheme[i];
      }
    }
  }

  lemma PathShape(u: Bytes, n: nat)
    requires n <= |u| && First(u, Question, 0, n) == n && forall k | 0 <= k < n :: !IsDelimiter(u[k])
    requires n == |u| || IsDelimiter(u[n])
    ensures QueryStart(u) == n && QueryStop(u) == n
  {
  }

  lemma QueryShape(u: Bytes, n: nat, q: nat)
    requires n <= |u| && InQuery(u, n, q)
    ensures QueryStart(u) == q && QueryStop(u) >= n
    ensures n == |u| || IsDelimiter(u[n]) || u[n] == '#' ==> QueryStop(u) == n
    ensures n < |u| && !IsDelimiter(u[n]) && u[n] != '#' ==> QueryStop(u) > n
  {
    var end := First(u, Delimiter, 0, |u|);
    assert end >= n;
    assert First(u, Question, 0, end) == q;
  }

  lemma {:induction false} NothingToSplit(query: Bytes)
    requires First(query, Separator, 0, |query|) == |query|
    ensures Split(query) == [query]
    decreases |query|
  {
    if query != [] {
      var init := query[..|query| - 1];
      assert First(init, Separator, 0, |init|) == |init|;
      NothingToSplit(init);
      assert query == init + [query[|query| - 1]];
    }
  }

  lemma GrownTail(part: Bytes, parts: seq<Bytes>, b: Byte)
    requires parts != []
    ensures
      var last, all := |parts| - 1, [part] + parts;
      && all[last + 1 := all[last + 1] + [b]] == [part] + parts[last := parts[last] + [b]]
      && all + [[]] == [part] + (parts + [[]])
  {
  }

  /** One byte more is split off the last part either way. */
  lemma SplitLater(init: Bytes, i: nat, b: Byte)
    requires i < |init| && Split(init) == [init[..i]] + Split(init[i + 1..])
    ensures Split(init + [b]) == [init[..i]] + Split(init[i + 1..] + [b])
  {
    SplitSnoc(init, b);
    SplitSnoc(init[i + 1..], b);
    GrownTail(init[..i], Split(init[i + 1..]), b);
  }

  /** Split is splitting: up to the first separator, and the rest split. */
  lemma {:induction false} SplitFirst(query: Bytes, i: nat)
    requires i < |query| && i == First(query, Separator, 0, |query|)
    ensures Split(query) == [query[..i]] + Split(query[i + 1..])
    decreases |query|
  {
    var init, b := query[..|query| - 1], query[|query| - 1];
    assert query == init + [b];
    if i == |init| {
      assert First(init, Separator, 0, |init|) == |init|;
      NothingToSplit(init);
      SplitSnoc(init, b);
      assert query[i + 1..] == [];
    } else {
      assert First(init, Separator, 0, |init|) == i;
      SplitFirst(init, i);
      SplitLater(init, i, b);
      assert query[..i] == init[..i] && query[i + 1..] == init[i + 1..] + [b];
    }
  }

  /** A query with no leak so far has none when a delimiter or the end of the
      file stops it, nor when a hash does, unless that ends a listed name. */
  lemma QuietQuery(query: Bytes, key: Key, closed: bool)
    requires QuietSoFar(query, key)
    requires key.Reading? && closed ==> !Secret(LastPart(query))
    ensures !QueryLeaks(query, closed)
  {
  }

  lemma QuietUrlStops(u: Bytes, n: nat, key: Key)
    requires n <= |u| && InsideUrl(u, n, key)
    requires n == |u| || IsDelimiter(u[n])
    ensures !OwnQueryLeaks(u) && QueryStop(u) == n
  {
    if key.NoQuery? {
      PathShape(u, n);
    } else {
      var q := First(u, Question, 0, n);
      QueryShape(u, n, q);
      QuietQuery(u[q + 1..n], key, false);
    }
  }

  lemma HashStops(u: Bytes, n: nat, q: nat, key: Key)
    requires n < |u| && u[n] == '#' && InQuery(u, n, q) && QuietSoFar(u[q + 1..n], key)
    requires key.Reading? ==> !Secret(LastPart(u[q + 1..n]))
    ensures !OwnQueryLeaks(u) && QueryStop(u) == n
  {
    QueryShape(u, n, q);
    QuietQuery(u[q + 1..n], key, true);
  }

  /** A truncated key that is listed was not truncated. */
  lemma TruncatedDecides(last: Bytes)
    requires !HasValue(last)
    ensures IsSecretKey(Truncated(LowerAll(last))) <==> Secret(last)
  {
    assert last[..|last|] == last;
  }

  lemma SecretGrows(a: Bytes, b: Byte, w: Bytes)
    requires !HasValue(LastPart(a)) && Secret(LastPart(a))
    requires b == '=' || Separator.Has(b)
    ensures QueryLeaks(a + [b] + w, false) && QueryLeaks(a + [b] + w, true)
  {
    var n := |Split(a)| - 1;
    SplitSnoc(a, b);
    PartsGrow(a + [b], w);
    var parts := Split(a + [b] + w);
    if b == '=' {
      NameFixed(LastPart(a), parts[n]);
    }
    assert Secret(parts[n]) && (n < |parts| - 1 || HasValue(parts[n]));
  }

  lemma NameFixed(last: Bytes, part: Bytes)
    requires !HasValue(last) && last + ['='] <= part
    ensures HasValue(part) && Name(part) == Name(last)
  {
    assert part[|last|] == '=';
    assert forall k | 0 <= k < |last| :: part[k] == last[k];
    assert First(part, Equals, 0, |part|) == |last|;
  }

  lemma SliceAt(u: Bytes, i: nat, n: nat, f: nat)
    requires i <= n < f <= |u|
    ensures u[i..f] == u[i..n] + [u[n]] + u[n + 1..f]
  {
  }

  lemma SecretAtEnd(a: Bytes)
    requires Secret(LastPart(a))
    ensures QueryLeaks(a, true)
  {
    assert Secret(Split(a)[|Split(a)| - 1]);
  }

  /** A listed name met by its terminator leaks, whatever follows. */
  lemma SecretNameLeaks(u: Bytes, n: nat, q: nat)
    requires n < |u| && InQuery(u, n, q)
    requires !HasValue(LastPart(u[q + 1..n])) && Secret(LastPart(u[q + 1..n]))
    requires u[n] == '=' || Separator.Has(u[n]) || u[n] == '#'
    ensures OwnQueryLeaks(u)
  {
    QueryShape(u, n, q);
    if u[n] == '#' {
      SecretAtEnd(u[q + 1..n]);
    } else {
      var f := QueryStop(u);
      SliceAt(u, q + 1, n, f);
      SecretGrows(u[q + 1..n], u[n], u[n + 1..f]);
    }
  }

  // -- one byte --------------------------------------------------------------

  /** One byte of the query: past it a new key, or rejected. */
  method ReadKeyByte(key: Key, b: Byte, ghost last: Bytes) returns (key': Key, rejected: bool)
    requires QuietPart(last, key)
    ensures rejected <==> key.Reading? && Secret(last) && (b == '=' || b == '&' || b == ';' || b == '#')
    ensures !rejected && b != '#' ==> KeyAfter(key, last, b, key')
    ensures !rejected && b == '#' ==> key' == Past
  {
    key', rejected := key, false;
    if key.Reading? {
      if b == '=' || b == '&' || b == ';' || b == '#' {
        TruncatedDecides(last);
        if IsSecretKey(key.name) {
          rejected := true;
          return;
        }
        key' := if b == '&' || b == ';' then Reading([]) else Past;
      } else if |key.name| <= KEY_LIMIT {
        key' := Reading(key.name + [Lower(b)]);
      }
    } else if b == '&' || b == ';' {
      key' := Reading([]);
    }
  }

  /** A byte of the query that no delimiter is: it may end in a leak, stop
      the URL at a hash, or go on. */
  method ReadQueryByte(key: Key, b: Byte, ghost u: Bytes, ghost n: nat) returns (key': Key, rejected: bool)
    requires n < |u| && u[n] == b && InsideUrl(u, n, key) && !IsDelimiter(b) && !key.NoQuery?
    ensures rejected ==> OwnQueryLeaks(u)
    ensures !rejected && b == '#' ==> !OwnQueryLeaks(u) && QueryStop(u) == n
    ensures !rejected && b != '#' ==> InsideUrl(u, n + 1, key')
  {
    ghost var q := First(u, Question, 0, n);
    ghost var last := LastPart(u[q + 1..n]);
    key', rejected := ReadKeyByte(key, b, last);
    if rejected {
      SecretNameLeaks(u, n, q);
    } else if b == '#' {
      HashStops(u, n, q, key);
    } else {
      QueryGoesOn(u, n, q, key, key');
    }
  }

  lemma QueryGoesOn(u: Bytes, n: nat, q: nat, key: Key, key': Key)
    requires n < |u| && InQuery(u, n, q) && QuietSoFar(u[q + 1..n], key) && u[n] != '#' && !IsDelimiter(u[n])
    requires KeyAfter(key, LastPart(u[q + 1..n]), u[n], key')
    ensures InsideUrl(u, n + 1, key')
  {
    QuietGrows(u[q + 1..n], key, u[n], key');
    SliceSnoc(u, q + 1, n);
    InQueryGrows(u, n, q);
  }

  lemma SliceSnoc(u: Bytes, i: nat, n: nat)
    requires i <= n < |u|
    ensures u[i..n + 1] == u[i..n] + [u[n]]
  {
  }

  lemma InQueryGrows(u: Bytes, n: nat, q: nat)
    requires n < |u| && InQuery(u, n, q) && u[n] != '#' && !IsDelimiter(u[n])
    ensures InQuery(u, n + 1, q) && First(u, Question, 0, n + 1) == q
  {
    assert First(u, Question, 0, n + 1) == q;
  }

  /** What a byte makes of the key. */
  predicate KeyAfter(key: Key, last: Bytes, b: Byte, key': Key) {
    if Separator.Has(b) then key' == Reading([]) && !Secret(last)
    else if key.Past? then key' == Past
    else if b == '=' then key' == Past && !Secret(last)
    else key.Reading? && key' == if |key.name| <= KEY_LIMIT then Reading(key.name + [Lower(b)]) else key
  }

  lemma QuietGrows(query: Bytes, key: Key, b: Byte, key': Key)
    requires QuietSoFar(query, key) && KeyAfter(key, LastPart(query), b, key')
    ensures QuietSoFar(query + [b], key')
  {
    SplitSnoc(query, b);
    if !Separator.Has(b) {
      QuietPartGrows(LastPart(query), key, b, key');
    }
  }

  lemma QuietPartGrows(last: Bytes, key: Key, b: Byte, key': Key)
    requires QuietPart(last, key) && KeyAfter(key, last, b, key') && !Separator.Has(b)
    ensures QuietPart(last + [b], key')
  {
    if key.Past? {
      var i := First(last, Equals, 0, |last|);
      assert (last + [b])[i] == last[i];
      assert First(last + [b], Equals, 0, |last| + 1) == i;
      assert Name(last + [b]) == Name(last);
    } else if b == '=' {
      NameFixed(last, last + [b]);
    } else {
      assert First(last + [b], Equals, 0, |last| + 1) == |last| + 1;
      assert LowerAll(last + [b]) == LowerAll(last) + [Lower(b)];
    }
  }

  // -- the whole file ----------------------------------------------------------

  lemma SchemeSpends(recent: Bytes)
    requires EndsWith(recent, "http://") || EndsWith(recent, "https://")
    requires |recent| <= WINDOW
    ensures WindowSpent(recent)
  {
    assert recent[|recent| - 3] == ':' && recent[|recent| - 2] == '/' && recent[|recent| - 1] == '/';
    assert recent[|recent| - 3..] == "://";
  }

  lemma WindowSlides(stale: Bytes, s: Bytes, n: nat, window: Bytes)
    requires n < |s| && window == Last8(stale + LowerAll(s[..n]))
    ensures
      (if |window + [Lower(s[n])]| > WINDOW then (window + [Lower(s[n])])[1..] else window + [Lower(s[n])])
      == Last8(stale + LowerAll(s[..n + 1]))
  {
    assert LowerAll(s[..n + 1]) == LowerAll(s[..n]) + [Lower(s[n])];
    assert stale + LowerAll(s[..n + 1]) == (stale + LowerAll(s[..n])) + [Lower(s[n])];
  }

  /** A byte outside URLs: it may complete a scheme. */
  method ReadPlainByte(recent: Bytes, b: Byte, ghost piece: Bytes, ghost n: nat, ghost stale: Bytes)
    returns (recent': Bytes, enters: bool)
    requires n < |piece| && piece[n] == b && OutsideUrl(piece, n, recent, stale)
    ensures enters <==> SchemeEndsAt(piece, n + 1)
    ensures enters ==> WindowSpent(recent')
    ensures !enters ==> OutsideUrl(piece, n + 1, recent', stale)
  {
    recent' := recent + [Lower(b)];
    if |recent'| > WINDOW {
      recent' := recent'[1..];
    }
    WindowSlides(stale, piece, n, recent);
    enters := EndsWith(recent', "https://") || EndsWith(recent', "http://");
    SchemesDecide(piece, n + 1, stale);
  }

  lemma SchemesDecide(s: Bytes, n: nat, stale: Bytes)
    requires 1 <= n <= |s| && WindowSpent(stale)
    ensures
      var window := Last8(stale + LowerAll(s[..n]));
      var enters := EndsWith(window, "https://") || EndsWith(window, "http://");
      (enters <==> SchemeEndsAt(s, n)) && (enters ==> WindowSpent(window))
  {
    SchemesAreShaped();
    WindowDecides(s, n, stale, "http://");
    WindowDecides(s, n, stale, "https://");
    var window := Last8(stale + LowerAll(s[..n]));
    if EndsWith(window, "https://") || EndsWith(window, "http://") {
      SchemeSpends(window);
    }
  }

  lemma EntersUrl(piece: Bytes, n: nat, recent: Bytes, stale: Bytes)
    requires n < |piece| && OutsideUrl(piece, n, recent, stale) && SchemeEndsAt(piece, n + 1)
    ensures Leaks(piece) <==> UrlLeaks(piece[n + 1..])
  {
    assert SchemeEnd(piece, 0) == n + 1;
  }

  /** One pass of the automaton's loop. */
  method ReadByte(st: State, b: Byte, ghost piece: Bytes, ghost n: nat, ghost stale: Bytes)
    returns (st': State, rejected: bool, ghost piece': Bytes, ghost n': nat, ghost stale': Bytes)
    requires n < |piece| && piece[n] == b && Tracks(st, piece, n, stale)
    ensures rejected ==> Answer(st, piece)
    ensures !rejected ==> Tracks(st', piece', n', stale') && (Answer(st', piece') <==> Answer(st, piece))
    ensures !rejected ==> piece'[n'..] == piece[n + 1..]
  {
    st', rejected, piece', n', stale' := st, false, piece, n + 1, stale;
    if st.inUrl {
      if IsDelimiter(b) {
        QuietUrlStops(piece, n, st.key);
        st', piece', n', stale' := State([], false, NoQuery), piece[n + 1..], 0, [];
      } else if b == '?' && st.key.NoQuery? {
        st' := st.(key := Reading([]));
        QueryStarts(piece, n);
      } else if !st.key.NoQuery? {
        var key;
        key, rejected := ReadQueryByte(st.key, b, piece, n);
        st' := st.(key := key);
        if b == '#' {
          st', piece', n', stale' := st'.(inUrl := false), piece[n + 1..], 0, st.recent;
        }
      }
    } else {
      var recent, enters := ReadPlainByte(st.recent, b, piece, n, stale);
      st' := st.(recent := recent);
      if enters {
        EntersUrl(piece, n, st.recent, stale);
        st', piece', n' := State(recent, true, NoQuery), piece[n + 1..], 0;
      }
    }
  }

  lemma QueryStarts(u: Bytes, n: nat)
    requires n < |u| && u[n] == '?' && InsideUrl(u, n, NoQuery)
    ensures InsideUrl(u, n + 1, Reading([]))
  {
    assert First(u, Question, 0, n + 1) == n;
    assert u[n + 1..n + 1] == [];
    assert LastPart([]) == [];
  }

  /** The file's bytes, from the blocks it was read in. */
  function Concat(blocks: seq<Bytes>): Bytes {
    if blocks == [] then [] else Concat(blocks[..|blocks| - 1]) + blocks[|blocks| - 1]
  }

  lemma {:induction false} ConcatFrom(blocks: seq<Bytes>, i: nat) returns (rest: Bytes)
    requires i < |blocks|
    ensures Concat(blocks) == Concat(blocks[..i]) + (blocks[i] + rest)
    ensures Concat(blocks) == Concat(blocks[..i]) + blocks[i] + rest
    decreases |blocks|
  {
    var init := blocks[..|blocks| - 1];
    if i == |blocks| - 1 {
      rest := [];
    } else {
      var before := ConcatFrom(init, i);
      assert init[..i] == blocks[..i];
      rest := before + blocks[|blocks| - 1];
    }
  }

  lemma SamePrefix(a: Bytes, b: Bytes, c: Bytes)
    requires a + b == a + c
    ensures b == c
  {
    assert b == (a + b)[|a|..] == (a + c)[|a|..] == c;
  }

  /** The end of the file in any state is no leak. */
  lemma EndIsQuiet(st: State, piece: Bytes, stale: Bytes)
    requires Tracks(st, piece, |piece|, stale)
    ensures !Answer(st, piece)
  {
    if st.inUrl {
      QuietUrlStops(piece, |piece|, st.key);
    }
  }

  /** The inner loop: one block's bytes. */
  method ReadBlock(st: State, block: Bytes, ghost rest: Bytes, ghost piece: Bytes, ghost n: nat, ghost stale: Bytes)
    returns (st': State, rejected: bool, ghost piece': Bytes, ghost n': nat, ghost stale': Bytes)
    requires Tracks(st, piece, n, stale) && piece[n..] == block + rest
    ensures rejected ==> Answer(st, piece)
    ensures !rejected ==> Tracks(st', piece', n', stale') && (Answer(st', piece') <==> Answer(st, piece))
    ensures !rejected ==> piece'[n'..] == rest
  {
    st', piece', n', stale' := st, piece, n, stale;
    for j := 0 to |block|
      invariant Tracks(st', piece', n', stale') && (Answer(st', piece') <==> Answer(st, piece))
      invariant piece'[n'..] == block[j..] + rest
    {
      assert piece'[n'] == piece'[n'..][0] == block[j];
      assert piece'[n' + 1..] == piece'[n'..][1..] == block[j + 1..] + rest;
      st', rejected, piece', n', stale' := ReadByte(st', block[j], piece', n', stale');
      if rejected {
        return;
      }
    }
    rejected := false;
  }

  /** The scan rejects a file exactly when the file leaks, however its bytes
      are divided into blocks; a read returns an empty block only at the end. */
  method RejectCredentialContent(blocks: seq<Bytes>) returns (rejected: bool)
    requires forall block | block in blocks :: block != []
    ensures rejected <==> Leaks(Concat(blocks))
  {
    var st := State([], false, NoQuery);
    ghost var file := Concat(blocks);
    ghost var piece: Bytes, n: nat, stale: Bytes := file, 0, [];
    for i := 0 to |blocks|
      invariant Tracks(st, piece, n, stale) && (Answer(st, piece) <==> Leaks(file))
      invariant Concat(blocks[..i]) + piece[n..] == file
    {
      ghost var rest := ConcatFrom(blocks, i);
      SamePrefix(Concat(blocks[..i]), piece[n..], blocks[i] + rest);
      st, rejected, piece, n, stale := ReadBlock(st, blocks[i], rest, piece, n, stale);
      if rejected {
        return;
      }
      assert blocks[..i + 1][..i] == blocks[..i];
    }
    assert blocks[..|blocks|] == blocks;
    assert n == |piece| by {
      assert |file| == |file| + |piece[n..]|;
    }
    EndIsQuiet(st, piece, stale);
    rejected := false;
  }
}
