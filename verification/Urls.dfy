/** URL parts and the query-free identity of a URL
    (src/colab_cli/job/spec_io.py), on strings. Splitting follows the
    interpreter's `urlsplit`, from 3.12 on; RFC 3986, sections 3.2.2, 3.4
    and 3.5. */
module Urls {
  import opened Options

  datatype Mark = Colon | At | OpenBracket | CloseBracket | Percent | Hash | Question | AuthorityEnd {
    predicate Has(c: char) {
      match this
      case Colon => c == ':'
      case At => c == '@'
      case OpenBracket => c == '['
      case CloseBracket => c == ']'
      case Percent => c == '%'
      case Hash => c == '#'
      case Question => c == '?'
      case AuthorityEnd => c == '/' || c == '?' || c == '#'
    }
  }

  predicate Lacks(s: string, m: Mark) {
    forall k | 0 <= k < |s| :: !m.Has(s[k])
  }

  /** The first index of a marked character, or the length. */
  function First(s: string, m: Mark, from: nat := 0): (i: nat)
    requires from <= |s|
    ensures from <= i <= |s| && (forall k | from <= k < i :: !m.Has(s[k])) && (i < |s| ==> m.Has(s[i]))
    decreases |s| - from
  {
    if from == |s| || m.Has(s[from]) then from else First(s, m, from + 1)
  }

  /** Python's `partition`: what stands before the first mark, and after it. */
  function Before(s: string, m: Mark): (r: string)
    ensures Lacks(r, m)
  {
    s[..First(s, m)]
  }

  function After(s: string, m: Mark): string {
    if First(s, m) < |s| then s[First(s, m) + 1..] else ""
  }

  lemma PartitionAt(a: string, m: Mark, c: char, b: string)
    requires Lacks(a, m) && m.Has(c)
    ensures First(a + [c] + b, m) == |a|
    ensures Before(a + [c] + b, m) == a && After(a + [c] + b, m) == b
  {
    var s := a + [c] + b;
    assert s[|a|] == c && forall k | 0 <= k < |a| :: s[k] == a[k];
    assert First(s, m) == |a|;
  }

  lemma PartitionNone(a: string, m: Mark)
    requires Lacks(a, m)
    ensures First(a, m) == |a| && Before(a, m) == a && After(a, m) == ""
  {
    assert a[..|a|] == a;
  }

  /** What the model takes from the interpreter: SHA-256, whether a text is an
      IPv6 address, whether a name that is not ASCII keeps clear of delimiters
      under NFKC, and whether `urlsplit` checks the whole bracketed host, as
      later releases do, or the first bracketed text alone. */
  datatype Platform = Platform(
    sha: string -> string,
    isAddress: string -> bool,
    normalSafe: string -> bool,
    wholeHost: bool)

  // -- urlsplit ----------------------------------------------------------------

  predicate IsStripped(c: char) {
    c as int <= 0x20
  }

  predicate IsDropped(c: char) {
    c == '\t' || c == '\r' || c == '\n'
  }

  function LStrip(s: string): string {
    if s != "" && IsStripped(s[0]) then LStrip(s[1..]) else s
  }

  function Drop(s: string): (r: string)
    ensures forall k | 0 <= k < |r| :: !IsDropped(r[k])
  {
    if s == "" then "" else (if IsDropped(s[0]) then "" else [s[0]]) + Drop(s[1..])
  }

  predicate IsAlpha(c: char) {
    'a' <= c <= 'z' || 'A' <= c <= 'Z'
  }

  predicate IsDigit(c: char) {
    '0' <= c <= '9'
  }

  predicate IsScheme(s: string) {
    && s != "" && IsAlpha(s[0])
    && forall k | 0 <= k < |s| :: IsAlpha(s[k]) || IsDigit(s[k]) || s[k] == '+' || s[k] == '-' || s[k] == '.'
  }

  function Lower(c: char): char {
    if 'A' <= c <= 'Z' then (c as int + 32) as char else c
  }

  function LowerAll(s: string): (r: string)
    ensures |r| == |s| && forall k | 0 <= k < |s| :: r[k] == Lower(s[k])
  {
    seq(|s|, k requires 0 <= k < |s| => Lower(s[k]))
  }

  datatype Url = Malformed | Url(scheme: string, netloc: string, path: string, query: string, fragment: string)

  function SplitScheme(s: string): (string, string) {
    var i := First(s, Colon);
    if i < |s| && IsScheme(s[..i]) then (LowerAll(s[..i]), s[i + 1..]) else ("", s)
  }

  function SplitAuthority(rest: string): (string, string) {
    if |rest| >= 2 && rest[0] == '/' && rest[1] == '/' then
      (Before(rest[2..], AuthorityEnd), rest[2 + First(rest[2..], AuthorityEnd)..])
    else ("", rest)
  }

  predicate Balanced(netloc: string) {
    Lacks(netloc, OpenBracket) <==> Lacks(netloc, CloseBracket)
  }

  /** What stands after the last at-sign. */
  function AfterLastAt(netloc: string): (r: string)
    ensures Lacks(r, At) && |r| <= |netloc|
    ensures forall k | 0 <= k < |r| :: r[k] in netloc
    ensures Lacks(netloc, At) ==> r == netloc
    decreases |netloc|
  {
    if Lacks(netloc, At) then netloc else AfterLastAt(After(netloc, At))
  }

  predicate IsHex(c: char) {
    IsDigit(c) || 'a' <= c <= 'f' || 'A' <= c <= 'F'
  }

  /** An IPvFuture literal: a v, hexadecimal digits, a dot, and something. */
  predicate IsFuture(h: string) {
    exists k :: 2 <= k < |h| - 1 && h[k] == '.' && h[0] == 'v' && forall j | 1 <= j < k :: IsHex(h[j])
  }

  /** `_check_bracketed_host`. */
  predicate HostChecks(h: string, p: Platform) {
    if h != "" && h[0] == 'v' then IsFuture(h) else p.isAddress(h)
  }

  /** The check of a network location with brackets. */
  predicate BracketsCheck(netloc: string, p: Platform) {
    if p.wholeHost then
      var info := AfterLastAt(netloc);
      if Lacks(info, OpenBracket) then HostChecks(Before(info, Colon), p)
      else
        var bracketed := After(info, OpenBracket);
        var port := After(bracketed, CloseBracket);
        && Before(info, OpenBracket) == "" && (port == "" || port[0] == ':')
        && HostChecks(Before(bracketed, CloseBracket), p)
    else HostChecks(Before(After(netloc, OpenBracket), CloseBracket), p)
  }

  predicate IsAscii(s: string) {
    forall k | 0 <= k < |s| :: s[k] as int < 128
  }

  /** `urlsplit` does not raise over this network location. */
  predicate NetlocOk(netloc: string, p: Platform) {
    && Balanced(netloc)
    && (Lacks(netloc, OpenBracket) || BracketsCheck(netloc, p))
    && (IsAscii(netloc) || p.normalSafe(netloc))
  }

  function Split(url: string, p: Platform): Url {
    var (scheme, rest) := SplitScheme(Drop(LStrip(url)));
    var (netloc, tail) := SplitAuthority(rest);
    if !NetlocOk(netloc, p) then Malformed
    else
      var head := Before(tail, Hash);
      Url(scheme, netloc, Before(head, Question), After(head, Question), After(tail, Hash))
  }

  // -- host and port -------------------------------------------------------------

  function HostInfo(netloc: string): (string, string) {
    var info := AfterLastAt(netloc);
    if Lacks(info, OpenBracket) then (Before(info, Colon), After(info, Colon))
    else
      var bracketed := After(info, OpenBracket);
      (Before(bracketed, CloseBracket), After(After(bracketed, CloseBracket), Colon))
  }

  /** Lower case, save an IPv6 zone. */
  function LowerHost(host: string): string {
    LowerAll(host[..First(host, Percent)]) + host[First(host, Percent)..]
  }

  predicate AllDigits(s: string) {
    forall k | 0 <= k < |s| :: IsDigit(s[k])
  }

  function ParseNat(s: string): nat
    requires AllDigits(s)
  {
    if s == "" then 0 else ParseNat(s[..|s| - 1]) * 10 + (s[|s| - 1] as int - '0' as int)
  }

  function PrintNat(n: nat): (s: string)
    ensures s != "" && AllDigits(s)
  {
    var last := [(n % 10 + '0' as int) as char];
    if n < 10 then last else PrintNat(n / 10) + last
  }

  lemma {:induction false} ParsePrint(n: nat)
    ensures ParseNat(PrintNat(n)) == n
  {
    var s := PrintNat(n);
    if n >= 10 {
      ParsePrint(n / 10);
      assert s[..|s| - 1] == PrintNat(n / 10);
    } else {
      assert s[..|s| - 1] == "";
    }
  }

  function PortOf(text: string): Option<nat> {
    if text != "" && AllDigits(text) && ParseNat(text) <= 65535 then Some(ParseNat(text)) else None
  }

  function Bracketed(host: string): string {
    if !Lacks(host, Colon) && host[0] != '[' then "[" + host + "]" else host
  }

  /** Host and port as the identity prints them: no user information. */
  function PrintHost(netloc: string): string {
    var (host, port) := HostInfo(netloc);
    Bracketed(LowerHost(host)) + (if PortOf(port).Some? then ":" + PrintNat(PortOf(port).value) else "")
  }

  /** `canonical_url`. */
  function Canonical(url: string, p: Platform): string {
    match Split(url, p)
    case Malformed => Before(Before(url, Question), Hash)
    case Url(scheme, netloc, path, _, _) => scheme + "://" + PrintHost(netloc) + path
  }

  /** `has_url_query`. */
  predicate HasQuery(url: string, p: Platform) {
    match Split(url, p)
    case Malformed => !Lacks(url, Question)
    case Url(_, _, _, query, _) => query != ""
  }

  const SECRET_PREFIX := "mighty-colab-secret-sha256="

  predicate IsDigest(s: string) {
    |s| == 64 && forall k | 0 <= k < 64 :: IsDigit(s[k]) || 'a' <= s[k] <= 'f'
  }

  /** `is_redacted_url`. */
  predicate IsRedacted(url: string, p: Platform) {
    match Split(url, p)
    case Malformed => false
    case Url(_, _, _, query, fragment) =>
      query == "" && SECRET_PREFIX <= fragment && IsDigest(fragment[|SECRET_PREFIX|..])
  }

  /** `redacted_url`. */
  function Redacted(url: string, p: Platform): string {
    Canonical(url, p) + "#" + SECRET_PREFIX + p.sha(url)
  }

  /** Every hash is 64 hexadecimal digits. */
  ghost predicate Hashes(p: Platform) {
    forall s :: IsDigest(p.sha(s))
  }

  // -- which references are recognised ---------------------------------------------

  /** The network location the identity of a URL with these parts is read
      back with: the printed host, or the first name of a path without one. */
  function ReferenceNetloc(netloc: string, path: string): string {
    Before(PrintHost(netloc) + path, AuthorityEnd)
  }

  /** The URL splits, and so does its identity; one without a scheme always
      does. */
  predicate Recognisable(url: string, p: Platform) {
    match Split(url, p)
    case Malformed => false
    case Url(scheme, netloc, path, _, _) => scheme == "" || NetlocOk(ReferenceNetloc(netloc, path), p)
  }

  /** The identity has a scheme and prints the host it is read back with. */
  predicate KeepsIdentity(url: string, p: Platform) {
    Recognisable(url, p)
    && var u := Split(url, p);
       u.scheme != "" && PrintHost(ReferenceNetloc(u.netloc, u.path)) == ReferenceNetloc(u.netloc, u.path)
  }

  /** An absolute URL: it has a scheme and its path starts at a slash. */
  predicate Absolute(url: string, p: Platform) {
    var u := Split(url, p);
    u.Url? && u.scheme != "" && (u.path == "" || u.path[0] == '/')
  }

  predicate Plain(s: string) {
    forall k | 0 <= k < |s| :: !IsDropped(s[k])
  }

  lemma {:induction false} DropPlain(s: string)
    requires Plain(s)
    ensures Drop(s) == s
  {
    if s != "" {
      assert Plain(s[1..]) by {
        forall k | 0 <= k < |s[1..]| ensures !IsDropped(s[1..][k]) {
          assert s[1..][k] == s[k + 1];
        }
      }
      DropPlain(s[1..]);
    }
  }

  /** What is known of any host: brackets end it, or a colon does. */
  predicate GoodHost(host: string) {
    && Plain(host) && Lacks(host, AuthorityEnd) && Lacks(host, At)
    && (Lacks(host, CloseBracket) || (Lacks(host, Colon) && Lacks(host, OpenBracket)))
  }

  lemma HostIsGood(netloc: string)
    requires Plain(netloc) && Lacks(netloc, AuthorityEnd)
    ensures GoodHost(HostInfo(netloc).0)
  {
    var info := AfterLastAt(netloc);
    forall k | 0 <= k < |info| ensures !IsDropped(info[k]) && !AuthorityEnd.Has(info[k]) {
      assert info[k] in netloc;
    }
  }

  lemma LowerIsStable(host: string)
    ensures
      var h := LowerHost(host);
      |h| == |host| && LowerHost(h) == h && forall k | 0 <= k < |h| :: h[k] == host[k] || h[k] == Lower(host[k])
  {
    var h := LowerHost(host);
    var i := First(host, Percent);
    assert |h| == |host|;
    assert forall k | 0 <= k < |h| :: h[k] == if k < i then Lower(host[k]) else host[k];
    assert First(h, Percent) == i;
    assert LowerHost(h) == h;
  }

  lemma LowerKeeps(host: string)
    requires GoodHost(host)
    ensures GoodHost(LowerHost(host)) && LowerHost(LowerHost(host)) == LowerHost(host)
  {
    LowerIsStable(host);
  }

  function PrintPort(port: Option<nat>): string {
    if port.Some? then ":" + PrintNat(port.value) else ""
  }

  function PortText(port: Option<nat>): string {
    if port.Some? then PrintNat(port.value) else ""
  }

  lemma PortRoundTrips(text: string)
    ensures PortOf(PortText(PortOf(text))) == PortOf(text)
  {
    if PortOf(text).Some? {
      ParsePrint(PortOf(text).value);
    }
  }

  lemma DigitsOnly(digits: string)
    requires AllDigits(digits)
    ensures Plain(digits) && Lacks(digits, AuthorityEnd) && Lacks(digits, At) && Lacks(digits, Colon)
    ensures Lacks(digits, OpenBracket) && Lacks(digits, CloseBracket)
  {
  }

  lemma PrintedPort(port: Option<nat>)
    ensures After(PrintPort(port), Colon) == PortText(port)
    ensures Plain(PrintPort(port)) && Lacks(PrintPort(port), AuthorityEnd) && Lacks(PrintPort(port), At)
    ensures Lacks(PrintPort(port), OpenBracket) && Lacks(PrintPort(port), CloseBracket)
  {
    if port.Some? {
      var digits := PrintNat(port.value);
      DigitsOnly(digits);
      PartitionAt("", Colon, ':', digits);
      assert ":" + digits == "" + [':'] + digits;
    } else {
      PartitionNone("", Colon);
    }
  }

  lemma LacksConcat(a: string, b: string, m: Mark)
    ensures Lacks(a + b, m) <==> Lacks(a, m) && Lacks(b, m)
  {
    if Lacks(a + b, m) {
      assert forall k | 0 <= k < |a| :: a[k] == (a + b)[k];
      forall k | 0 <= k < |b| ensures !m.Has(b[k]) {
        assert b[k] == (a + b)[|a| + k];
      }
    }
  }

  /** A host without a colon reads back, with what follows its port's colon. */
  lemma NameReadsBack(h: string, p: string)
    requires Lacks(h, Colon) && Lacks(h, OpenBracket) && Lacks(h, At) && (p == "" || p[0] == ':')
    requires Lacks(p, At) && Lacks(p, OpenBracket)
    ensures HostInfo(h + p) == (h, After(p, Colon))
  {
    LacksConcat(h, p, At);
    LacksConcat(h, p, OpenBracket);
    if p == "" {
      PartitionNone(h, Colon);
      assert h + p == h;
    } else {
      PartitionAt(h, Colon, ':', p[1..]);
      assert h + p == h + [':'] + p[1..];
      assert First(p, Colon) == 0;
    }
  }

  lemma BracketedShape(h: string, p: string)
    requires Lacks(h, At) && Lacks(p, At)
    ensures
      var printed := "[" + h + "]" + p;
      Lacks(printed, At) && !Lacks(printed, OpenBracket) && After(printed, OpenBracket) == h + [']'] + p
  {
    var printed := "[" + h + "]" + p;
    assert printed == ("[" + h) + ("]" + p);
    LacksConcat("[" + h, "]" + p, At);
    assert printed[0] == '[';
    assert printed == "" + ['['] + (h + [']'] + p);
    PartitionAt("", OpenBracket, '[', h + [']'] + p);
  }

  lemma BracketsReadBack(h: string, p: string)
    requires Lacks(h, CloseBracket) && Lacks(h, At) && Lacks(p, At)
    ensures HostInfo("[" + h + "]" + p) == (h, After(p, Colon))
  {
    BracketedShape(h, p);
    PartitionAt(h, CloseBracket, ']', p);
  }

  /** A host printed with matching brackets reads back as the same host and
      port. */
  lemma HostReadsBack(h: string, port: Option<nat>)
    requires GoodHost(h) && Balanced(Bracketed(h) + PrintPort(port))
    ensures HostInfo(Bracketed(h) + PrintPort(port)) == (h, PortText(port))
  {
    PrintedPort(port);
    if !Lacks(h, Colon) && h[0] != '[' {
      BracketsReadBack(h, PrintPort(port));
    } else {
      LacksConcat(h, PrintPort(port), OpenBracket);
      LacksConcat(h, PrintPort(port), CloseBracket);
      NameReadsBack(h, PrintPort(port));
    }
  }

  lemma PrintedHostSplits(h: string, port: Option<nat>)
    requires GoodHost(h)
    ensures
      var printed := Bracketed(h) + PrintPort(port);
      Plain(printed) && Lacks(printed, AuthorityEnd)
  {
    PrintedPort(port);
    LacksConcat(Bracketed(h), PrintPort(port), AuthorityEnd);
  }

  lemma PrintHostStable(netloc: string)
    requires Plain(netloc) && Lacks(netloc, AuthorityEnd)
    ensures
      var printed := PrintHost(netloc);
      && Plain(printed) && Lacks(printed, AuthorityEnd)
      && (Balanced(printed) ==> PrintHost(printed) == printed)
  {
    var (host, text) := HostInfo(netloc);
    HostIsGood(netloc);
    LowerKeeps(host);
    if Balanced(PrintHost(netloc)) {
      HostReadsBack(LowerHost(host), PortOf(text));
    }
    PrintedHostSplits(LowerHost(host), PortOf(text));
    PortRoundTrips(text);
  }

  predicate CleanScheme(scheme: string) {
    IsScheme(scheme) && LowerAll(scheme) == scheme && Lacks(scheme, Colon) && Plain(scheme)
  }

  predicate CleanPath(path: string) {
    Plain(path) && Lacks(path, Hash) && Lacks(path, Question)
  }

  lemma SchemeIsClean(t: string)
    requires Plain(t)
    ensures
      var (scheme, rest) := SplitScheme(t);
      (scheme == "" || CleanScheme(scheme)) && Plain(rest)
  {
    var i := First(t, Colon);
    if i < |t| && IsScheme(t[..i]) {
      LowerSchemeIsClean(t[..i]);
    }
  }

  lemma LowerSchemeIsClean(s: string)
    requires IsScheme(s)
    ensures CleanScheme(LowerAll(s))
  {
    var scheme := LowerAll(s);
    assert forall k | 0 <= k < |scheme| :: scheme[k] == Lower(s[k]);
    assert LowerAll(scheme) == scheme;
  }

  lemma AuthorityIsClean(rest: string)
    requires Plain(rest)
    ensures
      var (netloc, tail) := SplitAuthority(rest);
      Plain(netloc) && Lacks(netloc, AuthorityEnd) && Plain(tail)
  {
  }

  lemma PathIsClean(tail: string)
    requires Plain(tail)
    ensures CleanPath(Before(Before(tail, Hash), Question))
  {
  }

  /** The parts of a split URL are as clean as splitting leaves them. */
  lemma PartsAreClean(url: string, p: Platform)
    requires Split(url, p).Url?
    ensures
      var u := Split(url, p);
      && (u.scheme == "" || CleanScheme(u.scheme)) && CleanPath(u.path)
      && Plain(u.netloc) && Lacks(u.netloc, AuthorityEnd)
  {
    var t := Drop(LStrip(url));
    SchemeIsClean(t);
    var rest := SplitScheme(t).1;
    AuthorityIsClean(rest);
    PathIsClean(SplitAuthority(rest).1);
  }

  lemma CleanTogether(a: string, b: string)
    requires CleanPath(a) && CleanPath(b)
    ensures CleanPath(a + b)
  {
    LacksConcat(a, b, Hash);
    LacksConcat(a, b, Question);
  }

  lemma CleanHost(host: string)
    requires Plain(host) && Lacks(host, AuthorityEnd)
    ensures CleanPath(host)
  {
  }

  /** The identity past its slashes: it has no query and no fragment. */
  lemma BodyIsClean(url: string, p: Platform)
    requires Split(url, p).Url?
    ensures
      var u := Split(url, p);
      CleanPath(PrintHost(u.netloc) + u.path)
  {
    var u := Split(url, p);
    PartsAreClean(url, p);
    PrintHostStable(u.netloc);
    CleanHost(PrintHost(u.netloc));
    CleanTogether(PrintHost(u.netloc), u.path);
  }

  lemma SchemeSplits(scheme: string, rest: string)
    requires CleanScheme(scheme)
    ensures SplitScheme(scheme + [':'] + rest) == (scheme, rest)
  {
    PartitionAt(scheme, Colon, ':', rest);
    assert (scheme + [':'] + rest)[..|scheme|] == scheme;
  }

  /** A text up to its first delimiter is what it is with more behind one. */
  lemma FirstOver(a: string, b: string, m: Mark)
    requires b == "" || m.Has(b[0])
    ensures First(a + b, m) == First(a, m) && Before(a + b, m) == Before(a, m)
  {
    var i := First(a, m);
    forall k | 0 <= k < i ensures !m.Has((a + b)[k]) {
      assert (a + b)[k] == a[k];
    }
    assert i < |a + b| ==> (a + b)[i] == if i < |a| then a[i] else b[0];
    assert First(a + b, m) == i;
    assert (a + b)[..i] == a[..i];
  }

  lemma AuthoritySplits(body: string, tail: string)
    requires tail == "" || AuthorityEnd.Has(tail[0])
    ensures SplitAuthority("//" + body + tail) ==
            (Before(body, AuthorityEnd), body[First(body, AuthorityEnd)..] + tail)
  {
    var rest := "//" + body + tail;
    assert rest[2..] == body + tail;
    FirstOver(body, tail, AuthorityEnd);
    assert rest[2 + First(body, AuthorityEnd)..] == body[First(body, AuthorityEnd)..] + tail;
  }

  lemma NothingToClean(text: string)
    requires Plain(text) && (text == "" || !IsStripped(text[0]))
    ensures Drop(LStrip(text)) == text
  {
    DropPlain(text);
  }

  lemma CleanFrom(body: string, i: nat)
    requires CleanPath(body) && i <= |body|
    ensures CleanPath(body[i..])
  {
    assert forall k | 0 <= k < |body[i..]| :: body[i..][k] == body[i + k];
  }

  /** A printed identity with a fragment splits into its parts and nothing
      else, or not at all. */
  lemma PrintedSplits(scheme: string, body: string, fragment: string, p: Platform)
    requires CleanScheme(scheme) && CleanPath(body) && Plain(fragment)
    ensures Split(scheme + [':'] + ("//" + body + (['#'] + fragment)), p)
            == if NetlocOk(Before(body, AuthorityEnd), p)
               then Url(scheme, Before(body, AuthorityEnd), body[First(body, AuthorityEnd)..], "", fragment)
               else Malformed
  {
    var tail := ['#'] + fragment;
    var rest := "//" + body + tail;
    var text := scheme + [':'] + rest;
    assert text[0] == scheme[0];
    assert Plain(tail) && Plain(rest) && Plain(text);
    NothingToClean(text);
    SchemeSplits(scheme, rest);
    AuthoritySplits(body, tail);
    CleanFrom(body, First(body, AuthorityEnd));
    TailSplits(body[First(body, AuthorityEnd)..], fragment);
  }

  lemma TailSplits(path: string, fragment: string)
    requires CleanPath(path)
    ensures
      var tail := path + (['#'] + fragment);
      && Before(Before(tail, Hash), Question) == path && After(Before(tail, Hash), Question) == ""
      && After(tail, Hash) == fragment
  {
    assert path + (['#'] + fragment) == path + ['#'] + fragment;
    PartitionAt(path, Hash, '#', fragment);
    PartitionNone(path, Question);
  }

  lemma DigestIsPlain(digest: string)
    requires IsDigest(digest)
    ensures
      var fragment := SECRET_PREFIX + digest;
      && Plain(fragment) && Lacks(fragment, Question)
      && SECRET_PREFIX <= fragment && fragment[|SECRET_PREFIX|..] == digest
  {
    var prefix := SECRET_PREFIX;
    assert Plain(prefix) && Lacks(prefix, Question);
  }

  lemma SameText(scheme: string, host: string, path: string, prefix: string, digest: string)
    ensures scheme + "://" + host + path + "#" + prefix + digest
            == scheme + [':'] + ("//" + (host + path) + (['#'] + (prefix + digest)))
  {
  }

  /** The reference of a URL with a scheme splits into the identity's parts,
      when what it is read back with does. */
  lemma ReferenceSplits(url: string, p: Platform)
    requires Hashes(p) && Split(url, p).Url? && Split(url, p).scheme != ""
    ensures
      var u := Split(url, p);
      var body := PrintHost(u.netloc) + u.path;
      var netloc := ReferenceNetloc(u.netloc, u.path);
      Split(Redacted(url, p), p) ==
      if NetlocOk(netloc, p)
      then Url(u.scheme, netloc, body[First(body, AuthorityEnd)..], "", SECRET_PREFIX + p.sha(url))
      else Malformed
  {
    var u := Split(url, p);
    assert IsDigest(p.sha(url));
    PartsAreClean(url, p);
    BodyIsClean(url, p);
    DigestIsPlain(p.sha(url));
    PrintedSplits(u.scheme, PrintHost(u.netloc) + u.path, SECRET_PREFIX + p.sha(url), p);
    SameText(u.scheme, PrintHost(u.netloc), u.path, SECRET_PREFIX, p.sha(url));
  }

  /** A text that starts at a colon has neither scheme nor network location. */
  lemma ColonSplits(body: string, fragment: string, p: Platform)
    requires CleanPath(body) && Plain(fragment)
    ensures Split(":" + body + (['#'] + fragment), p) == Url("", "", ":" + body, "", fragment)
  {
    var text := ":" + body + (['#'] + fragment);
    assert Plain(":" + body) && Plain(text) && text[0] == ':';
    NothingToClean(text);
    assert First(text, Colon) == 0;
    LacksConcat(":", body, Hash);
    LacksConcat(":", body, Question);
    TailSplits(":" + body, fragment);
  }

  lemma ColonText(host: string, path: string, prefix: string, digest: string)
    ensures
      "" + "://" + host + path + "#" + prefix + digest
      == ":" + ("//" + (host + path)) + (['#'] + (prefix + digest))
    ensures ":" + ("//" + (host + path)) == "://" + host + path
  {
  }

  lemma SchemelessText(host: string, path: string, digest: string, p: Platform)
    requires CleanPath(host + path) && IsDigest(digest)
    ensures
      Split("" + "://" + host + path + "#" + SECRET_PREFIX + digest, p) ==
      Url("", "", "://" + host + path, "", SECRET_PREFIX + digest)
  {
    var body, fragment := host + path, SECRET_PREFIX + digest;
    DigestIsPlain(digest);
    CleanTogether("//", body);
    ColonSplits("//" + body, fragment, p);
    ColonText(host, path, SECRET_PREFIX, digest);
  }

  lemma SchemelessReferenceSplits(url: string, p: Platform)
    requires Hashes(p) && Split(url, p).Url? && Split(url, p).scheme == ""
    ensures
      var u := Split(url, p);
      Split(Redacted(url, p), p) ==
      Url("", "", "://" + PrintHost(u.netloc) + u.path, "", SECRET_PREFIX + p.sha(url))
  {
    var u := Split(url, p);
    assert IsDigest(p.sha(url));
    BodyIsClean(url, p);
    SchemelessText(PrintHost(u.netloc), u.path, p.sha(url), p);
  }

  // -- a text that does not split ----------------------------------------------------

  /** What decides whether a text splits. */
  function NetlocOf(url: string): string {
    SplitAuthority(SplitScheme(Drop(LStrip(url))).1).0
  }

  /** Nothing, or something from a question mark or hash on. */
  predicate Tail(r: string) {
    r == "" || r[0] == '?' || r[0] == '#'
  }

  lemma {:induction false} LStripOver(c: string, r: string)
    requires Tail(r)
    ensures LStrip(c + r) == LStrip(c) + r
  {
    if c == "" {
      assert c + r == r && LStrip(r) == r;
    } else if IsStripped(c[0]) {
      assert (c + r)[0] == c[0] && (c + r)[1..] == c[1..] + r;
      LStripOver(c[1..], r);
    } else {
      assert (c + r)[0] == c[0];
    }
  }

  lemma {:induction false} DropOver(c: string, r: string)
    requires Tail(r)
    ensures Drop(c + r) == Drop(c) + Drop(r) && Tail(Drop(r))
  {
    if c == "" {
      assert c + r == r;
    } else {
      assert (c + r)[1..] == c[1..] + r;
      DropOver(c[1..], r);
    }
  }

  lemma SchemeOver(d: string, r: string)
    requires Tail(r)
    ensures SplitScheme(d + r) == (SplitScheme(d).0, SplitScheme(d).1 + r)
  {
    var i := First(d + r, Colon);
    if i < |d| {
      assert forall k | 0 <= k < i :: d[k] == (d + r)[k];
      assert First(d, Colon) == i && (d + r)[..i] == d[..i] && (d + r)[i + 1..] == d[i + 1..] + r;
    } else {
      assert forall k | 0 <= k < |d| :: d[k] == (d + r)[k];
      assert First(d, Colon) == |d|;
      if i < |d + r| {
        assert (d + r)[..i][|d|] == r[0];
      }
    }
  }

  lemma AuthorityOver(e: string, r: string)
    requires Tail(r)
    ensures SplitAuthority(e + r).0 == SplitAuthority(e).0
  {
    if |e| >= 2 {
      assert (e + r)[0] == e[0] && (e + r)[1] == e[1] && (e + r)[2..] == e[2..] + r;
      FirstOver(e[2..], r, AuthorityEnd);
    } else if |e + r| >= 2 {
      assert (e + r)[|e|] == r[0];
    }
  }

  lemma HeadDecides(c: string, r: string)
    requires Tail(r)
    ensures NetlocOf(c + r) == NetlocOf(c)
  {
    LStripOver(c, r);
    DropOver(LStrip(c), r);
    SchemeOver(Drop(LStrip(c)), Drop(r));
    AuthorityOver(SplitScheme(Drop(LStrip(c))).1, Drop(r));
  }

  lemma CutAtTail(url: string)
    ensures
      var c := Before(Before(url, Question), Hash);
      |c| <= |url| && url == c + url[|c|..] && Tail(url[|c|..]) && Lacks(c, Question) && Lacks(c, Hash)
  {
    var head := Before(url, Question);
    var c := Before(head, Hash);
    assert forall k | 0 <= k < |c| :: c[k] == head[k];
    if |c| < |head| {
      assert url[|c|] == head[|c|];
    }
  }

  /** The reference of a text that does not split does not split either, and
      is cut where the text was. */
  lemma MalformedReferenceSplits(url: string, p: Platform)
    requires Hashes(p) && Split(url, p).Malformed?
    ensures
      var text := Redacted(url, p);
      Split(text, p).Malformed? && Lacks(text, Question) && Canonical(text, p) == Canonical(url, p)
  {
    var c := Before(Before(url, Question), Hash);
    CutAtTail(url);
    assert IsDigest(p.sha(url));
    DigestIsPlain(p.sha(url));
    CutTextSplits(c, url[|c|..], SECRET_PREFIX + p.sha(url), p);
    CutText(c, SECRET_PREFIX, p.sha(url));
  }

  lemma CutText(c: string, prefix: string, digest: string)
    ensures c + "#" + prefix + digest == c + (['#'] + (prefix + digest))
  {
  }

  lemma CutTextSplits(c: string, tail: string, fragment: string, p: Platform)
    requires Lacks(c, Question) && Lacks(c, Hash) && Tail(tail) && Lacks(fragment, Question)
    requires Split(c + tail, p).Malformed?
    ensures
      var text := c + (['#'] + fragment);
      Split(text, p).Malformed? && Lacks(text, Question) && Canonical(text, p) == c
  {
    var text := c + (['#'] + fragment);
    HeadDecides(c, tail);
    HeadDecides(c, ['#'] + fragment);
    CutBack(c, fragment);
  }

  lemma CutBack(c: string, fragment: string)
    requires Lacks(c, Question) && Lacks(c, Hash) && Lacks(fragment, Question)
    ensures
      var text := c + (['#'] + fragment);
      Lacks(text, Question) && Before(Before(text, Question), Hash) == c
  {
    var text := c + (['#'] + fragment);
    LacksConcat(['#'], fragment, Question);
    LacksConcat(c, ['#'] + fragment, Question);
    PartitionNone(text, Question);
    FirstOver(c, ['#'] + fragment, Hash);
    PartitionNone(c, Hash);
  }

  // -- what a reference keeps ----------------------------------------------------------

  /** The reference a plan keeps instead of a signed URL is recognised as one
      exactly when the URL splits and its identity does. */
  lemma ReferenceRecognisedIff(url: string, p: Platform)
    requires Hashes(p)
    ensures IsRedacted(Redacted(url, p), p) <==> Recognisable(url, p)
  {
    assert IsDigest(p.sha(url));
    DigestIsPlain(p.sha(url));
    if Split(url, p).Malformed? {
      MalformedReferenceSplits(url, p);
    } else if Split(url, p).scheme == "" {
      SchemelessReferenceSplits(url, p);
    } else {
      ReferenceSplits(url, p);
    }
  }

  lemma QuestionFree(scheme: string, host: string, path: string, digest: string)
    requires Lacks(scheme, Question) && CleanPath(host + path) && IsDigest(digest)
    ensures Lacks(scheme + "://" + host + path + "#" + SECRET_PREFIX + digest, Question)
  {
    DigestIsPlain(digest);
    var fragment := SECRET_PREFIX + digest;
    SameText(scheme, host, path, SECRET_PREFIX, digest);
    LacksConcat(['#'], fragment, Question);
    LacksConcat("//", host + path, Question);
    LacksConcat("//" + (host + path), ['#'] + fragment, Question);
    LacksConcat(scheme, [':'], Question);
    LacksConcat(scheme + [':'], "//" + (host + path) + (['#'] + fragment), Question);
  }

  lemma ReferenceLacksQuestion(url: string, p: Platform)
    requires Hashes(p) && Split(url, p).Url?
    ensures Lacks(Redacted(url, p), Question)
  {
    var u := Split(url, p);
    assert IsDigest(p.sha(url));
    PartsAreClean(url, p);
    BodyIsClean(url, p);
    SchemeLacksQuestion(u.scheme);
    QuestionFree(u.scheme, PrintHost(u.netloc), u.path, p.sha(url));
  }

  lemma SchemeLacksQuestion(scheme: string)
    requires scheme == "" || IsScheme(scheme)
    ensures Lacks(scheme, Question)
  {
  }

  /** Recognised or not, a reference is never refused as a signed URL. */
  lemma ReferenceIsSilent(url: string, p: Platform)
    requires Hashes(p)
    ensures !HasQuery(Redacted(url, p), p)
  {
    if Split(url, p).Malformed? {
      MalformedReferenceSplits(url, p);
    } else if Split(url, p).scheme == "" {
      SchemelessReferenceSplits(url, p);
    } else {
      ReferenceSplits(url, p);
      ReferenceLacksQuestion(url, p);
    }
  }

  lemma SameBody(scheme: string, a: string, b: string, rest: string)
    ensures scheme + "://" + a + rest == scheme + "://" + b + rest <==> a == b
  {
    var l, r := scheme + "://" + a + rest, scheme + "://" + b + rest;
    if l == r {
      assert |a| == |b|;
      assert l[|scheme| + 3..][..|a|] == a && r[|scheme| + 3..][..|b|] == b;
    }
  }

  lemma BodyAtFirst(scheme: string, host: string, path: string)
    ensures
      var body := host + path;
      scheme + "://" + host + path == scheme + "://" + Before(body, AuthorityEnd) + body[First(body, AuthorityEnd)..]
  {
    var body := host + path;
    assert body == Before(body, AuthorityEnd) + body[First(body, AuthorityEnd)..];
    assert scheme + "://" + host + path == scheme + "://" + body;
  }

  /** A recognised reference has the identity of its URL exactly when the URL
      has a scheme and its identity prints the host it is read back with. */
  lemma ReferenceKeepsIdentityIff(url: string, p: Platform)
    requires Hashes(p)
    ensures
      IsRedacted(Redacted(url, p), p) && Canonical(Redacted(url, p), p) == Canonical(url, p)
      <==> KeepsIdentity(url, p)
  {
    ReferenceRecognisedIff(url, p);
    if Recognisable(url, p) {
      var u := Split(url, p);
      if u.scheme == "" {
        SchemelessReferenceSplits(url, p);
        assert |Canonical(Redacted(url, p), p)| >= |Canonical(url, p)| + 3;
      } else {
        var body := PrintHost(u.netloc) + u.path;
        var netloc := ReferenceNetloc(u.netloc, u.path);
        ReferenceSplits(url, p);
        BodyAtFirst(u.scheme, PrintHost(u.netloc), u.path);
        SameBody(u.scheme, PrintHost(netloc), netloc, body[First(body, AuthorityEnd)..]);
      }
    }
  }

  lemma RootedNetloc(netloc: string, path: string)
    requires Plain(netloc) && Lacks(netloc, AuthorityEnd) && (path == "" || path[0] == '/')
    ensures ReferenceNetloc(netloc, path) == PrintHost(netloc)
  {
    PrintHostStable(netloc);
    FirstOver(PrintHost(netloc), path, AuthorityEnd);
    PartitionNone(PrintHost(netloc), AuthorityEnd);
  }

  /** For absolute URLs the two conditions are one. */
  lemma AbsoluteKeepsIdentity(url: string, p: Platform)
    requires Absolute(url, p)
    ensures ReferenceNetloc(Split(url, p).netloc, Split(url, p).path) == PrintHost(Split(url, p).netloc)
    ensures KeepsIdentity(url, p) <==> Recognisable(url, p)
  {
    var u := Split(url, p);
    PartsAreClean(url, p);
    RootedNetloc(u.netloc, u.path);
    PrintHostStable(u.netloc);
  }

  // -- recognisable, in words ------------------------------------------------------------

  /** What is known of an IPv6 address: it has a colon, starts at a digit or a
      colon, and stays one in lower case. */
  ghost predicate AddressFacts(p: Platform) {
    forall h :: p.isAddress(h) ==> !Lacks(h, Colon) && (IsHex(h[0]) || h[0] == ':') && p.isAddress(LowerHost(h))
  }

  lemma LowerMarks(host: string)
    ensures
      var h := LowerHost(host);
      && (Lacks(h, Colon) <==> Lacks(host, Colon))
      && (Lacks(h, OpenBracket) <==> Lacks(host, OpenBracket))
      && (Lacks(h, CloseBracket) <==> Lacks(host, CloseBracket))
      && (IsAscii(host) ==> IsAscii(h))
  {
    LowerIsStable(host);
    var h := LowerHost(host);
    assert forall k | 0 <= k < |h| :: h[k] == host[k] || h[k] == Lower(host[k]);
  }

  lemma FutureLowers(host: string)
    requires IsFuture(host)
    ensures IsFuture(LowerHost(host))
  {
    LowerIsStable(host);
    var h := LowerHost(host);
    var k :| 2 <= k < |host| - 1 && host[k] == '.' && host[0] == 'v' && forall j | 1 <= j < k :: IsHex(host[j]);
    assert h[k] == '.' && h[0] == 'v';
    assert forall j | 1 <= j < k :: IsHex(h[j]);
  }

  lemma HostChecksLowers(host: string, p: Platform)
    requires AddressFacts(p) && HostChecks(host, p)
    ensures HostChecks(LowerHost(host), p) && host != "" && host[0] != '[' && LowerHost(host)[0] != '['
  {
    LowerIsStable(host);
    if host != "" && host[0] == 'v' {
      FutureLowers(host);
    }
  }

  lemma AsciiConcat(a: string, b: string)
    requires IsAscii(a) && IsAscii(b)
    ensures IsAscii(a + b)
  {
  }

  lemma PortIsAscii(port: Option<nat>)
    ensures IsAscii(PrintPort(port))
  {
  }

  /** A checked host in brackets of its own, with a port, is accepted. */
  lemma BracketedIsOk(h: string, port: Option<nat>, p: Platform)
    requires p.wholeHost && HostChecks(h, p) && Lacks(h, CloseBracket) && Lacks(h, At) && IsAscii(h)
    ensures NetlocOk("[" + h + "]" + PrintPort(port), p)
  {
    var netloc := "[" + h + "]" + PrintPort(port);
    PrintedPort(port);
    PortIsAscii(port);
    AsciiConcat("[" + h + "]", PrintPort(port));
    BracketedShape(h, PrintPort(port));
    assert netloc[0] == '[' && First(netloc, OpenBracket) == 0;
    assert netloc[|h| + 1] == ']';
    PartitionAt(h, CloseBracket, ']', PrintPort(port));
  }

  lemma NameIsOkIff(h: string, port: Option<nat>, p: Platform)
    requires GoodHost(h) && IsAscii(h) && Lacks(h, Colon)
    ensures NetlocOk(h + PrintPort(port), p) <==> Lacks(h, OpenBracket) && Lacks(h, CloseBracket)
  {
    PrintedPort(port);
    PortIsAscii(port);
    AsciiConcat(h, PrintPort(port));
    LacksConcat(h, PrintPort(port), OpenBracket);
    LacksConcat(h, PrintPort(port), CloseBracket);
  }

  /** A host with a colon stood in brackets, and was checked. */
  lemma ColonHostWasChecked(netloc: string, p: Platform)
    requires p.wholeHost && NetlocOk(netloc, p) && !Lacks(HostInfo(netloc).0, Colon)
    ensures HostChecks(HostInfo(netloc).0, p)
  {
    var info := AfterLastAt(netloc);
    if Lacks(netloc, OpenBracket) {
      forall k | 0 <= k < |info| ensures info[k] != '[' {
        assert info[k] in netloc;
      }
    }
  }

  lemma HostIsAscii(netloc: string)
    requires IsAscii(netloc)
    ensures IsAscii(HostInfo(netloc).0)
  {
    var info := AfterLastAt(netloc);
    forall k | 0 <= k < |info| ensures info[k] as int < 128 {
      assert info[k] in netloc;
    }
  }

  /** An absolute URL with an ASCII host is recognisable exactly when the host
      has a colon, as an IPv6 address has, or no bracket of its own. */
  lemma RecognisableInWords(url: string, p: Platform)
    requires Absolute(url, p) && p.wholeHost && AddressFacts(p) && IsAscii(Split(url, p).netloc)
    ensures
      var host := HostInfo(Split(url, p).netloc).0;
      Recognisable(url, p) <==> !Lacks(host, Colon) || (Lacks(host, OpenBracket) && Lacks(host, CloseBracket))
  {
    var netloc := Split(url, p).netloc;
    var host, port := HostInfo(netloc).0, PortOf(HostInfo(netloc).1);
    PartsAreClean(url, p);
    AbsoluteKeepsIdentity(url, p);
    HostIsGood(netloc);
    HostIsAscii(netloc);
    LowerKeeps(host);
    LowerMarks(host);
    assert PrintHost(netloc) == Bracketed(LowerHost(host)) + PrintPort(port);
    if Lacks(host, Colon) {
      NameIsOkIff(LowerHost(host), port, p);
    } else {
      ColonHostWasChecked(netloc, p);
      HostChecksLowers(host, p);
      BracketedIsOk(LowerHost(host), port, p);
    }
  }

  // -- URLs whose reference is not recognised ---------------------------------------------

  /** A signed URL splits into the parts it was put together from, when its
      network location is accepted. */
  lemma SignedSplits(scheme: string, netloc: string, path: string, query: string, p: Platform)
    requires CleanScheme(scheme) && Plain(netloc) && Lacks(netloc, AuthorityEnd)
    requires CleanPath(path) && path != "" && path[0] == '/' && Plain(query) && Lacks(query, Hash)
    ensures Split(scheme + [':'] + ("//" + netloc + (path + ['?'] + query)), p)
            == if NetlocOk(netloc, p) then Url(scheme, netloc, path, query, "") else Malformed
  {
    var tail := path + ['?'] + query;
    var rest := "//" + netloc + tail;
    var text := scheme + [':'] + rest;
    assert text[0] == scheme[0];
    assert Plain(tail) && Plain(rest) && Plain(text);
    NothingToClean(text);
    SchemeSplits(scheme, rest);
    AuthoritySplits(netloc, tail);
    PartitionNone(netloc, AuthorityEnd);
    assert netloc[|netloc|..] + tail == tail;
    QueryTailSplits(path, query);
  }

  lemma QueryTailSplits(path: string, query: string)
    requires CleanPath(path) && Lacks(query, Hash)
    ensures
      var tail := path + ['?'] + query;
      && Before(Before(tail, Hash), Question) == path && After(Before(tail, Hash), Question) == query
      && After(tail, Hash) == ""
  {
    var tail := path + ['?'] + query;
    LacksConcat(path, ['?'], Hash);
    LacksConcat(path + ['?'], query, Hash);
    PartitionNone(tail, Hash);
    PartitionAt(path, Question, '?', query);
  }

  /** An IPvFuture name in lower case with an opening bracket of its own and
      no colon. */
  predicate OddName(name: string) {
    && IsFuture(name) && IsAscii(name) && Plain(name) && Lacks(name, AuthorityEnd) && Lacks(name, At)
    && Lacks(name, CloseBracket) && Lacks(name, Colon) && Lacks(name, Percent) && !Lacks(name, OpenBracket)
    && forall k | 0 <= k < |name| :: Lower(name[k]) == name[k]
  }

  /** Such URLs split, on every platform: an odd name in brackets, as in
      "http://[v1.a[b]/p?k". */
  lemma BracketedNameIsUnrecognised(name: string, query: string, p: Platform)
    requires OddName(name) && query != "" && Plain(query) && Lacks(query, Hash)
    ensures
      var url := "http" + [':'] + ("//" + ("[" + name + "]") + ("/p" + ['?'] + query));
      Absolute(url, p) && HasQuery(url, p) && !Recognisable(url, p)
  {
    InBrackets(name, p);
    HttpIsClean();
    SignedSplits("http", "[" + name + "]", "/p", query, p);
    OddNamePrints(name);
    RootedNetloc("[" + name + "]", "/p");
  }

  lemma HttpIsClean()
    ensures CleanScheme("http") && CleanPath("/p")
  {
    var scheme := "http";
    assert LowerAll(scheme) == scheme;
  }

  /** One of them, whatever its query and the platform. */
  lemma ExampleIsUnrecognised(query: string, p: Platform)
    requires query != "" && Plain(query) && Lacks(query, Hash)
    ensures
      var url := "http" + [':'] + ("//" + ("[" + "v1.a[b" + "]") + ("/p" + ['?'] + query));
      Absolute(url, p) && HasQuery(url, p) && !Recognisable(url, p)
  {
    OddNameExists();
    BracketedNameIsUnrecognised("v1.a[b", query, p);
  }

  lemma OddNameExists()
    ensures OddName("v1.a[b")
  {
    var name := "v1.a[b";
    assert IsFuture(name) by {
      assert name[2] == '.' && name[0] == 'v' && name[1] == '1';
    }
    assert name[4] == '[';
  }

  /** A name in brackets is checked as it stands. */
  lemma InBrackets(name: string, p: Platform)
    requires Plain(name) && Lacks(name, AuthorityEnd) && Lacks(name, At) && Lacks(name, CloseBracket)
    ensures
      var netloc := "[" + name + "]";
      && Plain(netloc) && Lacks(netloc, AuthorityEnd)
      && (IsAscii(name) && HostChecks(name, p) ==> NetlocOk(netloc, p))
      && (!HostChecks(name, p) ==> !NetlocOk(netloc, p))
  {
    var netloc := "[" + name + "]";
    LacksConcat("[" + name, "]", AuthorityEnd);
    LacksConcat("[", name, AuthorityEnd);
    assert netloc == "[" + name + "]" + "";
    BracketedShape(name, "");
    assert netloc[0] == '[' && First(netloc, OpenBracket) == 0;
    assert netloc[|name| + 1] == ']';
    PartitionAt(name, CloseBracket, ']', "");
    assert name + [']'] == name + [']'] + "";
  }

  lemma OddNamePrints(name: string)
    requires OddName(name)
    ensures PrintHost("[" + name + "]") == name && !Balanced(name)
  {
    assert "[" + name + "]" + "" == "[" + name + "]";
    BracketsReadBack(name, "");
    PartitionNone("", Colon);
    OddNameIsLower(name);
    assert Bracketed(name) == name;
  }

  lemma OddNameIsLower(name: string)
    requires OddName(name)
    ensures LowerHost(name) == name
  {
    PartitionNone(name, Percent);
    assert LowerAll(name) == name;
    assert name[..|name|] == name;
  }

  /** Another such URL, that does not split: a name in brackets that is no
      address, as in "http://[bad]/p?k". */
  lemma UnsplitIsUnrecognised(name: string, query: string, p: Platform)
    requires Plain(name) && Lacks(name, AuthorityEnd) && Lacks(name, At) && Lacks(name, CloseBracket)
    requires !HostChecks(name, p)
    requires Plain(query) && Lacks(query, Hash)
    ensures
      var url := "http" + [':'] + ("//" + ("[" + name + "]") + ("/p" + ['?'] + query));
      Split(url, p).Malformed? && HasQuery(url, p) && !Recognisable(url, p)
  {
    InBrackets(name, p);
    HttpIsClean();
    SignedSplits("http", "[" + name + "]", "/p", query, p);
    QuestionStays("http" + [':'] + ("//" + ("[" + name + "]") + "/p"), query);
    assert "http" + [':'] + ("//" + ("[" + name + "]") + ("/p" + ['?'] + query))
        == "http" + [':'] + ("//" + ("[" + name + "]") + "/p") + ['?'] + query;
  }

  lemma QuestionStays(a: string, b: string)
    ensures !Lacks(a + ['?'] + b, Question)
  {
    assert (a + ['?'] + b)[|a|] == '?';
  }
}
