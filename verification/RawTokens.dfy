/** Validation-free tokenization of a URL candidate (packages/core/src/parse/raw-tokens.ts and
    the primitives of packages/core/src/parse/syntax.ts). */
module RawTokens {
  import opened Wrappers
  import opened Texts

  datatype Tokens = Tokens(
    rawScheme: Option<string>,
    scheme: Option<string>,
    protocolRelative: bool,
    opaquePath: bool,
    authorityIntroducer: string,
    authority: string,
    path: string,
    query: Option<string>,
    fragment: Option<string>)

  const KNOWN_SCHEMES: seq<string> := [
    "http", "https", "ftp", "ftps", "ws", "wss", "file", "mailto", "tel", "about", "chrome",
    "view-source", "javascript", "data", "vbscript", "blob"]

  const OPAQUE_SCHEMES: seq<string> := ["javascript", "data", "vbscript", "blob", "mailto", "tel", "about"]

  predicate IsKnownScheme(candidate: string) { candidate in KNOWN_SCHEMES }

  predicate IsOpaqueScheme(candidate: string) { candidate in OPAQUE_SCHEMES }

  predicate IsDigit(c: char) { '0' <= c <= '9' }

  predicate IsAlpha(c: char) { 'a' <= c <= 'z' || 'A' <= c <= 'Z' }

  predicate IsSchemeChar(c: char) {
    IsAlpha(c) || IsDigit(c) || c == '+' || c == '.' || c == '-'
  }

  /** First position in `s[from..]` whose character is in `chars`, or the length. */
  function Span(s: string, from: nat, stop: char -> bool): (n: nat)
    requires from <= |s|
    ensures from <= n <= |s|
    ensures forall i :: from <= i < n ==> !stop(s[i])
    ensures n < |s| ==> stop(s[n])
    decreases |s| - from
  {
    if from == |s| || stop(s[from]) then from else Span(s, from + 1, stop)
  }

  /** The loop of `firstIndexOf`. */
  method FirstIndexOf(s: string, chars: string) returns (at: Option<nat>)
    ensures at.None? ==> forall i :: 0 <= i < |s| ==> s[i] !in chars
    ensures at.Some? ==> at.value < |s| && s[at.value] in chars && forall i :: 0 <= i < at.value ==> s[i] !in chars
  {
    for i := 0 to |s|
      invariant forall j :: 0 <= j < i ==> s[j] !in chars
    {
      if s[i] in chars {
        return Some(i);
      }
    }
    return None;
  }

  /** Length of the token matched by SCHEME_RE before its colon, if it matches. */
  function SchemeLength(s: string): (n: Option<nat>)
    ensures n.Some? ==> 0 < n.value < |s| && s[n.value] == ':'
    ensures n.Some? ==> forall i :: 0 <= i < n.value ==> IsSchemeChar(s[i])
  {
    if s == "" || !IsAlpha(s[0]) then None
    else
      var n := Span(s, 1, (c: char) => !IsSchemeChar(c));
      if n < |s| && s[n] == ':' then Some(n) else None
  }

  /** `^\d+([/?#]|$)` */
  predicate StartsWithPort(after: string) {
    var n := Span(after, 0, (c: char) => !IsDigit(c));
    n > 0 && (n == |after| || after[n] in "/?#")
  }

  predicate LooksLikeHostPort(candidate: string, after: string) {
    ('.' in candidate || StartsWithPort(after)) && !IsKnownScheme(candidate)
  }

  predicate IsSlash(c: char) { c == '/' || c == '\\' }

  predicate StartsWithTwoSlashes(s: string) {
    |s| >= 2 && IsSlash(s[0]) && IsSlash(s[1])
  }

  datatype Body = Body(path: string, query: Option<string>, fragment: Option<string>)

  function Suffix(mark: char, part: Option<string>): string {
    if part.Some? then [mark] + part.value else ""
  }

  function JoinBody(b: Body): string {
    b.path + Suffix('?', b.query) + Suffix('#', b.fragment)
  }

  /** No part contains a character that would have ended it. */
  ghost predicate CleanBody(b: Body) {
    && '?' !in b.path && '#' !in b.path
    && (b.query.Some? ==> '#' !in b.query.value)
  }

  /** Cut at the first occurrence of the mark, if there is one. */
  method CutOff(s: string, mark: char) returns (head: string, tail: Option<string>)
    ensures head + Suffix(mark, tail) == s && mark !in head
    ensures forall c :: c !in s ==> c !in head && (tail.Some? ==> c !in tail.value)
  {
    var at := Span(s, 0, (c: char) => c == mark);
    if at == |s| {
      return s, None;
    }
    assert s == s[..at] + ([mark] + s[at + 1..]);
    return s[..at], Some(s[at + 1..]);
  }

  /** First the fragment is cut off, then the query. */
  method SplitPathQueryFragment(input: string) returns (b: Body)
    ensures JoinBody(b) == input && CleanBody(b)
  {
    hide Suffix;
    var work, fragment := CutOff(input, '#');
    var path, query := CutOff(work, '?');
    b := Body(path, query, fragment);
  }

  /** The split is the only one: joining clean parts and splitting gives them back. */
  lemma BodyIsUnique(a: Body, b: Body)
    requires CleanBody(a) && CleanBody(b) && JoinBody(a) == JoinBody(b)
    ensures a == b
  {
    var s := JoinBody(a);
    CutAt(a.path + Suffix('?', a.query), Suffix('#', a.fragment), b.path + Suffix('?', b.query), Suffix('#', b.fragment), '#');
    CutAt(a.path, Suffix('?', a.query), b.path, Suffix('?', b.query), '?');
    SuffixInjective('?', a.query, b.query);
    SuffixInjective('#', a.fragment, b.fragment);
  }

  lemma SuffixInjective(mark: char, x: Option<string>, y: Option<string>)
    requires Suffix(mark, x) == Suffix(mark, y)
    ensures x == y
  {
    if x.Some? && y.Some? {
      assert x.value == Suffix(mark, x)[1..] && y.value == Suffix(mark, y)[1..];
    }
  }

  /** Two heads without the mark, each followed by nothing or by the mark, split alike. */
  lemma CutAt(p: string, u: string, q: string, v: string, mark: char)
    requires p + u == q + v && mark !in p && mark !in q
    requires (u == "" || u[0] == mark) && (v == "" || v[0] == mark)
    ensures p == q && u == v
  {
    var s := p + u;
    assert s == q + v;
    assert forall i :: 0 <= i < |p| ==> s[i] == p[i];
    assert forall i :: 0 <= i < |q| ==> s[i] == q[i];
    assert u != "" ==> s[|p|] == u[0];
    assert v != "" ==> s[|q|] == v[0];
    assert |p| == |q|;
    assert p == s[..|p|] && q == s[..|q|];
    assert u == s[|p|..] && v == s[|q|..];
  }

  /** The whole leading run of slashes and backslashes, when an authority is explicit. */
  ghost predicate IsIntroducer(rest: string, explicit: bool, run: string) {
    && run <= rest && (forall i :: 0 <= i < |run| ==> IsSlash(run[i]))
    && (if explicit && StartsWithTwoSlashes(rest) then |run| >= 2 && (|run| == |rest| || !IsSlash(rest[|run|])) else run == "")
  }

  method LeadingAuthorityIntroducer(rest: string, hasScheme: bool, protocolRelative: bool) returns (run: string)
    ensures IsIntroducer(rest, hasScheme || protocolRelative, run)
  {
    if (!hasScheme && !protocolRelative) || !StartsWithTwoSlashes(rest) {
      return "";
    }
    var end := 0;
    while end < |rest| && IsSlash(rest[end])
      invariant end <= |rest| && forall i :: 0 <= i < end ==> IsSlash(rest[i])
      invariant end < 2 ==> IsSlash(rest[end])
    {
      end := end + 1;
    }
    run := rest[..end];
  }

  datatype Hostless = Hostless(authorityIntroducer: string, path: string)

  /** `file:` without a host: an empty authority or a bare path. */
  function HostlessFileBody(rest: string): (h: Option<Hostless>)
    ensures h.Some? <==>
      rest == "" || (IsSlash(rest[0]) && (StartsWithTwoSlashes(rest) ==> |rest| == 2 || rest[2] == '/'))
    ensures h.Some? ==> |h.value.authorityIntroducer| == if StartsWithTwoSlashes(rest) then 2 else 0
    ensures h.Some? ==> h.value.authorityIntroducer + h.value.path == rest
    ensures h.Some? ==> forall i :: 0 <= i < |h.value.authorityIntroducer| ==> IsSlash(h.value.authorityIntroducer[i])
  {
    if rest == "" || IsSlash(rest[0]) then
      if StartsWithTwoSlashes(rest) then
        if |rest| == 2 || rest[2] == '/' then Some(Hostless(rest[..2], rest[2..])) else None
      else Some(Hostless("", rest))
    else None
  }

  function SchemePrefix(t: Tokens): string {
    if t.rawScheme.Some? then t.rawScheme.value + ":" else ""
  }

  function BodyOf(t: Tokens): Body {
    Body(t.path, t.query, t.fragment)
  }

  /** Putting the raw regions back together. */
  function Rebuild(t: Tokens): string {
    SchemePrefix(t) + t.authorityIntroducer + t.authority + JoinBody(BodyOf(t))
  }

  /** What a reader of the regions relies on. */
  ghost predicate CleanTokens(t: Tokens) {
    && CleanScheme(t.rawScheme, t.scheme)
    && CleanBody(BodyOf(t))
    && (forall i :: 0 <= i < |t.authority| ==> t.authority[i] !in "/?#")
    && (forall i :: 0 <= i < |t.authorityIntroducer| ==> IsSlash(t.authorityIntroducer[i]))
    && (t.opaquePath ==> t.scheme.Some? && IsOpaqueScheme(t.scheme.value) && t.authority == "" && t.authorityIntroducer == "")
    && (t.protocolRelative ==> t.scheme.None? && |t.authorityIntroducer| >= 2)
  }

  ghost predicate CleanScheme(rawScheme: Option<string>, scheme: Option<string>) {
    match rawScheme
    case None => scheme.None?
    case Some(raw) =>
      raw != "" && scheme == Some(Lower(raw)) && forall i :: 0 <= i < |raw| ==> IsSchemeChar(raw[i])
  }

  /** A scheme-looking prefix is a scheme unless it looks like a bare `host:port`. */
  function SchemeOf(prepared: string): (raw: Option<string>)
    ensures raw.Some? ==> raw.value != "" && raw.value + ":" <= prepared
    ensures raw.Some? ==> forall i :: 0 <= i < |raw.value| ==> IsSchemeChar(raw.value[i])
  {
    var m := SchemeLength(prepared);
    if m.Some? && !LooksLikeHostPort(Lower(prepared[..m.value]), prepared[m.value + 1..])
    then Some(prepared[..m.value]) else None
  }

  /** Digits followed by the end or by a delimiter. */
  ghost predicate IsPort(after: string, k: nat) {
    && 0 < k <= |after| && (forall i :: 0 <= i < k ==> '0' <= after[i] <= '9')
    && (k == |after| || after[k] == '/' || after[k] == '?' || after[k] == '#')
  }

  ghost predicate HasPort(after: string) {
    exists k: nat :: IsPort(after, k)
  }

  lemma PortExactly(after: string)
    ensures StartsWithPort(after) <==> HasPort(after)
  {
    var n := Span(after, 0, (c: char) => !IsDigit(c));
    if k: nat :| IsPort(after, k) {
      assert k < |after| ==> !IsDigit(after[k]);
      assert n < |after| ==> !IsDigit(after[n]);
      assert k == n;
    }
    if StartsWithPort(after) {
      assert IsPort(after, n);
    }
  }

  /** Letters, digits, `+`, `.` and `-` before the first colon, starting with a letter. */
  ghost predicate IsSchemeToken(s: string, n: nat) {
    && 0 < n < |s| && s[n] == ':' && ('a' <= s[0] <= 'z' || 'A' <= s[0] <= 'Z')
    && (forall i :: 0 <= i < n ==>
          || 'a' <= s[i] <= 'z' || 'A' <= s[i] <= 'Z' || '0' <= s[i] <= '9' || s[i] == '+' || s[i] == '.' || s[i] == '-')
  }

  /** When a prefix is a scheme, on the characters: it is a scheme token that is a known scheme, or
      that has no dot and is not followed by what would be a port. */
  lemma SchemeExactly(prepared: string)
    ensures SchemeOf(prepared).Some? <==>
      exists n: nat :: IsSchemeToken(prepared, n) &&
        (Lower(prepared[..n]) in KNOWN_SCHEMES ||
         ('.' !in prepared[..n] && !HasPort(prepared[n + 1..])))
    ensures forall n: nat :: IsSchemeToken(prepared, n) && SchemeOf(prepared).Some? ==> SchemeOf(prepared).value == prepared[..n]
  {
    hide HasPort, StartsWithPort, IsKnownScheme;
    forall n: nat | IsSchemeToken(prepared, n) ensures SchemeLength(prepared) == Some(n) {
      var m := Span(prepared, 1, (c: char) => !IsSchemeChar(c));
      assert !IsSchemeChar(prepared[n]);
      assert m == n;
    }
    if SchemeLength(prepared).Some? {
      var n := SchemeLength(prepared).value;
      assert IsSchemeToken(prepared, n);
      PortExactly(prepared[n + 1..]);
      DotKept(prepared[..n]);
      KnownExactly(Lower(prepared[..n]));
    }
  }

  lemma DotKept(s: string)
    ensures '.' in Lower(s) <==> '.' in s
  {
    LowerKeeps(s, '.');
  }

  lemma KnownExactly(candidate: string)
    ensures IsKnownScheme(candidate) <==> candidate in KNOWN_SCHEMES
  {
  }

  /** The lists themselves. */
  lemma SchemeLists(candidate: string)
    ensures IsOpaqueScheme(candidate) <==>
      candidate == "javascript" || candidate == "data" || candidate == "vbscript" || candidate == "blob" ||
      candidate == "mailto" || candidate == "tel" || candidate == "about"
    ensures IsKnownScheme(candidate) <==>
      IsOpaqueScheme(candidate) || candidate == "http" || candidate == "https" || candidate == "ftp" || candidate == "ftps" ||
      candidate == "ws" || candidate == "wss" || candidate == "file" || candidate == "chrome" || candidate == "view-source"
  {
  }

  lemma SlashesExactly(s: string)
    ensures StartsWithTwoSlashes(s) <==> |s| >= 2 && s[0] in "/\\" && s[1] in "/\\"
  {
  }

  /** A bare host and port, `localhost:8080` say, is not a scheme. */
  lemma HostPortIsNoScheme(s: string, n: nat)
    requires IsSchemeToken(s, n) && Lower(s[..n]) !in KNOWN_SCHEMES && HasPort(s[n + 1..])
    ensures SchemeOf(s) == None
  {
    hide HasPort, Lower;
    SchemeExactly(s);
    forall m: nat | IsSchemeToken(s, m) ensures m == n {
      assert s[n] == ':' && s[m] == ':';
    }
  }

  /** The complete specification of a tokenization. */
  ghost predicate IsTokenization(prepared: string, t: Tokens) {
    && Rebuild(t) == prepared && CleanTokens(t)
    && t.rawScheme == SchemeOf(prepared)
    && (t.protocolRelative <==> t.scheme.None? && StartsWithTwoSlashes(prepared))
    && IsSplit(prepared[|SchemePrefix(t)|..], t)
  }

  /** How the text after the scheme is divided, by branch. */
  ghost predicate IsSplit(rest: string, t: Tokens) {
    if t.scheme.Some? && IsOpaqueScheme(t.scheme.value) && !StartsWithTwoSlashes(rest) then
      t.opaquePath && t.authorityIntroducer == "" && t.authority == ""
    else if t.scheme == Some("file") && HostlessFileBody(rest).Some? then
      !t.opaquePath && t.authorityIntroducer == HostlessFileBody(rest).value.authorityIntroducer && t.authority == ""
    else
      && !t.opaquePath && IsIntroducer(rest, t.scheme.Some? || t.protocolRelative, t.authorityIntroducer)
      && (t.path == "" || t.path[0] == '/')
  }

  /** It leaves no choice: a string has at most one tokenization. */
  lemma TokenizationIsUnique(prepared: string, t: Tokens, u: Tokens)
    requires IsTokenization(prepared, t) && IsTokenization(prepared, u)
    ensures t == u
  {
    hide JoinBody, CleanBody, IsOpaqueScheme, SchemeOf, IsSchemeChar, Lower, HostlessFileBody;
    var rest := prepared[|SchemePrefix(t)|..];
    RestOfRebuild(t, prepared, rest);
    RestOfRebuild(u, prepared, rest);
    SameIntroducer(rest, t, u);
    var region := t.authority + JoinBody(BodyOf(t));
    assert t.authorityIntroducer + region == t.authorityIntroducer + (u.authority + JoinBody(BodyOf(u)));
    assert region == (t.authorityIntroducer + region)[|t.authorityIntroducer|..];
    assert u.authority + JoinBody(BodyOf(u)) == region;
    SameAuthority(t, u);
    BodyIsUnique(BodyOf(t), BodyOf(u));
  }

  lemma RestOfRebuild(t: Tokens, prepared: string, rest: string)
    requires Rebuild(t) == prepared && rest == prepared[|SchemePrefix(t)|..]
    ensures rest == t.authorityIntroducer + (t.authority + JoinBody(BodyOf(t)))
  {
    hide JoinBody, SchemePrefix;
    Regroup(SchemePrefix(t), t.authorityIntroducer, t.authority, JoinBody(BodyOf(t)));
  }

  lemma SameIntroducer(rest: string, t: Tokens, u: Tokens)
    requires IsSplit(rest, t) && IsSplit(rest, u) && t.scheme == u.scheme && t.protocolRelative == u.protocolRelative
    ensures t.authorityIntroducer == u.authorityIntroducer && t.opaquePath == u.opaquePath
  {
    hide HostlessFileBody, IsOpaqueScheme;
    var a, b := t.authorityIntroducer, u.authorityIntroducer;
    assert a <= rest && b <= rest && |a| == |b| ==> a == rest[..|a|] == b;
  }

  /** The authority ends where its region's first delimiter is. */
  lemma SameAuthority(t: Tokens, u: Tokens)
    requires CleanTokens(t) && CleanTokens(u)
    requires t.authority + JoinBody(BodyOf(t)) == u.authority + JoinBody(BodyOf(u))
    requires (t.authority == "" && u.authority == "") || ((t.path == "" || t.path[0] == '/') && (u.path == "" || u.path[0] == '/'))
    ensures t.authority == u.authority && JoinBody(BodyOf(t)) == JoinBody(BodyOf(u))
  {
    var p, x, q, y := t.authority, JoinBody(BodyOf(t)), u.authority, JoinBody(BodyOf(u));
    if !(p == "" && q == "") {
      BodyStart(BodyOf(t));
      BodyStart(BodyOf(u));
      var s := p + x;
      assert forall i :: 0 <= i < |p| ==> s[i] == p[i];
      assert forall i :: 0 <= i < |q| ==> s[i] == q[i];
      assert x != "" ==> s[|p|] == x[0];
      assert y != "" ==> s[|q|] == y[0];
      assert |p| == |q|;
      assert p == s[..|p|] == q;
    }
    assert x == (p + x)[|p|..] && y == (q + y)[|q|..];
  }

  lemma BodyStart(b: Body)
    requires b.path == "" || b.path[0] == '/'
    ensures JoinBody(b) == "" || JoinBody(b)[0] in "/?#"
  {
  }

  method SplitScheme(prepared: string) returns (rawScheme: Option<string>, scheme: Option<string>, rest: string)
    ensures rawScheme == SchemeOf(prepared) && CleanScheme(rawScheme, scheme)
    ensures (rawScheme.Some? <==> scheme.Some?)
    ensures (if rawScheme.Some? then rawScheme.value + ":" else "") + rest == prepared
  {
    var m := SchemeLength(prepared);
    if m.Some? {
      var raw, after := prepared[..m.value], prepared[m.value + 1..];
      if !LooksLikeHostPort(Lower(raw), after) {
        assert prepared == raw + ":" + after;
        return Some(raw), Some(Lower(raw)), after;
      }
    }
    return None, None, prepared;
  }

  /** The authority runs to the first `/`, `?` or `#`. */
  method SplitAuthority(region: string) returns (authority: string, body: Body)
    ensures authority + JoinBody(body) == region && CleanBody(body)
    ensures forall i :: 0 <= i < |authority| ==> authority[i] !in "/?#"
    ensures body.path == "" || body.path[0] == '/'
  {
    var delimiter := FirstIndexOf(region, "/?#");
    authority := if delimiter.None? then region else region[..delimiter.value];
    var remainder := if delimiter.None? then "" else region[delimiter.value..];
    assert authority + remainder == region;
    body := SplitPathQueryFragment(remainder);
    assert body.path != "" ==> JoinBody(body)[0] == body.path[0];
  }

  lemma Assemble(t: Tokens, rest: string, prepared: string)
    requires SchemePrefix(t) + rest == prepared
    requires t.authorityIntroducer + (t.authority + JoinBody(BodyOf(t))) == rest
    ensures Rebuild(t) == prepared && prepared[|SchemePrefix(t)|..] == rest
  {
    hide JoinBody, SchemePrefix;
    Regroup(SchemePrefix(t), t.authorityIntroducer, t.authority, JoinBody(BodyOf(t)));
  }

  lemma Regroup(a: string, b: string, c: string, d: string)
    ensures a + b + c + d == a + (b + (c + d))
  {
    assert b + (c + d) == (b + c) + d;
    assert a + ((b + c) + d) == (a + (b + c)) + d;
    assert a + (b + c) == (a + b) + c;
  }

  /** Tokenization loses nothing, for every string and in every branch. */
  method TokenizeRawUrl(prepared: string) returns (t: Tokens)
    ensures IsTokenization(prepared, t)
  {
    hide JoinBody, CleanBody, Rebuild, IsOpaqueScheme, CleanScheme, SchemeOf, IsSlash, HostlessFileBody;
    var rawScheme, scheme, rest := SplitScheme(prepared);
    var protocolRelative := scheme.None? && StartsWithTwoSlashes(prepared);
    var isOpaque := scheme.Some? && IsOpaqueScheme(scheme.value) && !StartsWithTwoSlashes(rest);
    if isOpaque {
      var body := SplitPathQueryFragment(rest);
      t := Tokens(rawScheme, scheme, protocolRelative, isOpaque, "", "", body.path, body.query, body.fragment);
      assert BodyOf(t) == body;
      Assemble(t, rest, prepared);
      return;
    }
    if scheme == Some("file") {
      var hostless := HostlessFileBody(rest);
      if hostless.Some? {
        var body := SplitPathQueryFragment(hostless.value.path);
        t := Tokens(rawScheme, scheme, protocolRelative, isOpaque, hostless.value.authorityIntroducer, "",
                    body.path, body.query, body.fragment);
        assert BodyOf(t) == body;
        Assemble(t, rest, prepared);
        return;
      }
    }
    var introducer := LeadingAuthorityIntroducer(rest, scheme.Some?, protocolRelative);
    assert introducer + rest[|introducer|..] == rest;
    var authority, body := SplitAuthority(rest[|introducer|..]);
    t := Tokens(rawScheme, scheme, protocolRelative, isOpaque, introducer, authority, body.path, body.query, body.fragment);
    assert BodyOf(t) == body;
    Assemble(t, rest, prepared);
  }
}
