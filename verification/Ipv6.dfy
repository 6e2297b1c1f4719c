/** IPv6 literals: the parser, the two canonical printers of RFC 5952 (sections 4 and 5) and
    the transition wrappers (packages/core/src/parse/ip.ts), with the second reader of
    packages/core/src/detectors/ip-classification.ts. */
module Ipv6 {
  import opened Wrappers
  import opened Texts
  import opened Numerals
  import opened Ipv4

  ghost predicate AreHextets(g: seq<nat>) {
    forall i :: 0 <= i < |g| ==> g[i] < 0x1_0000
  }

  /** The eight 16-bit groups of an address. */
  ghost predicate IsAddress(g: seq<nat>) {
    |g| == 8 && AreHextets(g)
  }

  // ---------- reading ----------

  predicate IsHextet(p: string) {
    1 <= |p| <= 4 && AllDigits(p, 16)
  }

  /** The groups of a colon-separated run; a dotted quad only in the final position. */
  function GroupsOf(parts: seq<string>): Option<seq<nat>> {
    if parts == [] then Some([])
    else if '.' in parts[0] then
      var v4 := ParseStrictDottedQuad(parts[0]);
      if |parts| == 1 && v4.Some? then Some([v4.value / 0x1_0000, v4.value % 0x1_0000]) else None
    else if !IsHextet(parts[0]) then None
    else
      var rest := GroupsOf(parts[1..]);
      if rest.Some? then Some([ValueOf(parts[0], 16)] + rest.value) else None
  }

  function ParseHextets(s: string): Option<seq<nat>> {
    if s == "" then Some([]) else GroupsOf(Split(s, ':'))
  }

  predicate DoubleAt(s: string, i: nat) {
    i + 1 < |s| && s[i] == ':' && s[i + 1] == ':'
  }

  /** `host.indexOf("::")` */
  function IndexOfDouble(s: string): (at: Option<nat>)
    ensures at.Some? ==> DoubleAt(s, at.value)
  {
    if |s| < 2 then None
    else if DoubleAt(s, 0) then Some(0)
    else
      var rest := IndexOfDouble(s[1..]);
      if rest.Some? then Some(rest.value + 1) else None
  }

  /** Matches of `/::/g`, which do not overlap. */
  function CountDouble(s: string): nat {
    if |s| < 2 then 0
    else if DoubleAt(s, 0) then 1 + CountDouble(s[2..])
    else CountDouble(s[1..])
  }

  function Zeros(n: nat): (z: seq<nat>)
    ensures |z| == n && forall i :: 0 <= i < n ==> z[i] == 0
  {
    seq(n, _ => 0)
  }

  /** The two runs around the gap, and the zero groups it stands for. */
  function ExpandGap(left: seq<nat>, right: seq<nat>): (g: seq<nat>)
    requires |left| + |right| <= 8
    ensures |g| == 8
  {
    left + Zeros(8 - |left| - |right|) + right
  }

  /** The groups a literal spells, when it is one. */
  function DecodeIpv6(host: string): (r: Option<seq<nat>>)
    ensures r.Some? ==> |r.value| == 8
  {
    if host == "" || ':' !in host || '%' in host || CountDouble(host) > 1 then None
    else
      var gap := IndexOfDouble(host);
      if gap.Some? then
        var leftText := host[..gap.value];
        var left, right := ParseHextets(leftText), ParseHextets(host[gap.value + 2..]);
        if '.' in leftText || left.None? || right.None? || |left.value| + |right.value| > 7 then None
        else Some(ExpandGap(left.value, right.value))
      else
        var all := ParseHextets(host);
        if all.Some? && |all.value| == 8 then all else None
  }

  /** The loop of `parseHextets`. */
  method ReadHextets(s: string) returns (r: Option<seq<nat>>)
    ensures r == ParseHextets(s)
  {
    hide Split, ParseStrictDottedQuad, ValueOf, AllDigits, GroupsOf, After;
    if s == "" {
      return Some([]);
    }
    var parts, groups := Split(s, ':'), [];
    assert parts[0..] == parts;
    AfterNothing(GroupsOf(parts));
    for i := 0 to |parts|
      invariant GroupsOf(parts) == After(groups, GroupsOf(parts[i..]))
    {
      var p := parts[i];
      GroupsUnfold(parts, i, groups);
      if '.' in p {
        if i != |parts| - 1 {
          return None;
        }
        var v4 := ReadStrictDottedQuad(p);
        if v4.None? {
          return None;
        }
        StrictBound(p);
        groups := groups + [v4.value / 0x1_0000 % 0x1_0000, v4.value % 0x1_0000];
      } else {
        if !IsHextet(p) {
          return None;
        }
        groups := groups + [ValueOf(p, 16)];
      }
    }
    assert parts[|parts|..] == [];
    EmptyGroups();
    AfterAll(groups);
    return Some(groups);
  }

  /** What is read so far, followed by the rest if that can be read. */
  function After(groups: seq<nat>, rest: Option<seq<nat>>): Option<seq<nat>> {
    if rest.Some? then Some(groups + rest.value) else None
  }

  lemma AfterNothing(rest: Option<seq<nat>>)
    ensures After([], rest) == rest
  {
    assert rest.Some? ==> [] + rest.value == rest.value;
  }

  lemma AfterAll(groups: seq<nat>)
    ensures After(groups, Some([])) == Some(groups)
  {
    assert groups + [] == groups;
  }

  /** One part read off the front of the remaining parts. */
  lemma GroupsUnfold(parts: seq<string>, i: nat, groups: seq<nat>)
    requires i < |parts|
    ensures var rest, v4 := GroupsOf(parts[i..]), ParseStrictDottedQuad(parts[i]);
      if '.' in parts[i] then
        if i != |parts| - 1 || v4.None? then After(groups, rest) == None
        else After(groups, rest) == After(groups + [v4.value / 0x1_0000, v4.value % 0x1_0000], GroupsOf(parts[i + 1..]))
      else if !IsHextet(parts[i]) then After(groups, rest) == None
      else After(groups, rest) == After(groups + [ValueOf(parts[i], 16)], GroupsOf(parts[i + 1..]))
  {
    hide ParseStrictDottedQuad, ValueOf;
    assert parts[i..][1..] == parts[i + 1..];
    var more, v4 := GroupsOf(parts[i + 1..]), ParseStrictDottedQuad(parts[i]);
    if i == |parts| - 1 && v4.Some? {
      var pair := [v4.value / 0x1_0000, v4.value % 0x1_0000];
      assert parts[i + 1..] == [] && groups + pair + [] == groups + pair;
    }
    if '.' !in parts[i] && IsHextet(parts[i]) && more.Some? {
      var v := ValueOf(parts[i], 16);
      assert groups + ([v] + more.value) == (groups + [v]) + more.value;
    }
  }

  lemma StrictBound(p: string)
    requires ParseStrictDottedQuad(p).Some?
    ensures ParseStrictDottedQuad(p).value < LIMIT
  {
    StrictReadsCanonical(p, ParseStrictDottedQuad(p).value);
  }

  lemma {:induction false} GroupsAreHextets(parts: seq<string>)
    requires GroupsOf(parts).Some?
    ensures AreHextets(GroupsOf(parts).value)
  {
    hide ParseStrictDottedQuad;
    if parts != [] {
      if '.' in parts[0] {
        StrictBound(parts[0]);
      } else {
        GroupsAreHextets(parts[1..]);
        HextetBound(parts[0]);
      }
    }
  }

  lemma HextetBound(p: string)
    requires IsHextet(p)
    ensures ValueOf(p, 16) < 0x1_0000
  {
    ValueBound(p, 16);
    assert Power(16, 4) == 0x1_0000 && Power(16, 3) == 0x1000 && Power(16, 2) == 0x100 && Power(16, 1) == 0x10 by {
      assert Power(16, 0) == 1;
    }
  }

  /** Whatever is accepted is eight 16-bit groups. */
  lemma DecodedIsAddress(host: string)
    requires DecodeIpv6(host).Some?
    ensures IsAddress(DecodeIpv6(host).value)
  {
    hide GroupsOf, Split, CountDouble;
    var gap := IndexOfDouble(host);
    if gap.Some? {
      RunIsHextets(host[..gap.value]);
      RunIsHextets(host[gap.value + 2..]);
    } else {
      RunIsHextets(host);
    }
  }

  lemma RunIsHextets(s: string)
    ensures ParseHextets(s).Some? ==> AreHextets(ParseHextets(s).value)
  {
    if s != "" && ParseHextets(s).Some? {
      GroupsAreHextets(Split(s, ':'));
    }
  }

  // ---------- the first longest run of zero groups ----------

  predicate ZerosAt(g: seq<nat>, start: int, len: nat) {
    0 <= start && start + len <= |g| && forall i :: start <= i < start + len ==> g[i] == 0
  }

  datatype Runs = Runs(bestStart: int, bestLen: nat, curStart: int, curLen: nat)

  /** The best run among the first `n` groups: none is longer, and none as long starts earlier. */
  ghost predicate IsFirstLongest(g: seq<nat>, n: nat, start: int, len: nat) {
    && n <= |g| && (len > 0 ==> start + len <= n && ZerosAt(g, start, len))
    && (len == 0 ==> start == -1)
    && (forall s: int, l: nat :: ZerosAt(g, s, l) && l > 0 && s + l <= n ==> l < len || (l == len && start <= s))
  }

  /** The run that ends at `n`, as long as possible. */
  ghost predicate IsTrailing(g: seq<nat>, n: nat, start: int, len: nat) {
    && n <= |g| && len <= n && ZerosAt(g, n - len, len)
    && (if len == 0 then start == -1 else start == n - len)
    && (len < n ==> g[n - len - 1] != 0)
  }

  function ScanStep(r: Runs, i: nat, group: nat): Runs {
    if group == 0 then
      var curStart := if r.curStart == -1 then i else r.curStart;
      var curLen := r.curLen + 1;
      if curLen > r.bestLen then Runs(curStart, curLen, curStart, curLen) else Runs(r.bestStart, r.bestLen, curStart, curLen)
    else Runs(r.bestStart, r.bestLen, -1, 0)
  }

  function Scan(g: seq<nat>, n: nat): (r: Runs)
    requires n <= |g|
    ensures IsFirstLongest(g, n, r.bestStart, r.bestLen) && IsTrailing(g, n, r.curStart, r.curLen)
  {
    if n == 0 then Runs(-1, 0, -1, 0) else
      var before := Scan(g, n - 1);
      ScanKeeps(g, n - 1, before);
      ScanStep(before, n - 1, g[n - 1])
  }

  lemma ScanKeeps(g: seq<nat>, n: nat, r: Runs)
    requires n < |g|
    requires IsFirstLongest(g, n, r.bestStart, r.bestLen) && IsTrailing(g, n, r.curStart, r.curLen)
    ensures var s := ScanStep(r, n, g[n]);
      IsFirstLongest(g, n + 1, s.bestStart, s.bestLen) && IsTrailing(g, n + 1, s.curStart, s.curLen)
  {
    var s := ScanStep(r, n, g[n]);
    assert IsTrailing(g, n + 1, s.curStart, s.curLen);
    forall a: int, l: nat | ZerosAt(g, a, l) && l > 0 && a + l <= n + 1
      ensures l < s.bestLen || (l == s.bestLen && s.bestStart <= a)
    {
      assert a + l > n ==> g[a + l - 1] == 0;
    }
  }

  // ---------- printing ----------

  function HexParts(g: seq<nat>): (parts: seq<string>)
    ensures |parts| == |g| && forall i :: 0 <= i < |g| ==> parts[i] == Numeral(g[i], 16)
  {
    seq(|g|, i requires 0 <= i < |g| => Numeral(g[i], 16))
  }

  function HexRun(g: seq<nat>): string {
    Join(HexParts(g), ':')
  }

  /** The all-hex canonical form (section 4 of RFC 5952). */
  function Canonical(g: seq<nat>): string
    requires |g| == 8
  {
    var r := Scan(g, 8);
    if r.bestLen < 2 then HexRun(g)
    else HexRun(g[..r.bestStart]) + "::" + HexRun(g[r.bestStart + r.bestLen..])
  }

  function Low32(g: seq<nat>): nat
    requires |g| == 8
  {
    g[6] * 0x1_0000 + g[7]
  }

  /** The mixed form (section 5 of RFC 5952): only the upper six groups are compressed. */
  function Mixed(g: seq<nat>): string
    requires |g| == 8
  {
    var r, dotted := Scan(g, 6), ToDotted(Low32(g));
    if r.bestLen < 2 then HexRun(g[..6]) + ":" + dotted
    else
      var tail := HexRun(g[r.bestStart + r.bestLen..6]);
      HexRun(g[..r.bestStart]) + "::" + (if tail == "" then "" else tail + ":") + dotted
  }

  /** The scanning loop shared by the two printers. */
  method LongestZeroRun(g: seq<nat>, n: nat) returns (start: int, len: nat)
    requires n <= |g|
    ensures start == Scan(g, n).bestStart && len == Scan(g, n).bestLen
    ensures IsFirstLongest(g, n, start, len)
  {
    var bestStart, bestLen, curStart, curLen := -1, 0, -1, 0;
    for i := 0 to n
      invariant Runs(bestStart, bestLen, curStart, curLen) == Scan(g, i)
    {
      if g[i] == 0 {
        if curStart == -1 {
          curStart := i;
        }
        curLen := curLen + 1;
        if curLen > bestLen {
          bestLen := curLen;
          bestStart := curStart;
        }
      } else {
        curStart := -1;
        curLen := 0;
      }
    }
    return bestStart, bestLen;
  }

  method CanonicalizeIpv6(g: seq<nat>) returns (s: string)
    requires |g| == 8
    ensures s == Canonical(g)
  {
    var start, len := LongestZeroRun(g, 8);
    var hex := HexParts(g);
    if len < 2 {
      return Join(hex, ':');
    }
    assert hex[..start] == HexParts(g[..start]) && hex[start + len..] == HexParts(g[start + len..]);
    return Join(hex[..start], ':') + "::" + Join(hex[start + len..], ':');
  }

  method MixedCanonicalIpv6(g: seq<nat>, dotted: string) returns (s: string)
    requires |g| == 8 && dotted == ToDotted(Low32(g))
    ensures s == Mixed(g)
  {
    hide ToDotted, Scan, Join;
    var start, len := LongestZeroRun(g, 6);
    var hex := HexParts(g[..6]);
    if len < 2 {
      return Join(hex, ':') + ":" + dotted;
    }
    assert hex[..start] == HexParts(g[..start]) && hex[start + len..] == HexParts(g[start + len..6]);
    var head, tail := Join(hex[..start], ':'), Join(hex[start + len..], ':');
    return head + "::" + (if tail == "" then "" else tail + ":") + dotted;
  }

  // ---------- reading back what was printed ----------

  lemma HexPart(v: nat)
    requires v < 0x1_0000
    ensures IsHextet(Numeral(v, 16)) && ValueOf(Numeral(v, 16), 16) == v
    ensures '.' !in Numeral(v, 16) && ':' !in Numeral(v, 16) && '%' !in Numeral(v, 16)
  {
    ValueOfNumeral(v, 16);
    assert Power(16, 4) == 0x1_0000 && Power(16, 3) == 0x1000 && Power(16, 2) == 0x100 && Power(16, 1) == 0x10 by {
      assert Power(16, 0) == 1;
    }
    NumeralLength(v, 16, 4);
  }

  /** Plain parts, possibly followed by a last one, are read back in order. */
  lemma {:induction false} HexGroups(g: seq<nat>, last: seq<string>)
    requires AreHextets(g) && GroupsOf(last).Some?
    ensures GroupsOf(HexParts(g) + last) == Some(g + GroupsOf(last).value)
  {
    hide ParseStrictDottedQuad, Numeral, IsHextet;
    if g == [] {
      assert HexParts(g) + last == last && g + GroupsOf(last).value == GroupsOf(last).value;
    } else {
      HexPart(g[0]);
      HexGroups(g[1..], last);
      var parts := HexParts(g) + last;
      assert parts[1..] == HexParts(g[1..]) + last;
      assert [g[0]] + (g[1..] + GroupsOf(last).value) == g + GroupsOf(last).value;
    }
  }

  /** A list of non-empty parts without colons. */
  ghost predicate PlainParts(parts: seq<string>) {
    forall i :: 0 <= i < |parts| ==> parts[i] != "" && ':' !in parts[i]
  }

  lemma HexPartsPlain(g: seq<nat>)
    requires AreHextets(g)
    ensures PlainParts(HexParts(g))
    ensures forall i :: 0 <= i < |g| ==> '.' !in HexParts(g)[i] && '%' !in HexParts(g)[i]
  {
    forall i | 0 <= i < |g| ensures HexParts(g)[i] != "" && ':' !in HexParts(g)[i] && '.' !in HexParts(g)[i] && '%' !in HexParts(g)[i] {
      HexPart(g[i]);
    }
  }

  lemma ReadRun(parts: seq<string>)
    requires PlainParts(parts) && GroupsOf(parts).Some?
    ensures ParseHextets(Join(parts, ':')) == GroupsOf(parts)
  {
    hide GroupsOf;
    if parts == [] {
      assert ParseHextets("") == Some([]);
      assert GroupsOf(parts) == Some([]) by {
        EmptyGroups();
      }
    } else {
      SplitJoin(parts, ':');
      JoinEnds(parts, ':');
    }
  }

  lemma EmptyGroups()
    ensures GroupsOf([]) == Some([])
  {
  }

  ghost predicate NoDouble(s: string) {
    forall i: nat :: !DoubleAt(s, i)
  }

  /** A joined run has no `::`, and neither starts nor ends with a colon. */
  lemma {:induction false} JoinHasNoDouble(parts: seq<string>)
    requires PlainParts(parts)
    ensures var s := Join(parts, ':');
      NoDouble(s) && (s != "" ==> s[0] != ':' && s[|s| - 1] != ':') && (s == "" <==> parts == [])
  {
    if |parts| == 1 {
      forall i: nat ensures !DoubleAt(parts[0], i) {
        assert i < |parts[0]| ==> parts[0][i] in parts[0];
      }
    } else if |parts| > 1 {
      JoinHasNoDouble(parts[1..]);
      var head, rest := parts[0], Join(parts[1..], ':');
      var s := head + ":" + rest;
      forall i: nat ensures !DoubleAt(s, i) {
        if i < |head| {
          assert s[i] == head[i] && head[i] in head;
        } else if i > |head| {
          assert !DoubleAt(rest, i - |head| - 1);
        }
      }
    }
  }

  lemma {:induction false} NoDoubleFound(s: string)
    requires NoDouble(s)
    ensures IndexOfDouble(s) == None && CountDouble(s) == 0
  {
    if |s| >= 2 {
      assert !DoubleAt(s, 0);
      forall i: nat ensures !DoubleAt(s[1..], i) {
        assert !DoubleAt(s, i + 1);
      }
      NoDoubleFound(s[1..]);
    }
  }

  /** The one gap is found where it was written. */
  lemma {:induction false} GapFound(head: string, tail: string)
    requires NoDouble(head) && (head != "" ==> head[|head| - 1] != ':')
    requires NoDouble(tail) && (tail != "" ==> tail[0] != ':')
    ensures IndexOfDouble(head + "::" + tail) == Some(|head|) && CountDouble(head + "::" + tail) == 1
  {
    var s := head + "::" + tail;
    if head == "" {
      assert DoubleAt(s, 0) && s[2..] == tail;
      NoDoubleFound(tail);
    } else {
      assert s[1..] == head[1..] + "::" + tail;
      assert !DoubleAt(s, 0) by {
        assert !DoubleAt(head, 0);
      }
      forall i: nat ensures !DoubleAt(head[1..], i) {
        assert !DoubleAt(head, i + 1);
      }
      GapFound(head[1..], tail);
    }
  }

  lemma {:induction false} AbsentFromJoin(parts: seq<string>, c: char)
    requires c != ':' && forall i :: 0 <= i < |parts| ==> c !in parts[i]
    ensures c !in Join(parts, ':')
  {
    NoCharInJoin(parts, ':', c);
  }

  /** Two runs around a gap decode to their groups around zeros. */
  lemma DecodeGap(left: seq<string>, right: seq<string>)
    requires PlainParts(left) && PlainParts(right) && GroupsOf(left).Some? && GroupsOf(right).Some?
    requires |GroupsOf(left).value| + |GroupsOf(right).value| <= 7
    requires forall i :: 0 <= i < |left| ==> '.' !in left[i] && '%' !in left[i]
    requires forall i :: 0 <= i < |right| ==> '%' !in right[i]
    ensures DecodeIpv6(Join(left, ':') + "::" + Join(right, ':')) ==
      Some(ExpandGap(GroupsOf(left).value, GroupsOf(right).value))
  {
    hide GroupsOf, ParseHextets, Join, ExpandGap;
    var head, tail := Join(left, ':'), Join(right, ':');
    var s := head + "::" + tail;
    JoinHasNoDouble(left);
    JoinHasNoDouble(right);
    GapFound(head, tail);
    ReadRun(left);
    ReadRun(right);
    AbsentFromJoin(left, '.');
    AbsentFromJoin(left, '%');
    AbsentFromJoin(right, '%');
    assert s[..|head|] == head && s[|head| + 2..] == tail;
    assert s[|head|] == ':';
  }

  /** A full run without a gap. */
  lemma DecodeFull(parts: seq<string>)
    requires |parts| > 1 && PlainParts(parts) && GroupsOf(parts).Some? && |GroupsOf(parts).value| == 8
    requires forall i :: 0 <= i < |parts| ==> '%' !in parts[i]
    ensures DecodeIpv6(Join(parts, ':')) == GroupsOf(parts)
  {
    hide GroupsOf, ParseHextets;
    var s := Join(parts, ':');
    JoinHasNoDouble(parts);
    NoDoubleFound(s);
    ReadRun(parts);
    AbsentFromJoin(parts, '%');
    assert s == parts[0] + ":" + Join(parts[1..], ':');
    assert s[|parts[0]|] == ':';
  }

  lemma ZeroRunExpands(g: seq<nat>, start: nat, len: nat)
    requires |g| == 8 && ZerosAt(g, start, len)
    ensures ExpandGap(g[..start], g[start + len..]) == g
  {
  }

  lemma HexOnly(g: seq<nat>)
    requires AreHextets(g)
    ensures GroupsOf(HexParts(g)) == Some(g)
  {
    EmptyGroups();
    HexGroups(g, []);
    assert HexParts(g) + [] == HexParts(g) && g + [] == g;
  }

  /** Print and parse: the canonical form of any address decodes to it. */
  lemma CanonicalDecodes(g: seq<nat>)
    requires IsAddress(g)
    ensures DecodeIpv6(Canonical(g)) == Some(g)
  {
    hide GroupsOf, Join, Numeral, DecodeIpv6, ExpandGap;
    var r := Scan(g, 8);
    if r.bestLen < 2 {
      HexPartsPlain(g);
      HexOnly(g);
      DecodeFull(HexParts(g));
    } else {
      var left, right := g[..r.bestStart], g[r.bestStart + r.bestLen..];
      HexPartsPlain(left);
      HexPartsPlain(right);
      HexOnly(left);
      HexOnly(right);
      DecodeGap(HexParts(left), HexParts(right));
      ZeroRunExpands(g, r.bestStart, r.bestLen);
    }
  }

  // ---------- the mixed form ----------

  lemma {:induction false} JoinSnoc(parts: seq<string>, last: string)
    requires parts != []
    ensures Join(parts + [last], ':') == Join(parts, ':') + ":" + last
  {
    var all := parts + [last];
    if |parts| == 1 {
      assert all[1..] == [last];
    } else {
      assert all[1..] == parts[1..] + [last];
      JoinSnoc(parts[1..], last);
    }
  }

  lemma DottedTail(n: nat)
    requires n < LIMIT
    ensures GroupsOf([ToDotted(n)]) == Some([n / 0x1_0000, n % 0x1_0000])
    ensures ToDotted(n) != "" && ':' !in ToDotted(n) && '%' !in ToDotted(n) && '.' in ToDotted(n)
  {
    hide Octet, ParseStrictDottedQuad;
    StrictReadsCanonical(ToDotted(n), n);
    var parts := DottedParts(n);
    forall i | 0 <= i < 4 ensures ':' !in parts[i] && '%' !in parts[i] && parts[i] != "" {
      NumeralPart(Octet(n, i));
    }
    NoCharInJoin(parts, '.', ':');
    NoCharInJoin(parts, '.', '%');
    assert ToDotted(n) == parts[0] + "." + Join(parts[1..], '.');
    assert ToDotted(n)[|parts[0]|] == '.';
  }

  /** The groups of hex parts followed by the dotted low half. */
  lemma MixedParts(g: seq<nat>, upper: seq<nat>)
    requires IsAddress(g) && AreHextets(upper)
    ensures var parts := HexParts(upper) + [ToDotted(Low32(g))];
      && PlainParts(parts) && (forall i :: 0 <= i < |parts| ==> '%' !in parts[i])
      && GroupsOf(parts) == Some(upper + g[6..])
  {
    hide GroupsOf, Numeral, ToDotted;
    DottedTail(Low32(g));
    HexPartsPlain(upper);
    HexGroups(upper, [ToDotted(Low32(g))]);
    assert g[6..] == [Low32(g) / 0x1_0000, Low32(g) % 0x1_0000];
  }

  /** The mixed form of any address decodes to it. */
  lemma MixedDecodes(g: seq<nat>)
    requires IsAddress(g)
    ensures DecodeIpv6(Mixed(g)) == Some(g)
  {
    hide GroupsOf, Join, Numeral, DecodeIpv6, ExpandGap, ToDotted, Low32;
    var r, dotted := Scan(g, 6), ToDotted(Low32(g));
    if r.bestLen < 2 {
      MixedParts(g, g[..6]);
      JoinSnoc(HexParts(g[..6]), dotted);
      assert g[..6] + g[6..] == g;
      DecodeFull(HexParts(g[..6]) + [dotted]);
    } else {
      var left, middle := g[..r.bestStart], g[r.bestStart + r.bestLen..6];
      MixedParts(g, middle);
      HexPartsPlain(left);
      HexOnly(left);
      assert middle + g[6..] == g[r.bestStart + r.bestLen..];
      DecodeGap(HexParts(left), HexParts(middle) + [dotted]);
      ZeroRunExpands(g, r.bestStart, r.bestLen);
      MixedText(left, middle, dotted);
    }
  }

  lemma MixedText(left: seq<nat>, middle: seq<nat>, dotted: string)
    requires AreHextets(middle)
    ensures HexRun(left) + "::" + (if HexRun(middle) == "" then "" else HexRun(middle) + ":") + dotted ==
      Join(HexParts(left), ':') + "::" + Join(HexParts(middle) + [dotted], ':')
  {
    hide Numeral;
    HexPartsPlain(middle);
    JoinHasNoDouble(HexParts(middle));
    if middle == [] {
      assert HexParts(middle) + [dotted] == [dotted];
    } else {
      JoinSnoc(HexParts(middle), dotted);
    }
  }

  // ---------- the second reader ----------

  /** The hex digits a part starts with. */
  function HexPrefix(p: string): (q: string)
    ensures q <= p && AllDigits(q, 16)
    ensures AllDigits(p, 16) ==> q == p
  {
    if p == "" || !IsDigitOf(p[0], 16) then "" else
      assert p == [p[0]] + p[1..];
      [p[0]] + HexPrefix(p[1..])
  }

  /** `parseInt(h, 16)`: the value of the leading hex digits, or NaN without any. */
  function ParseIntHex(h: string): Option<nat> {
    if HexPrefix(h) == "" then None else Some(ValueOf(HexPrefix(h), 16))
  }

  function HexList(s: string): seq<Option<nat>> {
    if s == "" then [] else
      var parts := Split(s, ':');
      seq(|parts|, i requires 0 <= i < |parts| => ParseIntHex(parts[i]))
  }

  function AllSome(xs: seq<Option<nat>>): (r: Option<seq<nat>>)
    ensures r.Some? <==> forall i :: 0 <= i < |xs| ==> xs[i].Some?
    ensures r.Some? ==> |r.value| == |xs| && forall i :: 0 <= i < |xs| ==> xs[i] == Some(r.value[i])
  {
    if forall i :: 0 <= i < |xs| ==> xs[i].Some?
    then Some(seq(|xs|, i requires 0 <= i < |xs| => xs[i].value)) else None
  }

  /** `hextetsOf`: expansion of a canonical string. */
  function HextetsOf(canonical: string): Option<seq<nat>> {
    var gap := IndexOfDouble(canonical);
    if gap.None? then
      var out := HexList(canonical);
      if |out| == 8 then AllSome(out) else None
    else
      var left, right := HexList(canonical[..gap.value]), HexList(canonical[gap.value + 2..]);
      if |left| + |right| > 8 then None
      else AllSome(left + seq(8 - |left| - |right|, _ => Some(0)) + right)
  }

  lemma HexListOfRun(g: seq<nat>)
    requires AreHextets(g)
    ensures |HexList(HexRun(g))| == |g| && forall i :: 0 <= i < |g| ==> HexList(HexRun(g))[i] == Some(g[i])
  {
    hide Numeral, ValueOf;
    HexPartsPlain(g);
    if g != [] {
      SplitJoin(HexParts(g), ':');
      JoinEnds(HexParts(g), ':');
      forall i | 0 <= i < |g| ensures ParseIntHex(HexParts(g)[i]) == Some(g[i]) {
        HexPart(g[i]);
      }
    }
  }

  lemma AllSomeIs(xs: seq<Option<nat>>, g: seq<nat>)
    requires |xs| == |g| && forall i :: 0 <= i < |g| ==> xs[i] == Some(g[i])
    ensures AllSome(xs) == Some(g)
  {
    assert AllSome(xs).value == g;
  }

  /** The second reader agrees on canonical strings. */
  lemma HextetsOfCanonical(g: seq<nat>)
    requires IsAddress(g)
    ensures HextetsOf(Canonical(g)) == Some(g)
  {
    hide HexList, Numeral, HexRun, AllSome;
    var r := Scan(g, 8);
    if r.bestLen < 2 {
      RunHasNoDouble(g);
      NoDoubleFound(HexRun(g));
      HexListOfRun(g);
      AllSomeIs(HexList(HexRun(g)), g);
    } else {
      HextetsOfGap(g, r.bestStart, r.bestLen);
    }
  }

  lemma HextetsOfGap(g: seq<nat>, start: nat, len: nat)
    requires IsAddress(g) && ZerosAt(g, start, len)
    ensures HextetsOf(HexRun(g[..start]) + "::" + HexRun(g[start + len..])) == Some(g)
  {
    hide HexList, HexRun, AllSome;
    var head, tail := HexRun(g[..start]), HexRun(g[start + len..]);
    var s := head + "::" + tail;
    RunHasNoDouble(g[..start]);
    RunHasNoDouble(g[start + len..]);
    GapFound(head, tail);
    assert s[..|head|] == head && s[|head| + 2..] == tail;
    ExpandedList(g, start, len);
  }

  lemma ExpandedList(g: seq<nat>, start: nat, len: nat)
    requires IsAddress(g) && ZerosAt(g, start, len)
    ensures var left, right := HexList(HexRun(g[..start])), HexList(HexRun(g[start + len..]));
      |left| + |right| <= 8 && AllSome(left + seq(8 - |left| - |right|, _ => Some(0)) + right) == Some(g)
  {
    hide HexList, HexRun, AllSome;
    HexListOfRun(g[..start]);
    HexListOfRun(g[start + len..]);
    var left, right := HexList(HexRun(g[..start])), HexList(HexRun(g[start + len..]));
    AllSomeIs(left + seq(8 - |left| - |right|, _ => Some(0)) + right, g);
  }

  lemma RunHasNoDouble(g: seq<nat>)
    requires AreHextets(g)
    ensures NoDouble(HexRun(g)) && (HexRun(g) != "" ==> HexRun(g)[0] != ':' && HexRun(g)[|HexRun(g)| - 1] != ':')
  {
    HexPartsPlain(g);
    JoinHasNoDouble(HexParts(g));
  }

  /** Canonical strings are injective on 128-bit values. */
  lemma CanonicalInjective(g: seq<nat>, h: seq<nat>)
    requires IsAddress(g) && IsAddress(h) && Canonical(g) == Canonical(h)
    ensures g == h
  {
    CanonicalDecodes(g);
    CanonicalDecodes(h);
  }
}
