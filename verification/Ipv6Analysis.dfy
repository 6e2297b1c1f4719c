/** Analysis of IPv6 literals: transition wrappers, obfuscation, and independence from case
    (packages/core/src/parse/ip.ts). */
module Ipv6Analysis {
  import opened Wrappers
  import opened Texts
  import opened Numerals
  import opened Ipv4
  import opened Ipv6

  // ---------- transition wrappers ----------

  datatype Wrapper = Wrapper(hextets: seq<nat>, mechanism: string, excludeLow: seq<nat>)

  /** The prefixes that carry an IPv4 address in the low 32 bits. */
  const LOW32_WRAPPERS: seq<Wrapper> := [
    Wrapper([0, 0, 0, 0, 0, 0xffff], "IPv4-mapped prefix ::ffff:0:0/96", []),
    Wrapper([0x64, 0xff9b, 0, 0, 0, 0], "NAT64 well-known prefix 64:ff9b::/96 (RFC 6052)", []),
    Wrapper([0x64, 0xff9b, 0x1, 0, 0, 0], "NAT64 local-use prefix 64:ff9b:1::/48 (RFC 8215)", []),
    Wrapper([0, 0, 0, 0, 0, 0], "IPv4-compatible prefix ::/96 (deprecated by RFC 4291)", [0, 1])]

  datatype Embedded = Embedded(address: string, mechanism: string)

  /** First matching wrapper from position `k` on; an excluded low half ends the search. */
  function UnwrapFrom(g: seq<nat>, wrappers: seq<Wrapper>, k: nat): Option<Embedded>
    requires |g| == 8 && k <= |wrappers|
    decreases |wrappers| - k
  {
    if k == |wrappers| then None
    else if g[..6] != wrappers[k].hextets then UnwrapFrom(g, wrappers, k + 1)
    else if Low32(g) in wrappers[k].excludeLow then None
    else Some(Embedded(ToDotted(Low32(g)), wrappers[k].mechanism))
  }

  function UnwrapLow32(g: seq<nat>): Option<Embedded>
    requires |g| == 8
  {
    UnwrapFrom(g, LOW32_WRAPPERS, 0)
  }

  /** The loop over the wrappers. */
  method UnwrapWith(g: seq<nat>, wrappers: seq<Wrapper>) returns (r: Option<Embedded>)
    requires |g| == 8 && forall k :: 0 <= k < |wrappers| ==> |wrappers[k].hextets| == 6
    ensures r == UnwrapFrom(g, wrappers, 0)
  {
    hide ToDotted;
    for k := 0 to |wrappers|
      invariant UnwrapFrom(g, wrappers, 0) == UnwrapFrom(g, wrappers, k)
    {
      var matched := PrefixMatches(g, wrappers[k].hextets);
      if matched {
        var low := Low32(g);
        if low in wrappers[k].excludeLow {
          return None;
        }
        return Some(Embedded(ToDotted(low), wrappers[k].mechanism));
      }
    }
    return None;
  }

  /** The inner loop: groups 0 to 5 are exactly these values. */
  method PrefixMatches(g: seq<nat>, hextets: seq<nat>) returns (matched: bool)
    requires |g| == 8 && |hextets| == 6
    ensures matched <==> g[..6] == hextets
  {
    for i := 0 to 6
      invariant forall j :: 0 <= j < i ==> g[j] == hextets[j]
    {
      if g[i] != hextets[i] {
        assert g[..6][i] != hextets[i];
        return false;
      }
    }
    return true;
  }

  method UnwrapLow32Ipv4(g: seq<nat>) returns (r: Option<Embedded>)
    requires |g| == 8
    ensures r == UnwrapLow32(g)
  {
    r := UnwrapWith(g, LOW32_WRAPPERS);
  }

  /** Which addresses carry one: the four prefixes, except `::` and `::1`. */
  lemma UnwrapsExactly(g: seq<nat>)
    requires IsAddress(g)
    ensures UnwrapLow32(g).Some? <==>
      || (g[..5] == [0, 0, 0, 0, 0] && (g[5] == 0xffff || (g[5] == 0 && Low32(g) > 1)))
      || (g[0] == 0x64 && g[1] == 0xff9b && g[2] <= 1 && g[3] == 0 && g[4] == 0 && g[5] == 0)
    ensures UnwrapLow32(g).Some? ==> UnwrapLow32(g).value.address == ToDotted(Low32(g))
    ensures UnwrapLow32(g).Some? && g[0] == 0x64 && g[2] == 0 ==>
      UnwrapLow32(g).value.mechanism == "NAT64 well-known prefix 64:ff9b::/96 (RFC 6052)"
    ensures UnwrapLow32(g).Some? && g[0] == 0x64 && g[2] != 0 ==>
      UnwrapLow32(g).value.mechanism == "NAT64 local-use prefix 64:ff9b:1::/48 (RFC 8215)"
    ensures UnwrapLow32(g).Some? && g[0] != 0x64 && g[5] == 0xffff ==>
      UnwrapLow32(g).value.mechanism == "IPv4-mapped prefix ::ffff:0:0/96"
    ensures UnwrapLow32(g).Some? && g[0] != 0x64 && g[5] != 0xffff ==>
      UnwrapLow32(g).value.mechanism == "IPv4-compatible prefix ::/96 (deprecated by RFC 4291)"
  {
    hide ToDotted;
    var w := LOW32_WRAPPERS;
    assert UnwrapFrom(g, w, 4) == None;
    assert g[..6] == [g[0], g[1], g[2], g[3], g[4], g[5]] && g[..5] == [g[0], g[1], g[2], g[3], g[4]];
    assert UnwrapFrom(g, w, 3).Some? <==> g[..6] == [0, 0, 0, 0, 0, 0] && Low32(g) > 1;
    assert UnwrapFrom(g, w, 2).Some? <==> g[..6] == [0x64, 0xff9b, 0x1, 0, 0, 0] || UnwrapFrom(g, w, 3).Some?;
    assert UnwrapFrom(g, w, 1).Some? <==> g[..6] == [0x64, 0xff9b, 0, 0, 0, 0] || UnwrapFrom(g, w, 2).Some?;
  }

  // ---------- analysis ----------

  datatype Ipv6Report = Ipv6Report(obfuscated: bool, canonical: string, embedded: Option<Embedded>)

  predicate IsObfuscated(host: string, g: seq<nat>)
    requires |g| == 8
  {
    Lower(host) != Canonical(g) && !(UnwrapLow32(g).Some? && Lower(host) == Mixed(g))
  }

  function AnalyzeIpv6(host: string): Option<Ipv6Report> {
    var g := DecodeIpv6(host);
    if g.None? then None
    else Some(Ipv6Report(IsObfuscated(host, g.value), Canonical(g.value), UnwrapLow32(g.value)))
  }

  /** The analysis with its loops. */
  method AnalyzeIpv6Host(host: string) returns (r: Option<Ipv6Report>)
    ensures r == AnalyzeIpv6(host)
  {
    hide CountDouble, IndexOfDouble, ParseHextets, Canonical, Mixed, ToDotted, UnwrapFrom;
    if host == "" || ':' !in host || '%' in host || CountDouble(host) > 1 {
      return None;
    }
    var groups: seq<nat>;
    var gap := IndexOfDouble(host);
    if gap.Some? {
      var leftText := host[..gap.value];
      if '.' in leftText {
        return None;
      }
      var left := ReadHextets(leftText);
      var right := ReadHextets(host[gap.value + 2..]);
      if left.None? || right.None? || 8 - (|left.value| + |right.value|) < 1 {
        return None;
      }
      groups := left.value + seq(8 - (|left.value| + |right.value|), _ => 0) + right.value;
      assert groups == ExpandGap(left.value, right.value);
    } else {
      var all := ReadHextets(host);
      if all.None? {
        return None;
      }
      groups := all.value;
    }
    if |groups| != 8 {
      return None;
    }
    var canonical := CanonicalizeIpv6(groups);
    var embedded := UnwrapLow32Ipv4(groups);
    var obfuscated := Lower(host) != canonical;
    if embedded.Some? {
      EmbeddedAddress(groups, LOW32_WRAPPERS, 0);
      var mixed := MixedCanonicalIpv6(groups, embedded.value.address);
      obfuscated := obfuscated && Lower(host) != mixed;
    }
    return Some(Ipv6Report(obfuscated, canonical, embedded));
  }

  lemma {:induction false} EmbeddedAddress(g: seq<nat>, wrappers: seq<Wrapper>, k: nat)
    requires |g| == 8 && k <= |wrappers| && UnwrapFrom(g, wrappers, k).Some?
    ensures UnwrapFrom(g, wrappers, k).value.address == ToDotted(Low32(g))
    decreases |wrappers| - k
  {
    hide ToDotted;
    if g[..6] != wrappers[k].hextets {
      EmbeddedAddress(g, wrappers, k + 1);
    }
  }

  // ---------- case does not matter ----------

  /** Upper-case letters, in either spelling, make a dotted quad unreadable. */
  lemma StrictLower(p: string)
    ensures ParseStrictDottedQuad(Lower(p)) == ParseStrictDottedQuad(p)
  {
    hide ParseStrictDottedQuad;
    if ParseStrictDottedQuad(p).Some? || ParseStrictDottedQuad(Lower(p)).Some? {
      ReadableIsLower(p);
    }
  }

  lemma ReadableIsLower(p: string)
    requires ParseStrictDottedQuad(p).Some? || ParseStrictDottedQuad(Lower(p)).Some?
    ensures Lower(p) == p
  {
    hide ParseStrictDottedQuad;
    var q := if ParseStrictDottedQuad(p).Some? then p else Lower(p);
    StrictIsPlain(q);
    forall i | 0 <= i < |p| ensures LowerChar(p[i]) == p[i] {
      assert q[i] == '.' || '0' <= q[i] <= '9';
    }
  }

  lemma StrictIsPlain(p: string)
    requires ParseStrictDottedQuad(p).Some?
    ensures forall i :: 0 <= i < |p| ==> p[i] == '.' || '0' <= p[i] <= '9'
  {
    var parts := Split(p, '.');
    JoinSplit(p, '.');
    PlainJoin(parts);
  }

  lemma {:induction false} PlainJoin(parts: seq<string>)
    requires forall i :: 0 <= i < |parts| ==> AllDigits(parts[i], 10)
    ensures forall i :: 0 <= i < |Join(parts, '.')| ==> Join(parts, '.')[i] == '.' || '0' <= Join(parts, '.')[i] <= '9'
  {
    if |parts| > 1 {
      PlainJoin(parts[1..]);
    }
  }

  lemma {:induction false} GroupsLower(parts: seq<string>)
    ensures GroupsOf(LowerAll(parts)) == GroupsOf(parts)
  {
    hide ParseStrictDottedQuad, ValueOf;
    if parts != [] {
      LowerKeeps(parts[0], '.');
      StrictLower(parts[0]);
      ValueLower(parts[0]);
      GroupsLower(parts[1..]);
      assert LowerAll(parts)[1..] == LowerAll(parts[1..]);
    }
  }

  lemma RunLower(s: string)
    ensures ParseHextets(Lower(s)) == ParseHextets(s)
  {
    hide GroupsOf, Split;
    SplitLower(s, ':');
    GroupsLower(Split(s, ':'));
  }

  lemma {:induction false} DoubleLower(s: string)
    ensures IndexOfDouble(Lower(s)) == IndexOfDouble(s) && CountDouble(Lower(s)) == CountDouble(s)
  {
    if |s| >= 2 {
      assert Lower(s)[1..] == Lower(s[1..]) && Lower(s)[2..] == Lower(s[2..]);
      assert DoubleAt(Lower(s), 0) <==> DoubleAt(s, 0);
      DoubleLower(s[1..]);
      DoubleLower(s[2..]);
    }
  }

  /** Reading a literal does not depend on the case of its digits. */
  lemma DecodeLower(s: string)
    ensures DecodeIpv6(Lower(s)) == DecodeIpv6(s)
  {
    hide ParseHextets, IndexOfDouble, CountDouble, ExpandGap;
    LowerKeeps(s, ':');
    LowerKeeps(s, '%');
    DoubleLower(s);
    var gap := IndexOfDouble(s);
    if gap.Some? {
      assert Lower(s)[..gap.value] == Lower(s[..gap.value]) && Lower(s)[gap.value + 2..] == Lower(s[gap.value + 2..]);
      RunLower(s[..gap.value]);
      RunLower(s[gap.value + 2..]);
      LowerKeeps(s[..gap.value], '.');
    } else {
      RunLower(s);
    }
  }

  // ---------- main results ----------

  /** A spelling of `g` is unobfuscated exactly when, up to case, it is the canonical form or,
      behind a listed wrapper prefix only, the mixed form: for every string and every address. */
  lemma UnobfuscatedSpellings(s: string, g: seq<nat>)
    requires IsAddress(g)
    ensures DecodeIpv6(s) == Some(g) && !AnalyzeIpv6(s).value.obfuscated <==>
      Lower(s) == Canonical(g) || (UnwrapLow32(g).Some? && Lower(s) == Mixed(g))
  {
    hide DecodeIpv6, Canonical, Mixed, UnwrapFrom, Lower;
    if Lower(s) == Canonical(g) {
      CanonicalDecodes(g);
      DecodeLower(s);
    } else if Lower(s) == Mixed(g) {
      MixedDecodes(g);
      DecodeLower(s);
    }
  }

  lemma CanonicalIsLower(g: seq<nat>)
    requires IsAddress(g)
    ensures Lower(Canonical(g)) == Canonical(g)
  {
    hide Numeral, Join, Scan;
    var r := Scan(g, 8);
    HexRunIsLower(g);
    if r.bestLen >= 2 {
      HexRunIsLower(g[..r.bestStart]);
      HexRunIsLower(g[r.bestStart + r.bestLen..]);
      var a, b := HexRun(g[..r.bestStart]), HexRun(g[r.bestStart + r.bestLen..]);
      assert Lower(a + "::" + b) == Lower(a) + "::" + Lower(b);
    }
  }

  lemma HexRunIsLower(g: seq<nat>)
    requires AreHextets(g)
    ensures Lower(HexRun(g)) == HexRun(g)
  {
    hide Numeral;
    forall i | 0 <= i < |g| ensures Lower(HexParts(g)[i]) == HexParts(g)[i] {
      NumeralIsCanonical(g[i], 16);
      assert IsCanonical(HexParts(g)[i], 16);
    }
    LowerJoin(HexParts(g), ':');
  }

  /** The canonical form is a fixpoint of the analysis, and the one canonical spelling of its bits. */
  lemma CanonicalIsFixpoint(g: seq<nat>)
    requires IsAddress(g)
    ensures DecodeIpv6(Canonical(g)) == Some(g)
    ensures AnalyzeIpv6(Canonical(g)) == Some(Ipv6Report(false, Canonical(g), UnwrapLow32(g)))
  {
    hide DecodeIpv6, Canonical, Mixed, UnwrapFrom;
    CanonicalDecodes(g);
    CanonicalIsLower(g);
  }
}
