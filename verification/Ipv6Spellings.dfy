/** Which texts denote an IPv6 address: every spelling of every address
    (packages/core/src/parse/ip.ts), described by printing instead of parsing. */
module Ipv6Spellings {
  import opened Wrappers
  import opened Texts
  import opened Numerals
  import opened Ipv4
  import opened Ipv4Spellings
  import opened Ipv6
  import opened Ipv6Analysis

  // ---------- runs of groups ----------

  /** One group: its hex numeral behind some zeros. */
  function Padded(v: nat, zeros: nat): string {
    ZeroText(zeros) + Numeral(v, 16)
  }

  function PaddedParts(h: seq<nat>, pads: seq<nat>): (parts: seq<string>)
    requires |pads| == |h|
    ensures |parts| == |h| && forall i :: 0 <= i < |h| ==> parts[i] == Padded(h[i], pads[i])
  {
    seq(|h|, i requires 0 <= i < |h| => Padded(h[i], pads[i]))
  }

  /** Groups of at most four digits; with `dotted`, the last two are written as a dotted quad. */
  ghost predicate RunFits(h: seq<nat>, pads: seq<nat>, dotted: bool) {
    && AreHextets(h) && (dotted ==> |h| >= 2) && |pads| == (if dotted then |h| - 2 else |h|)
    && (forall i :: 0 <= i < |pads| ==> |Padded(h[i], pads[i])| <= 4)
  }

  ghost function RunParts(h: seq<nat>, pads: seq<nat>, dotted: bool): seq<string>
    requires RunFits(h, pads, dotted)
  {
    if dotted then PaddedParts(h[..|h| - 2], pads) + [ToDotted(h[|h| - 2] * 0x1_0000 + h[|h| - 1])]
    else PaddedParts(h, pads)
  }

  // ---------- whole addresses ----------

  datatype Spelling6 =
    | Full(pads: seq<nat>, dotted: bool)
    | Gapped(start: nat, len: nat, left: seq<nat>, right: seq<nat>, dotted: bool)

  /** Eight groups, or one `::` for a run of at least one zero group. */
  ghost predicate Spells(g: seq<nat>, how: Spelling6) {
    match how
    case Full(pads, dotted) => RunFits(g, pads, dotted)
    case Gapped(start, len, left, right, dotted) =>
      && len > 0 && start + len <= |g| && (forall i :: start <= i < start + len ==> g[i] == 0)
      && RunFits(g[..start], left, false) && RunFits(g[start + len..], right, dotted)
  }

  ghost function Text6(g: seq<nat>, how: Spelling6): string
    requires Spells(g, how)
  {
    match how
    case Full(pads, dotted) => Join(RunParts(g, pads, dotted), ':')
    case Gapped(start, len, left, right, dotted) =>
      Join(RunParts(g[..start], left, false), ':') + "::" + Join(RunParts(g[start + len..], right, dotted), ':')
  }

  // ---------- what is printed can be read ----------

  lemma PaddedReads(v: nat, zeros: nat)
    requires |Padded(v, zeros)| <= 4
    ensures IsHextet(Padded(v, zeros)) && ValueOf(Padded(v, zeros), 16) == v
    ensures '.' !in Padded(v, zeros) && ':' !in Padded(v, zeros) && '%' !in Padded(v, zeros)
    ensures Lower(Padded(v, zeros)) == Padded(v, zeros)
  {
    hide IsDigitOf;
    ZerosAdd(zeros, Numeral(v, 16), 16);
    ValueOfNumeral(v, 16);
    NumeralIsCanonical(v, 16);
    PaddedChars(v, zeros);
  }

  lemma PaddedChars(v: nat, zeros: nat)
    ensures forall i :: 0 <= i < |Padded(v, zeros)| ==> IsDigitOf(Padded(v, zeros)[i], 16) && !('A' <= Padded(v, zeros)[i] <= 'Z')
    ensures '.' !in Padded(v, zeros) && ':' !in Padded(v, zeros) && '%' !in Padded(v, zeros)
    ensures Lower(Padded(v, zeros)) == Padded(v, zeros)
  {
    var p := Padded(v, zeros);
    NumeralIsCanonical(v, 16);
    ZeroChars(zeros);
  }

  /** Padded groups, possibly followed by a last part, are read back in order. */
  lemma {:induction false} PaddedGroups(h: seq<nat>, pads: seq<nat>, last: seq<string>)
    requires |pads| == |h| && (forall i :: 0 <= i < |h| ==> |Padded(h[i], pads[i])| <= 4) && GroupsOf(last).Some?
    ensures GroupsOf(PaddedParts(h, pads) + last) == Some(h + GroupsOf(last).value)
  {
    hide ParseStrictDottedQuad, Numeral, IsHextet, Padded, PaddedParts;
    if h == [] {
      assert PaddedParts(h, pads) + last == last && h + GroupsOf(last).value == GroupsOf(last).value;
    } else {
      PaddedReads(h[0], pads[0]);
      PaddedGroups(h[1..], pads[1..], last);
      var parts := PaddedParts(h, pads) + last;
      assert pads == [pads[0]] + pads[1..];
      PaddedCons(h, pads[0], pads[1..]);
      assert parts[0] == Padded(h[0], pads[0]) && parts[1..] == PaddedParts(h[1..], pads[1..]) + last;
      assert [h[0]] + (h[1..] + GroupsOf(last).value) == h + GroupsOf(last).value;
    }
  }

  lemma RunReads(h: seq<nat>, pads: seq<nat>, dotted: bool)
    requires RunFits(h, pads, dotted)
    ensures var parts := RunParts(h, pads, dotted);
      && GroupsOf(parts) == Some(h) && PlainParts(parts) && (forall i :: 0 <= i < |parts| ==> '%' !in parts[i] && Lower(parts[i]) == parts[i])
      && (!dotted ==> forall i :: 0 <= i < |parts| ==> '.' !in parts[i])
  {
    hide GroupsOf, Padded, ToDotted, Lower, ParseStrictDottedQuad;
    forall i | 0 <= i < |pads|
      ensures Padded(h[i], pads[i]) != "" && ':' !in Padded(h[i], pads[i]) && '.' !in Padded(h[i], pads[i])
      ensures '%' !in Padded(h[i], pads[i]) && Lower(Padded(h[i], pads[i])) == Padded(h[i], pads[i])
    {
      PaddedReads(h[i], pads[i]);
    }
    EmptyGroups();
    if dotted {
      var n := |h| - 2;
      var low := h[n] * 0x1_0000 + h[n + 1];
      DottedTail(low);
      StrictReadsCanonical(ToDotted(low), low);
      ReadableIsLower(ToDotted(low));
      PaddedGroups(h[..n], pads, [ToDotted(low)]);
      assert h[..n] + [low / 0x1_0000, low % 0x1_0000] == h;
    } else {
      PaddedGroups(h, pads, []);
      assert PaddedParts(h, pads) + [] == PaddedParts(h, pads) && h + [] == h;
    }
  }

  /** Every spelling of an address decodes to it. */
  lemma SpellingDecodes(g: seq<nat>, how: Spelling6)
    requires IsAddress(g) && Spells(g, how)
    ensures DecodeIpv6(Text6(g, how)) == Some(g)
  {
    hide GroupsOf, Join, DecodeIpv6, ExpandGap, RunParts, RunFits;
    match how {
      case Full(pads, dotted) =>
        RunReads(g, pads, dotted);
        RunLength(g, pads, dotted);
        DecodeFull(RunParts(g, pads, dotted));
      case Gapped(start, len, left, right, dotted) =>
        RunReads(g[..start], left, false);
        RunReads(g[start + len..], right, dotted);
        DecodeGap(RunParts(g[..start], left, false), RunParts(g[start + len..], right, dotted));
        ZeroRunExpands(g, start, len);
    }
  }

  lemma RunLength(h: seq<nat>, pads: seq<nat>, dotted: bool)
    requires RunFits(h, pads, dotted)
    ensures |RunParts(h, pads, dotted)| == if dotted then |h| - 1 else |h|
  {
  }

  // ---------- what is read was printed ----------

  lemma {:induction false} RunOf(parts: seq<string>, h: seq<nat>) returns (pads: seq<nat>, dotted: bool)
    requires GroupsOf(parts) == Some(h) && forall i :: 0 <= i < |parts| ==> Lower(parts[i]) == parts[i]
    ensures RunFits(h, pads, dotted) && parts == RunParts(h, pads, dotted)
    ensures dotted ==> parts != [] && '.' in parts[|parts| - 1]
  {
    hide ParseStrictDottedQuad, ToDotted, Numeral, Lower, RunFits, RunParts, Padded, IsHextet;
    GroupsAreHextets(parts);
    if parts == [] {
      pads, dotted := [], false;
      NoRun();
    } else if '.' in parts[0] {
      pads, dotted := [], true;
      QuadRun(parts[0], h);
      assert parts == [parts[0]];
    } else {
      var more;
      more, dotted := RunOf(parts[1..], h[1..]);
      var k := PaddedPart(parts[0]);
      pads := [k] + more;
      ConsRun(h, k, more, dotted);
      assert parts == [parts[0]] + parts[1..];
    }
  }

  lemma NoRun()
    ensures RunFits([], [], false) && RunParts([], [], false) == []
  {
  }

  lemma QuadRun(p: string, h: seq<nat>)
    requires ParseStrictDottedQuad(p).Some?
    requires h == [ParseStrictDottedQuad(p).value / 0x1_0000, ParseStrictDottedQuad(p).value % 0x1_0000]
    ensures RunFits(h, [], true) && RunParts(h, [], true) == [p]
  {
    hide ParseStrictDottedQuad, ToDotted;
    var n := ParseStrictDottedQuad(p).value;
    StrictReadsCanonical(p, n);
    assert h[0] * 0x1_0000 + h[1] == n;
    assert RunFits(h, [], true);
    assert PaddedParts(h[..0], []) == [];
  }

  lemma PaddedPart(p: string) returns (k: nat)
    requires IsHextet(p) && Lower(p) == p
    ensures p == Padded(ValueOf(p, 16), k) && |p| <= 4
  {
    k := StripZeros(p, 16);
  }

  lemma PaddedCons(h: seq<nat>, k: nat, more: seq<nat>)
    requires h != [] && |more| == |h| - 1
    ensures PaddedParts(h, [k] + more) == [Padded(h[0], k)] + PaddedParts(h[1..], more)
  {
    hide Padded;
  }

  lemma ConsRun(h: seq<nat>, k: nat, more: seq<nat>, dotted: bool)
    requires h != [] && RunFits(h[1..], more, dotted) && AreHextets(h) && |Padded(h[0], k)| <= 4
    ensures RunFits(h, [k] + more, dotted)
    ensures RunParts(h, [k] + more, dotted) == [Padded(h[0], k)] + RunParts(h[1..], more, dotted)
  {
    hide Padded, ToDotted, PaddedParts;
    var pads := [k] + more;
    assert RunFits(h, pads, dotted) by {
      forall i | 0 <= i < |pads| ensures |Padded(h[i], pads[i])| <= 4 {
        if i > 0 {
          assert pads[i] == more[i - 1] && h[i] == h[1..][i - 1];
        }
      }
    }
    if dotted {
      var n := |h| - 2;
      PaddedCons(h[..n], k, more);
      assert h[..n][1..] == h[1..][..n - 1];
      assert h[1..][n - 1] == h[n] && h[1..][n] == h[n + 1];
    } else {
      PaddedCons(h, k, more);
    }
  }

  lemma RunText(s: string, h: seq<nat>) returns (pads: seq<nat>, dotted: bool)
    requires ParseHextets(s) == Some(h) && Lower(s) == s
    ensures RunFits(h, pads, dotted) && s == Join(RunParts(h, pads, dotted), ':')
    ensures dotted ==> '.' in s
  {
    hide GroupsOf, Lower, RunFits, RunParts, Split;
    if s == "" {
      EmptyGroups();
      pads, dotted := RunOf([], h);
    } else {
      var parts := Split(s, ':');
      SplitLower(s, ':');
      assert forall i :: 0 <= i < |parts| ==> LowerAll(parts)[i] == parts[i];
      pads, dotted := RunOf(parts, h);
      JoinSplit(s, ':');
      if dotted {
        LastInJoin(parts, '.');
      }
    }
  }

  lemma {:induction false} LastInJoin(parts: seq<string>, c: char)
    requires parts != [] && c in parts[|parts| - 1]
    ensures c in Join(parts, ':')
  {
    if |parts| > 1 {
      LastInJoin(parts[1..], c);
    }
  }

  /** Whatever decodes, in lower case, is a spelling of what it decodes to. */
  lemma DecodedIsSpelled(s: string, g: seq<nat>) returns (how: Spelling6)
    requires DecodeIpv6(s) == Some(g) && Lower(s) == s
    ensures IsAddress(g) && Spells(g, how) && s == Text6(g, how)
  {
    hide ParseHextets, Lower, Join, RunParts, RunFits, CountDouble;
    DecodedIsAddress(s);
    var gap := IndexOfDouble(s);
    if gap.None? {
      var pads, dotted := RunText(s, g);
      how := Full(pads, dotted);
    } else {
      var i := gap.value;
      var leftText, rightText := s[..i], s[i + 2..];
      LowerParts(s, i);
      var left, right := ParseHextets(leftText).value, ParseHextets(rightText).value;
      var lp, ld := RunText(leftText, left);
      var rp, rd := RunText(rightText, right);
      var len := 8 - |left| - |right|;
      how := Gapped(|left|, len, lp, rp, rd);
      assert g[..|left|] == left && g[|left| + len..] == right;
      assert s == leftText + "::" + rightText;
    }
  }

  lemma LowerParts(s: string, i: nat)
    requires Lower(s) == s && i + 2 <= |s|
    ensures Lower(s[..i]) == s[..i] && Lower(s[i + 2..]) == s[i + 2..]
  {
    assert Lower(s)[..i] == Lower(s[..i]) && Lower(s)[i + 2..] == Lower(s[i + 2..]);
  }

  // ---------- exactly the spellings ----------

  lemma TextIsLower(g: seq<nat>, how: Spelling6)
    requires Spells(g, how)
    ensures Lower(Text6(g, how)) == Text6(g, how)
  {
    hide RunParts, RunFits, Join, Lower;
    match how {
      case Full(pads, dotted) =>
        RunReads(g, pads, dotted);
        LowerJoin(RunParts(g, pads, dotted), ':');
      case Gapped(start, len, left, right, dotted) =>
        RunReads(g[..start], left, false);
        RunReads(g[start + len..], right, dotted);
        LowerJoin(RunParts(g[..start], left, false), ':');
        LowerJoin(RunParts(g[start + len..], right, dotted), ':');
        LowerAround(Join(RunParts(g[..start], left, false), ':'), Join(RunParts(g[start + len..], right, dotted), ':'));
    }
  }

  lemma LowerAround(a: string, b: string)
    requires Lower(a) == a && Lower(b) == b
    ensures Lower(a + "::" + b) == a + "::" + b
  {
    assert Lower(a + "::" + b) == Lower(a) + "::" + Lower(b);
  }

  /** A text decodes to an address if and only if it is, up to case, a spelling of it: each group
      its hex numeral padded with zeros to at most four digits, optionally one `::` for a run of
      zero groups, and optionally the last two groups as a dotted quad. */
  lemma DecodesExactly(s: string, g: seq<nat>)
    ensures DecodeIpv6(s) == Some(g) <==>
      IsAddress(g) && exists how: Spelling6 :: Spells(g, how) && UpToCase(s, Text6(g, how))
  {
    hide DecodeIpv6, Lower, UpToCase, Spells, IsAddress;
    DecodeLower(s);
    if DecodeIpv6(s) == Some(g) {
      LowerTwice(s);
      var how := DecodedIsSpelled(Lower(s), g);
      TextIsLower(g, how);
      CaseIsLower(s, Text6(g, how));
    }
    if IsAddress(g) {
      if how: Spelling6 :| Spells(g, how) && UpToCase(s, Text6(g, how)) {
        TextIsLower(g, how);
        CaseIsLower(s, Text6(g, how));
        SpellingDecodes(g, how);
      }
    }
  }

  // ---------- the two canonical spellings ----------

  /** Without zeros in front, a run is the plain hex run. */
  lemma BareRun(h: seq<nat>)
    requires AreHextets(h)
    ensures RunFits(h, Zeros(|h|), false) && RunParts(h, Zeros(|h|), false) == HexParts(h)
  {
    hide Numeral, IsHextet;
    forall i | 0 <= i < |h| ensures Padded(h[i], 0) == Numeral(h[i], 16) && |Padded(h[i], 0)| <= 4 {
      HexPart(h[i]);
      ShortHextet(Numeral(h[i], 16));
    }
    assert RunFits(h, Zeros(|h|), false);
  }

  lemma ShortHextet(p: string)
    requires IsHextet(p)
    ensures |p| <= 4
  {
  }

  ghost predicate Bare(how: Spelling6) {
    match how
    case Full(pads, _) => forall i :: 0 <= i < |pads| ==> pads[i] == 0
    case Gapped(_, _, left, right, _) =>
      (forall i :: 0 <= i < |left| ==> left[i] == 0) && (forall i :: 0 <= i < |right| ==> right[i] == 0)
  }

  ghost predicate AllZero(g: seq<nat>, start: int, len: nat) {
    0 <= start && start + len <= |g| && forall i :: start <= i < start + len ==> g[i] == 0
  }

  /** The gap is the first longest run of zero groups among the first `n`, of two at least; there
      is none exactly when no two of them are adjacent zeros (section 4.2 of RFC 5952). */
  ghost predicate GapRule(g: seq<nat>, n: nat, how: Spelling6)
    requires n <= |g|
  {
    && (how.Full? <==> forall i :: 0 <= i < n - 1 ==> !(g[i] == 0 && g[i + 1] == 0))
    && (how.Gapped? ==>
          && how.len >= 2 && how.start + how.len <= n
          && (forall start: int, len: nat :: AllZero(g, start, len) && start + len <= n ==>
                len < how.len || (len == how.len && how.start <= start)))
  }

  lemma ScanRule(g: seq<nat>, n: nat)
    requires n <= |g|
    ensures var r := Scan(g, n);
      && (r.bestLen < 2 <==> forall i :: 0 <= i < n - 1 ==> !(g[i] == 0 && g[i + 1] == 0))
      && (r.bestLen >= 2 ==> forall start: int, len: nat :: AllZero(g, start, len) && start + len <= n ==>
            len < r.bestLen || (len == r.bestLen && r.bestStart <= start))
  {
    var r := Scan(g, n);
    hide Scan;
    assert forall i :: 0 <= i < n - 1 && g[i] == 0 && g[i + 1] == 0 ==> ZerosAt(g, i, 2);
    if r.bestLen >= 2 {
      assert g[r.bestStart] == 0 && g[r.bestStart + 1] == 0;
      forall start: int, len: nat | AllZero(g, start, len) && start + len <= n
        ensures len < r.bestLen || (len == r.bestLen && r.bestStart <= start)
      {
        assert ZerosAt(g, start, len);
      }
    }
  }

  /** The canonical form is the spelling without padding and without a quad that follows the rule. */
  lemma CanonicalSpelling(g: seq<nat>) returns (how: Spelling6)
    requires IsAddress(g)
    ensures Spells(g, how) && Canonical(g) == Text6(g, how)
    ensures Bare(how) && !how.dotted && GapRule(g, 8, how)
  {
    hide RunFits, RunParts, HexParts, Join, Scan, Canonical, Text6;
    var r := Scan(g, 8);
    ScanRule(g, 8);
    if r.bestLen < 2 {
      how := Full(Zeros(8), false);
      CanonicalFull(g);
    } else {
      how := Gapped(r.bestStart, r.bestLen, Zeros(r.bestStart), Zeros(8 - r.bestStart - r.bestLen), false);
      CanonicalGap(g, r.bestStart, r.bestLen);
    }
  }

  lemma CanonicalFull(g: seq<nat>)
    requires IsAddress(g) && Scan(g, 8).bestLen < 2
    ensures Spells(g, Full(Zeros(8), false)) && Canonical(g) == Text6(g, Full(Zeros(8), false))
  {
    hide RunFits, RunParts, HexParts, Join, Scan;
    BareRun(g);
  }

  lemma CanonicalGap(g: seq<nat>, start: nat, len: nat)
    requires IsAddress(g) && Scan(g, 8).bestLen == len >= 2 && Scan(g, 8).bestStart == start
    ensures start + len <= 8
    ensures var how := Gapped(start, len, Zeros(start), Zeros(8 - start - len), false);
      Spells(g, how) && Canonical(g) == Text6(g, how)
  {
    hide RunFits, RunParts, HexParts, Join, Scan;
    BareRun(g[..start]);
    BareRun(g[start + len..]);
  }

  /** The same for the mixed form: with the quad, and the rule applied to the first six groups. */
  lemma MixedSpelling(g: seq<nat>) returns (how: Spelling6)
    requires IsAddress(g)
    ensures Spells(g, how) && Mixed(g) == Text6(g, how)
    ensures Bare(how) && how.dotted && GapRule(g, 6, how)
  {
    hide RunFits, RunParts, HexParts, Join, ToDotted, Scan, Mixed, Text6;
    var r := Scan(g, 6);
    ScanRule(g, 6);
    if r.bestLen < 2 {
      how := Full(Zeros(6), true);
      MixedFull(g);
    } else {
      how := Gapped(r.bestStart, r.bestLen, Zeros(r.bestStart), Zeros(6 - r.bestStart - r.bestLen), true);
      MixedGap(g, r.bestStart, r.bestLen);
    }
  }

  lemma MixedFull(g: seq<nat>)
    requires IsAddress(g) && Scan(g, 6).bestLen < 2
    ensures Spells(g, Full(Zeros(6), true)) && Mixed(g) == Text6(g, Full(Zeros(6), true))
  {
    hide RunFits, RunParts, HexParts, Join, ToDotted, Scan;
    BareQuad(g);
    QuadParts(g[..6]);
    JoinSnoc(HexParts(g[..6]), ToDotted(Low32(g)));
  }

  lemma MixedGap(g: seq<nat>, start: nat, len: nat)
    requires IsAddress(g) && Scan(g, 6).bestLen == len >= 2 && Scan(g, 6).bestStart == start
    ensures start + len <= 6
    ensures var how := Gapped(start, len, Zeros(start), Zeros(6 - start - len), true);
      Spells(g, how) && Mixed(g) == Text6(g, how)
  {
    hide RunFits, RunParts, HexParts, Join, ToDotted, Scan;
    var left, middle, right := g[..start], g[start + len..6], g[start + len..];
    BareRun(left);
    BareQuad(right);
    assert right[..|right| - 2] == middle;
    MixedText(left, middle, ToDotted(Low32(g)));
  }

  lemma QuadParts(h: seq<nat>)
    requires h != []
    ensures HexParts(h) != []
  {
  }

  lemma BareQuad(h: seq<nat>)
    requires AreHextets(h) && |h| >= 2
    ensures var n := |h| - 2;
      && RunFits(h, Zeros(n), true)
      && RunParts(h, Zeros(n), true) == HexParts(h[..n]) + [ToDotted(h[n] * 0x1_0000 + h[n + 1])]
  {
    hide ToDotted, HexParts, Padded;
    var n := |h| - 2;
    BareRun(h[..n]);
    assert forall i :: 0 <= i < n ==> h[..n][i] == h[i];
    assert RunFits(h, Zeros(n), true);
  }
}
