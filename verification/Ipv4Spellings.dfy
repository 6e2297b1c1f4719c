/** Which texts denote an IPv4 address: every inet_aton spelling of every value
    (packages/core/src/parse/ip.ts), described by printing instead of parsing. */
module Ipv4Spellings {
  import opened Wrappers
  import opened Texts
  import opened Numerals
  import opened Ipv4

  /** How one part may be written; `zeros` counts the zeros put in front of its digits. */
  datatype Spelling = Decimal | PaddedDecimal(zeros: nat) | Octal(zeros: nat) | Hex(zeros: nat)

  function ZeroText(k: nat): string {
    if k == 0 then "" else "0" + ZeroText(k - 1)
  }

  function Spell(n: nat, how: Spelling): string {
    match how
    case Decimal => Numeral(n, 10)
    case PaddedDecimal(k) => ZeroText(k + 1) + Numeral(n, 10)
    case Octal(k) => ZeroText(k + 1) + Numeral(n, 8)
    case Hex(k) => "0x" + ZeroText(k) + Numeral(n, 16)
  }

  /** A leading zero makes a part octal unless its decimal digits hold an 8 or a 9. */
  predicate Fits(n: nat, how: Spelling) {
    how.PaddedDecimal? ==> !AllDigits(Numeral(n, 10), 8)
  }

  lemma {:induction false} ZerosAdd(k: nat, s: string, b: nat)
    requires IsBase(b)
    ensures AllDigits(ZeroText(k) + s, b) <==> AllDigits(s, b)
    ensures AllDigits(s, b) ==> ValueOf(ZeroText(k) + s, b) == ValueOf(s, b)
  {
    if k > 0 {
      ZerosAdd(k - 1, s, b);
      assert ZeroText(k) + s == "0" + (ZeroText(k - 1) + s);
      OneZero(ZeroText(k - 1) + s, b);
    } else {
      assert ZeroText(k) + s == s;
    }
  }

  lemma {:induction false} OneZero(s: string, b: nat)
    requires IsBase(b)
    ensures AllDigits("0" + s, b) <==> AllDigits(s, b)
    ensures AllDigits(s, b) ==> ValueOf("0" + s, b) == ValueOf(s, b)
  {
    var z := "0" + s;
    assert z[0] == '0' && z[1..] == s;
    assert AllDigits(z, b) ==> AllDigits(s, b) by {
      assert forall i :: 0 <= i < |s| ==> s[i] == z[i + 1];
    }
    if AllDigits(s, b) && s != "" {
      OneZero(s[..|s| - 1], b);
      assert z[..|s|] == "0" + s[..|s| - 1] && z[|s|] == s[|s| - 1];
    } else if s == "" {
      assert z[..0] == "";
    }
  }

  /** Every spelling of a part reads as its value, and only the decimal numeral as plain. */
  lemma SpellingReads(n: nat, how: Spelling)
    requires Fits(n, how)
    ensures ParsePart(Spell(n, how)) == Some(Part(n, !how.Decimal?))
  {
    hide ValueOf, Numeral, IsDigitOf;
    if how.Decimal? {
      NumeralPart(n);
    } else {
      var b := if how.Hex? then 16 else if how.Octal? then 8 else 10;
      var k := if how.Hex? then how.zeros else how.zeros + 1;
      ValueOfNumeral(n, b);
      ZerosAdd(k, Numeral(n, b), b);
      ZerosAdd(k, Numeral(n, b), 8);
      var digits, p := ZeroText(k) + Numeral(n, b), Spell(n, how);
      if how.Hex? {
        assert p == "0x" + digits && p[2..] == digits;
      } else {
        assert ZeroText(k)[0] == '0' && p == digits && |p| >= 2;
        DigitIsNoMark(p[1], b);
      }
    }
  }

  lemma DigitIsNoMark(c: char, b: nat)
    requires IsDigitOf(c, b)
    ensures c != 'x' && c != 'X'
  {
  }

  /** Digits are zeros followed by the numeral of their value. */
  lemma {:induction false} StripZeros(s: string, b: nat) returns (k: nat)
    requires IsBase(b) && s != "" && AllDigits(s, b) && Lower(s) == s
    ensures s == ZeroText(k) + Numeral(ValueOf(s, b), b)
  {
    hide ValueOf, Numeral;
    if |s| > 1 && s[0] == '0' {
      var rest := s[1..];
      assert s == "0" + rest && Lower(rest) == Lower(s)[1..];
      OneZero(rest, b);
      k := StripZeros(rest, b);
      k := k + 1;
      assert ZeroText(k) + Numeral(ValueOf(s, b), b) == "0" + (ZeroText(k - 1) + Numeral(ValueOf(s, b), b));
    } else {
      k := 0;
      forall i | 0 <= i < |s| ensures !('A' <= s[i] <= 'F') {
        assert Lower(s)[i] == LowerChar(s[i]);
      }
      CanonicalIsNumeral(s, b);
    }
  }

  /** Reading does not depend on case; only hex has letters. */
  lemma PartLower(p: string)
    ensures ParsePart(Lower(p)) == ParsePart(p)
  {
    hide ValueOf;
    if |p| >= 3 {
      assert Lower(p)[2..] == Lower(p[2..]);
      ValueLower(p[2..]);
    }
    DigitsAreLower(p, 8);
    DigitsAreLower(p, 10);
  }

  lemma DigitsAreLower(p: string, b: nat)
    requires b == 8 || b == 10
    ensures AllDigits(p, b) || AllDigits(Lower(p), b) ==> Lower(p) == p
  {
    if AllDigits(p, b) || AllDigits(Lower(p), b) {
      var q := if AllDigits(p, b) then p else Lower(p);
      forall i | 0 <= i < |p| ensures Lower(p)[i] == p[i] {
        assert IsDigitOf(q[i], b);
      }
    }
  }

  ghost predicate IsSpelling(p: string, part: Part, how: Spelling) {
    Fits(part.value, how) && (how.Decimal? <==> !part.nonDecimal) && Lower(p) == Spell(part.value, how)
  }

  /** Whatever is accepted is one of the spellings, up to case. */
  lemma ReadsSpelling(p: string) returns (how: Spelling)
    requires ParsePart(p).Some?
    ensures IsSpelling(p, ParsePart(p).value, how)
  {
    hide ValueOf, Numeral;
    DigitsAreLower(p, 8);
    DigitsAreLower(p, 10);
    if |p| >= 3 && p[0] == '0' && (p[1] == 'x' || p[1] == 'X') && AllDigits(p[2..], 16) {
      var q := Lower(p[2..]);
      ValueLower(p[2..]);
      LowerTwice(p[2..]);
      var k := StripZeros(q, 16);
      how := Hex(k);
      assert Lower(p) == "0x" + q;
      assert "0x" + ZeroText(k) + Numeral(ValueOf(q, 16), 16) == "0x" + (ZeroText(k) + Numeral(ValueOf(q, 16), 16));
    } else if |p| >= 2 && p[0] == '0' {
      var b := if AllDigits(p, 8) then 8 else 10;
      var k := PaddedDigits(p, b);
      how := if b == 8 then Octal(k) else PaddedDecimal(k);
      ZerosAdd(k + 1, Numeral(ValueOf(p, b), b), 8);
    } else {
      how := Decimal;
      DecimalPartIsNumeral(p);
    }
  }

  lemma PaddedDigits(p: string, b: nat) returns (k: nat)
    requires (b == 8 || b == 10) && |p| >= 2 && p[0] == '0' && AllDigits(p, b)
    ensures p == ZeroText(k + 1) + Numeral(ValueOf(p, b), b)
  {
    hide ValueOf, Numeral;
    var rest := p[1..];
    assert p == "0" + rest;
    DigitsAreLower(rest, b);
    OneZero(rest, b);
    k := StripZeros(rest, b);
    assert ZeroText(k + 1) + Numeral(ValueOf(p, b), b) == "0" + (ZeroText(k) + Numeral(ValueOf(p, b), b));
  }

  ghost function SpellingOf(p: string): (how: Spelling)
    requires ParsePart(p).Some?
    ensures IsSpelling(p, ParsePart(p).value, how)
  {
    assert exists how :: IsSpelling(p, ParsePart(p).value, how) by {
      var how := ReadsSpelling(p);
    }
    var how :| IsSpelling(p, ParsePart(p).value, how);
    how
  }

  // ---------- whole hosts ----------

  function Spelled(v: seq<nat>, how: seq<Spelling>): (parts: seq<string>)
    requires |how| == |v|
    ensures |parts| == |v| && forall i :: 0 <= i < |v| ==> parts[i] == Spell(v[i], how[i])
  {
    seq(|v|, i requires 0 <= i < |v| => Spell(v[i], how[i]))
  }

  function ListText(v: seq<nat>, how: seq<Spelling>): string
    requires |how| == |v|
  {
    Join(Spelled(v, how), '.')
  }

  /** Up to case, the host is this dotted list of spelled values, perhaps with a root dot. */
  ghost predicate IsSpelled(host: string, v: seq<nat>, how: seq<Spelling>) {
    && |how| == |v| && v != [] && (forall i :: 0 <= i < |v| ==> Fits(v[i], how[i]))
    && (UpToCase(host, ListText(v, how)) || UpToCase(host, ListText(v, how) + "."))
  }

  lemma SpellIsLower(n: nat, how: Spelling)
    requires Fits(n, how)
    ensures Lower(Spell(n, how)) == Spell(n, how) && Spell(n, how) != "" && '.' !in Spell(n, how)
  {
    hide Numeral, ValueOf;
    SpellingReads(n, how);
    NumeralIsCanonical(n, 8);
    NumeralIsCanonical(n, 10);
    NumeralIsCanonical(n, 16);
    if !how.Decimal? {
      ZeroChars(how.zeros);
      ZeroChars(how.zeros + 1);
    }
  }

  lemma {:induction false} ZeroChars(k: nat)
    ensures |ZeroText(k)| == k && forall i :: 0 <= i < k ==> ZeroText(k)[i] == '0'
  {
    if k > 0 {
      ZeroChars(k - 1);
    }
  }

  /** One root dot, and no more, is dropped. */
  lemma RootDot(host: string, t: string)
    requires Lower(t) == t && t != "" && t[|t| - 1] != '.'
    ensures Lower(StripTrailingRootDot(host)) == t <==> UpToCase(host, t) || UpToCase(host, t + ".")
  {
    CaseIsLower(host, t);
    assert Lower(t + ".") == Lower(t) + ".";
    CaseIsLower(host, t + ".");
    var s := StripTrailingRootDot(host);
    if host != s {
      assert host == s + "." && Lower(s + ".") == Lower(s) + ".";
      assert (Lower(s) + ".")[..|s|] == Lower(s) && (t + ".")[..|t|] == t;
    }
    if Lower(host) == t + "." {
      assert Lower(host)[|host| - 1] == '.';
      assert host[|host| - 1] == '.';
    }
  }

  /** So being spelled is a matter of the host without its root dot. */
  lemma SpelledStripped(host: string, v: seq<nat>, how: seq<Spelling>)
    requires |how| == |v| && v != [] && forall i :: 0 <= i < |v| ==> Fits(v[i], how[i])
    ensures IsSpelled(host, v, how) <==> Lower(StripTrailingRootDot(host)) == ListText(v, how)
  {
    hide Spell, Lower, StripTrailingRootDot, Join, UpToCase;
    var parts := Spelled(v, how);
    forall i | 0 <= i < |v| ensures Lower(parts[i]) == parts[i] && parts[i] != "" && '.' !in parts[i] {
      SpellIsLower(v[i], how[i]);
    }
    LowerJoin(parts, '.');
    JoinEnds(parts, '.');
    RootDot(host, ListText(v, how));
  }

  /** A spelled host denotes what its values denote, and is obfuscated exactly when it does
      not have four parts or one of them is not a plain decimal. */
  lemma SpelledHost(host: string, v: seq<nat>, how: seq<Spelling>)
    requires IsSpelled(host, v, how)
    ensures Ipv4Value(host) == InetAton(v)
    ensures AnalyzeIpv4(host).Some? ==>
      (AnalyzeIpv4(host).value.obfuscated <==> |v| != 4 || exists i :: 0 <= i < |v| && !how[i].Decimal?)
  {
    hide ParsePart, Spell, InetAton, ToDotted, Split, Join, StripTrailingRootDot, Lower, UpToCase;
    SpelledStripped(host, v, how);
    var s := StripTrailingRootDot(host);
    var parts := Split(s, '.');
    forall i | 0 <= i < |v| ensures '.' !in Spelled(v, how)[i] {
      SpellingReads(v[i], how[i]);
    }
    SplitJoin(Spelled(v, how), '.');
    SplitLower(s, '.');
    forall i | 0 <= i < |parts| ensures ParsePart(parts[i]) == Some(Part(v[i], !how[i].Decimal?)) {
      assert LowerAll(parts)[i] == Spelled(v, how)[i];
      PartLower(parts[i]);
      SpellingReads(v[i], how[i]);
    }
    var parsed := ParsedHost(host).value;
    assert Values(parsed) == v;
    assert forall i :: 0 <= i < |v| ==> parsed[i].nonDecimal == !how[i].Decimal?;
  }

  /** A host denotes an address exactly when it is, up to case and one root dot, a dotted list
      of spelled values that inet_aton packs into it. */
  lemma DenotesExactly(host: string, n: nat)
    ensures Ipv4Value(host) == Some(n) <==>
      exists v: seq<nat>, how: seq<Spelling> :: IsSpelled(host, v, how) && InetAton(v) == Some(n)
  {
    hide ParsePart, Spell, InetAton, Split, Join, StripTrailingRootDot, Lower, Fits, UpToCase;
    if Ipv4Value(host) == Some(n) {
      var s := StripTrailingRootDot(host);
      var parts, parsed := Split(s, '.'), ParsedHost(host).value;
      var v := Values(parsed);
      var how := seq(|parts|, i requires 0 <= i < |parts| => SpellingOf(parts[i]));
      assert forall i :: 0 <= i < |parts| ==> IsSpelling(parts[i], parsed[i], how[i]);
      SplitLower(s, '.');
      assert LowerAll(parts) == Spelled(v, how);
      JoinSplit(Lower(s), '.');
      SpelledStripped(host, v, how);
      assert IsSpelled(host, v, how);
    }
    if v: seq<nat>, how: seq<Spelling> :| IsSpelled(host, v, how) && InetAton(v) == Some(n) {
      SpelledHost(host, v, how);
    }
  }
}
