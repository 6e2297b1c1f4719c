/** IPv4 literals in every inet_aton spelling (packages/core/src/parse/ip.ts), and the dotted
    reader of packages/core/src/detectors/ip-classification.ts. */
module Ipv4 {
  import opened Wrappers
  import opened Texts
  import opened Numerals

  const LIMIT: nat := 0x1_0000_0000

  datatype Part = Part(value: nat, nonDecimal: bool)

  /** One inet_aton part: `0x` hex, leading-zero octal, or decimal. A leading zero on a
      multi-digit decimal that is not octal is still marked as non-decimal. */
  function ParsePart(part: string): (r: Option<Part>)
    ensures r.Some? ==> '.' !in part && ':' !in part
  {
    if |part| >= 3 && part[0] == '0' && (part[1] == 'x' || part[1] == 'X') && AllDigits(part[2..], 16) then
      assert forall i :: 2 <= i < |part| ==> part[i] == part[2..][i - 2];
      Some(Part(ValueOf(part[2..], 16), true))
    else if |part| >= 2 && part[0] == '0' && AllDigits(part, 8) then Some(Part(ValueOf(part, 8), true))
    else if part != "" && AllDigits(part, 10) then Some(Part(ValueOf(part, 10), |part| > 1 && part[0] == '0'))
    else None
  }

  /** All parts, or nothing. */
  function ParseParts(parts: seq<string>): (r: Option<seq<Part>>)
    ensures r.Some? <==> forall i :: 0 <= i < |parts| ==> ParsePart(parts[i]).Some?
    ensures r.Some? ==> |r.value| == |parts| && forall i :: 0 <= i < |parts| ==> r.value[i] == ParsePart(parts[i]).value
  {
    if forall i :: 0 <= i < |parts| ==> ParsePart(parts[i]).Some?
    then Some(seq(|parts|, i requires 0 <= i < |parts| => ParsePart(parts[i]).value))
    else None
  }

  /** Room left for the last of `k` parts. */
  function LastLimit(k: nat): nat
    requires 1 <= k <= 4
  {
    match k
    case 1 => 0x1_0000_0000
    case 2 => 0x100_0000
    case 3 => 0x1_0000
    case 4 => 0x100
  }

  /** The address that one to four part values denote: leading parts are single bytes, the
      last one fills the remaining low-order bytes. */
  function InetAton(v: seq<nat>): (n: Option<nat>)
    ensures n.Some? ==> n.value < LIMIT
  {
    if !(1 <= |v| <= 4) || (exists i :: 0 <= i < |v| - 1 && v[i] > 255) || v[|v| - 1] >= LastLimit(|v|) then None
    else match |v|
      case 1 => Some(v[0])
      case 2 => Some(v[0] * 0x100_0000 + v[1])
      case 3 => Some(v[0] * 0x100_0000 + v[1] * 0x1_0000 + v[2])
      case 4 => Some(v[0] * 0x100_0000 + v[1] * 0x1_0000 + v[2] * 0x100 + v[3])
  }

  function Values(parts: seq<Part>): (v: seq<nat>)
    ensures |v| == |parts| && forall i :: 0 <= i < |v| ==> v[i] == parts[i].value
  {
    seq(|parts|, i requires 0 <= i < |parts| => parts[i].value)
  }

  function Octet(n: nat, i: nat): (o: nat)
    requires i < 4
    ensures n < LIMIT ==> o < 256
  {
    match i
    case 0 => n / 256 / 256 / 256
    case 1 => n / 256 / 256 % 256
    case 2 => n / 256 % 256
    case 3 => n % 256
  }

  function DottedParts(n: nat): (parts: seq<string>)
    ensures |parts| == 4
    ensures forall i :: 0 <= i < 4 ==> parts[i] == Numeral(Octet(n, i), 10)
  {
    [Numeral(Octet(n, 0), 10), Numeral(Octet(n, 1), 10), Numeral(Octet(n, 2), 10), Numeral(Octet(n, 3), 10)]
  }

  /** Dotted decimal. */
  function ToDotted(n: nat): string {
    Join(DottedParts(n), '.')
  }

  function StripTrailingRootDot(host: string): string {
    if |host| > 1 && host[|host| - 1] == '.' then host[..|host| - 1] else host
  }

  datatype Ipv4Analysis = Ipv4Analysis(obfuscated: bool, canonical: string)

  predicate SomeNonDecimal(parts: seq<Part>) {
    exists i :: 0 <= i < |parts| && parts[i].nonDecimal
  }

  function ParsedHost(host: string): Option<seq<Part>> {
    ParseParts(Split(StripTrailingRootDot(host), '.'))
  }

  /** The 32-bit value a host denotes, when it denotes one. */
  function Ipv4Value(host: string): Option<nat> {
    if ParsedHost(host).Some? then InetAton(Values(ParsedHost(host).value)) else None
  }

  function AnalyzeIpv4(host: string): Option<Ipv4Analysis> {
    if Ipv4Value(host).None? then None else
      var parts := ParsedHost(host).value;
      Some(Ipv4Analysis(SomeNonDecimal(parts) || |parts| != 4, ToDotted(Ipv4Value(host).value)))
  }

  /** The packing loop. Its last overflow test never fires. */
  method AnalyzeIpv4Host(host: string) returns (r: Option<Ipv4Analysis>)
    ensures r == AnalyzeIpv4(host)
  {
    hide ParsePart, ToDotted, Split;
    var parts := Split(StripTrailingRootDot(host), '.');
    if |parts| == 0 || |parts| > 4 {
      return None;
    }
    var parsed := ParseParts(parts);
    if parsed.None? {
      return None;
    }
    var vals := Values(parsed.value);
    var nonDecimal := SomeNonDecimal(parsed.value);
    var full := Pack(vals);
    if full.None? || full.value > 0xffff_ffff {
      return None;
    }
    return Some(Ipv4Analysis(nonDecimal || |vals| != 4, ToDotted(full.value)));
  }

  method Pack(vals: seq<nat>) returns (n: Option<nat>)
    requires 1 <= |vals| <= 4
    ensures n == InetAton(vals)
  {
    var last := vals[|vals| - 1];
    if last >= LastLimit(|vals|) {
      return None;
    }
    var full := 0;
    for i := 0 to |vals| - 1
      invariant forall j :: 0 <= j < i ==> vals[j] <= 255
      invariant full == PackedBytes(vals, i)
    {
      if vals[i] > 255 {
        return None;
      }
      full := full * 256 + vals[i];
    }
    PackedIsInetAton(vals);
    n := Some(full * LastLimit(|vals|) + last);
  }

  lemma PackedIsInetAton(v: seq<nat>)
    requires 1 <= |v| <= 4 && v[|v| - 1] < LastLimit(|v|) && forall i :: 0 <= i < |v| - 1 ==> v[i] <= 255
    ensures InetAton(v) == Some(PackedBytes(v, |v| - 1) * LastLimit(|v|) + v[|v| - 1])
  {
    assert PackedBytes(v, 0) == 0;
    if |v| > 1 {
      assert PackedBytes(v, 1) == v[0];
    }
    if |v| > 2 {
      assert PackedBytes(v, 2) == v[0] * 256 + v[1];
    }
    if |v| > 3 {
      assert PackedBytes(v, 3) == (v[0] * 256 + v[1]) * 256 + v[2];
    }
  }

  /** The first bytes of the value, most significant first. */
  function PackedBytes(vals: seq<nat>, k: nat): nat
    requires k <= |vals|
  {
    if k == 0 then 0 else PackedBytes(vals, k - 1) * 256 + vals[k - 1]
  }

  // ---------- canonical spellings ----------

  lemma NumeralPart(n: nat)
    ensures ParsePart(Numeral(n, 10)) == Some(Part(n, false))
    ensures '.' !in Numeral(n, 10) && ':' !in Numeral(n, 10)
  {
    NumeralIsCanonical(n, 10);
    ValueOfNumeral(n, 10);
  }

  lemma DecimalPartIsNumeral(p: string)
    requires ParsePart(p).Some? && !ParsePart(p).value.nonDecimal
    ensures p == Numeral(ParsePart(p).value.value, 10)
  {
    CanonicalIsNumeral(p, 10);
  }

  lemma SplitDotted(n: nat)
    ensures Split(ToDotted(n), '.') == DottedParts(n)
    ensures StripTrailingRootDot(ToDotted(n)) == ToDotted(n)
  {
    forall i | 0 <= i < 4 ensures '.' !in DottedParts(n)[i] {
      NumeralPart(Octet(n, i));
    }
    SplitJoin(DottedParts(n), '.');
    JoinEnds(DottedParts(n), '.');
  }

  /** A joined list of non-empty plain parts does not end in the separator. */
  lemma {:induction false} JoinEnds(parts: seq<string>, sep: char)
    requires parts != [] && forall i :: 0 <= i < |parts| ==> parts[i] != "" && sep !in parts[i]
    ensures Join(parts, sep) != "" && Join(parts, sep)[|Join(parts, sep)| - 1] != sep
  {
    if |parts| > 1 {
      JoinEnds(parts[1..], sep);
    }
  }

  lemma OctetsCompose(n: nat)
    requires n < LIMIT
    ensures InetAton([Octet(n, 0), Octet(n, 1), Octet(n, 2), Octet(n, 3)]) == Some(n)
  {
    var x := n / 256;
    var y := x / 256;
    assert n == x * 256 + n % 256;
    assert x == y * 256 + x % 256;
    assert y == (y / 256) * 256 + y % 256;
  }

  lemma Byte(v: nat, d: nat)
    requires d < 256
    ensures (v * 256 + d) / 256 == v && (v * 256 + d) % 256 == d
  {
  }

  lemma OctetsOf(a: nat, b: nat, c: nat, d: nat)
    requires a < 256 && b < 256 && c < 256 && d < 256
    ensures var n := a * 0x100_0000 + b * 0x1_0000 + c * 0x100 + d;
      n < LIMIT && Octet(n, 0) == a && Octet(n, 1) == b && Octet(n, 2) == c && Octet(n, 3) == d
  {
    var y := a * 256 + b;
    var x := y * 256 + c;
    Byte(a, b);
    Byte(y, c);
    Byte(x, d);
    assert a * 0x100_0000 + b * 0x1_0000 + c * 0x100 + d == x * 256 + d;
  }

  /** The canonical form of every 32-bit value decodes to it, and is not obfuscated. */
  lemma CanonicalIsFixpoint(n: nat)
    requires n < LIMIT
    ensures Ipv4Value(ToDotted(n)) == Some(n)
    ensures AnalyzeIpv4(ToDotted(n)) == Some(Ipv4Analysis(false, ToDotted(n)))
  {
    hide ParsePart, ToDotted, Octet;
    SplitDotted(n);
    var parts := DottedParts(n);
    forall i | 0 <= i < 4 ensures ParsePart(parts[i]) == Some(Part(Octet(n, i), false)) {
      NumeralPart(Octet(n, i));
    }
    var parsed := ParseParts(parts).value;
    assert Values(parsed) == [Octet(n, 0), Octet(n, 1), Octet(n, 2), Octet(n, 3)];
    OctetsCompose(n);
  }

  /** A recognized host is unobfuscated exactly when, without its root dot, it is its own
      canonical form. */
  lemma ObfuscatedExactly(host: string)
    requires AnalyzeIpv4(host).Some?
    ensures !AnalyzeIpv4(host).value.obfuscated <==> StripTrailingRootDot(host) == AnalyzeIpv4(host).value.canonical
  {
    hide ParsePart, ToDotted, Octet;
    var n := Ipv4Value(host).value;
    if !AnalyzeIpv4(host).value.obfuscated {
      PlainIsDotted(host);
    }
    if StripTrailingRootDot(host) == ToDotted(n) {
      SplitDotted(n);
      CanonicalIsFixpoint(n);
      assert ParsedHost(host) == ParsedHost(ToDotted(n));
    }
  }

  lemma PlainIsDotted(host: string)
    requires AnalyzeIpv4(host).Some? && !AnalyzeIpv4(host).value.obfuscated
    ensures StripTrailingRootDot(host) == ToDotted(Ipv4Value(host).value)
  {
    hide ParsePart, Octet, Numeral, StripTrailingRootDot;
    var s := StripTrailingRootDot(host);
    var parts, parsed, n := Split(s, '.'), ParsedHost(host).value, Ipv4Value(host).value;
    JoinSplit(s, '.');
    OctetsOf(parsed[0].value, parsed[1].value, parsed[2].value, parsed[3].value);
    forall i | 0 <= i < 4 ensures parts[i] == DottedParts(n)[i] {
      DecimalPartIsNumeral(parts[i]);
    }
    assert parts == DottedParts(n);
  }

  /** An IPv4 host holds no colon, so no host is read both ways. */
  lemma NoColon(host: string)
    requires AnalyzeIpv4(host).Some?
    ensures ':' !in host
  {
    hide ParsePart, Split, Join, InetAton;
    var s := StripTrailingRootDot(host);
    var parts := Split(s, '.');
    JoinSplit(s, '.');
    NoCharInJoin(parts, '.', ':');
    assert host == s || host == s + ".";
  }

  lemma {:induction false} NoCharInJoin(parts: seq<string>, sep: char, c: char)
    requires c != sep && forall i :: 0 <= i < |parts| ==> c !in parts[i]
    ensures c !in Join(parts, sep)
  {
    if |parts| > 1 {
      NoCharInJoin(parts[1..], sep, c);
    }
  }

  // ---------- the two strict readers ----------

  predicate IsStrictOctet(p: string) {
    1 <= |p| <= 3 && AllDigits(p, 10) && (|p| > 1 ==> p[0] != '0') && ValueOf(p, 10) <= 255
  }

  /** Strict dotted decimal: no octal, no hex, no leading zero. */
  function ParseStrictDottedQuad(s: string): Option<nat> {
    var parts := Split(s, '.');
    if |parts| == 4 && (forall i :: 0 <= i < 4 ==> IsStrictOctet(parts[i])) then
      Some(ValueOf(parts[0], 10) * 0x100_0000 + ValueOf(parts[1], 10) * 0x1_0000 + ValueOf(parts[2], 10) * 0x100 + ValueOf(parts[3], 10))
    else None
  }

  method ReadStrictDottedQuad(s: string) returns (r: Option<nat>)
    ensures r == ParseStrictDottedQuad(s)
  {
    hide ValueOf, AllDigits, Split;
    var parts := Split(s, '.');
    if |parts| != 4 {
      return None;
    }
    var value := 0;
    for i := 0 to 4
      invariant forall j :: 0 <= j < i ==> IsStrictOctet(parts[j])
      invariant i == 0 ==> value == 0
      invariant i == 1 ==> value == ValueOf(parts[0], 10)
      invariant i == 2 ==> value == ValueOf(parts[0], 10) * 256 + ValueOf(parts[1], 10)
      invariant i == 3 ==> value == ValueOf(parts[0], 10) * 0x1_0000 + ValueOf(parts[1], 10) * 256 + ValueOf(parts[2], 10)
      invariant i == 4 ==> Some(value) == ParseStrictDottedQuad(s)
    {
      if !IsStrictOctet(parts[i]) {
        return None;
      }
      value := value * 256 + ValueOf(parts[i], 10);
    }
    return Some(value);
  }

  /** The strict reader accepts exactly the canonical forms, each as its own value. */
  lemma StrictReadsCanonical(s: string, n: nat)
    ensures ParseStrictDottedQuad(s) == Some(n) <==> n < LIMIT && s == ToDotted(n)
  {
    if ParseStrictDottedQuad(s) == Some(n) {
      StrictIsCanonical(s, n);
    }
    if n < LIMIT && s == ToDotted(n) {
      CanonicalIsStrict(n);
    }
  }

  lemma StrictIsCanonical(s: string, n: nat)
    requires ParseStrictDottedQuad(s) == Some(n)
    ensures n < LIMIT && s == ToDotted(n)
  {
    hide Octet, ValueOf, Numeral;
    var parts := Split(s, '.');
    OctetsOf(ValueOf(parts[0], 10), ValueOf(parts[1], 10), ValueOf(parts[2], 10), ValueOf(parts[3], 10));
    forall i | 0 <= i < 4 ensures parts[i] == DottedParts(n)[i] {
      assert IsStrictOctet(parts[i]);
      CanonicalIsNumeral(parts[i], 10);
    }
    assert parts == DottedParts(n);
    JoinSplit(s, '.');
  }

  lemma CanonicalIsStrict(n: nat)
    requires n < LIMIT
    ensures ParseStrictDottedQuad(ToDotted(n)) == Some(n)
  {
    hide ToDotted, Octet, ValueOf, Numeral;
    SplitDotted(n);
    forall i | 0 <= i < 4 ensures IsStrictOctet(DottedParts(n)[i]) && ValueOf(DottedParts(n)[i], 10) == Octet(n, i) {
      OctetIsStrict(Octet(n, i));
    }
    OctetsCompose(n);
  }

  lemma OctetIsStrict(o: nat)
    requires o < 256
    ensures IsStrictOctet(Numeral(o, 10)) && ValueOf(Numeral(o, 10), 10) == o
  {
    NumeralIsCanonical(o, 10);
    ValueOfNumeral(o, 10);
    assert Power(10, 3) == 10 * Power(10, 2) && Power(10, 2) == 10 * Power(10, 1) && Power(10, 1) == 10;
    NumeralLength(o, 10, 3);
  }

  /** Horner over the decimal parts. */
  function DottedValue(parts: seq<string>): nat
    requires forall i :: 0 <= i < |parts| ==> AllDigits(parts[i], 10)
  {
    if parts == [] then 0 else DottedValue(parts[..|parts| - 1]) * 256 + ValueOf(parts[|parts| - 1], 10)
  }

  /** The reader used on canonical strings only. */
  method DottedToInt(dotted: string) returns (n: nat)
    requires forall i :: 0 <= i < |Split(dotted, '.')| ==> AllDigits(Split(dotted, '.')[i], 10)
    ensures n == DottedValue(Split(dotted, '.')) % LIMIT
  {
    var parts := Split(dotted, '.');
    n := 0;
    for k := 0 to |parts|
      invariant n == DottedValue(parts[..k])
    {
      assert parts[..k + 1][..k] == parts[..k];
      n := n * 256 + ValueOf(parts[k], 10);
    }
    assert parts[..|parts|] == parts;
    n := n % LIMIT;
  }

  /** On canonical forms it inverts the printer. */
  lemma DottedToIntInverts(n: nat)
    requires n < LIMIT
    ensures var parts := Split(ToDotted(n), '.');
      && (forall i :: 0 <= i < |parts| ==> AllDigits(parts[i], 10))
      && DottedValue(parts) == n
  {
    hide ToDotted, Octet, Numeral;
    SplitDotted(n);
    var p := DottedParts(n);
    forall i | 0 <= i < 4 ensures AllDigits(p[i], 10) && ValueOf(p[i], 10) == Octet(n, i) {
      OctetIsStrict(Octet(n, i));
    }
    assert p[..3][..2] == p[..2] && p[..2][..1] == p[..1] && p[..1][..0] == [];
    assert DottedValue(p[..1]) == Octet(n, 0);
    assert DottedValue(p[..2]) == Octet(n, 0) * 256 + Octet(n, 1);
    OctetsCompose(n);
  }
}
