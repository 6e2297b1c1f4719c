/** Positional numerals: `Number.prototype.toString(base)` and `parseInt(s, base)` on
    naturals, for the bases the address code uses. */
module Numerals {
  import opened Texts

  predicate IsBase(b: nat) {
    b == 8 || b == 10 || b == 16
  }

  function DigitChar(d: nat): char
    requires d < 16
  {
    "0123456789abcdef"[d]
  }

  /** The value of a digit character, in either case, up to base 16. */
  predicate IsDigitOf(c: char, b: nat) {
    ('0' <= c <= '9' && c as int - '0' as int < b) ||
    (b == 16 && ('a' <= c <= 'f' || 'A' <= c <= 'F'))
  }

  function DigitValue(c: char, b: nat): (d: nat)
    requires IsBase(b) && IsDigitOf(c, b)
    ensures d < b
  {
    if '0' <= c <= '9' then c as int - '0' as int
    else if 'a' <= c <= 'f' then c as int - 'a' as int + 10
    else c as int - 'A' as int + 10
  }

  predicate AllDigits(s: string, b: nat) {
    forall i :: 0 <= i < |s| ==> IsDigitOf(s[i], b)
  }

  function Numeral(n: nat, b: nat): (s: string)
    requires IsBase(b)
    ensures s != "" && AllDigits(s, b)
    decreases n
  {
    DigitCharOk(n % b, b);
    if n < b then [DigitChar(n)] else
      Numeral(n / b, b) + [DigitChar(n % b)]
  }

  lemma DigitCharOk(d: nat, b: nat)
    requires IsBase(b) && d < b
    ensures IsDigitOf(DigitChar(d), b) && DigitValue(DigitChar(d), b) == d
  {
  }

  /** One more digit at the end. */
  function Append(v: nat, d: nat, b: nat): nat {
    v * b + d
  }

  function ValueOf(s: string, b: nat): nat
    requires IsBase(b) && AllDigits(s, b)
  {
    if s == "" then 0 else Append(ValueOf(s[..|s| - 1], b), DigitValue(s[|s| - 1], b), b)
  }

  lemma AppendSplits(v: nat, d: nat, b: nat)
    requires IsBase(b) && d < b
    ensures Append(v, d, b) / b == v && Append(v, d, b) % b == d
    ensures v > 0 ==> Append(v, d, b) >= b
    ensures v == 0 ==> Append(v, d, b) == d
  {
    if b == 8 {
      assert (v * 8 + d) / 8 == v;
    } else if b == 10 {
      assert (v * 10 + d) / 10 == v;
    } else {
      assert (v * 16 + d) / 16 == v;
    }
  }

  lemma AppendRestores(n: nat, b: nat)
    requires IsBase(b)
    ensures Append(n / b, n % b, b) == n
    ensures n < b ==> n / b == 0 && n % b == n
  {
  }

  lemma {:induction false} ValueOfNumeral(n: nat, b: nat)
    requires IsBase(b)
    ensures ValueOf(Numeral(n, b), b) == n
    decreases n
  {
    hide Append, DigitChar, DigitValue, IsDigitOf;
    var s := Numeral(n, b);
    DigitCharOk(n % b, b);
    AppendRestores(n, b);
    if n < b {
      assert s == [DigitChar(n)] && s[..0] == "";
      assert ValueOf(s[..0], b) == 0;
    } else {
      ValueOfNumeral(n / b, b);
      assert s[..|s| - 1] == Numeral(n / b, b);
    }
  }

  /** The spelling a numeral has: lower case, and no leading zero unless it is zero itself. */
  predicate IsCanonical(s: string, b: nat) {
    && s != "" && AllDigits(s, b)
    && (forall i :: 0 <= i < |s| ==> !('A' <= s[i] <= 'F'))
    && (s[0] == '0' ==> |s| == 1)
  }

  lemma {:induction false} NumeralIsCanonical(n: nat, b: nat)
    requires IsBase(b)
    ensures IsCanonical(Numeral(n, b), b)
    ensures n > 0 ==> Numeral(n, b)[0] != '0'
    decreases n
  {
    hide IsDigitOf;
    DigitIsLower(n % b);
    AppendRestores(n, b);
    if n >= b {
      NumeralIsCanonical(n / b, b);
    }
  }

  lemma DigitIsLower(d: nat)
    requires d < 16
    ensures !('A' <= DigitChar(d) <= 'F') && (DigitChar(d) == '0' <==> d == 0)
  {
  }

  lemma CharOfDigit(c: char, b: nat)
    requires IsBase(b) && IsDigitOf(c, b) && !('A' <= c <= 'F')
    ensures DigitChar(DigitValue(c, b)) == c && (DigitValue(c, b) == 0 <==> c == '0')
  {
  }

  /** A canonical spelling is the numeral of its value. */
  lemma {:induction false} CanonicalIsNumeral(s: string, b: nat)
    requires IsBase(b) && IsCanonical(s, b)
    ensures Numeral(ValueOf(s, b), b) == s
    ensures s[0] != '0' ==> ValueOf(s, b) > 0
  {
    hide Append, DigitChar, DigitValue, IsDigitOf;
    var rest, last := s[..|s| - 1], s[|s| - 1];
    var d := DigitValue(last, b);
    CharOfDigit(last, b);
    assert s == rest + [last];
    AppendSplits(ValueOf(rest, b), d, b);
    if rest != "" {
      CanonicalIsNumeral(rest, b);
    }
  }

  function Power(b: nat, k: nat): nat {
    if k == 0 then 1 else b * Power(b, k - 1)
  }

  lemma {:induction false} NumeralLength(n: nat, b: nat, k: nat)
    requires IsBase(b) && k > 0 && n < Power(b, k)
    ensures |Numeral(n, b)| <= k
    decreases k
  {
    if n >= b {
      assert Power(b, 0) == 1;
      assert k > 1;
      assert n / b < Power(b, k - 1) by {
        if b == 8 {
        } else if b == 10 {
        } else {
        }
      }
      NumeralLength(n / b, b, k - 1);
    }
  }

  lemma {:induction false} ValueBound(s: string, b: nat)
    requires IsBase(b) && AllDigits(s, b)
    ensures ValueOf(s, b) < Power(b, |s|)
  {
    if s != "" {
      var rest := s[..|s| - 1];
      ValueBound(rest, b);
      var p := Power(b, |rest|);
      var v := ValueOf(rest, b);
      assert (v + 1) * b <= p * b;
    }
  }

  /** Hex digits have the same value in either case. */
  lemma {:induction false} ValueLower(s: string)
    ensures AllDigits(Lower(s), 16) <==> AllDigits(s, 16)
    ensures AllDigits(s, 16) ==> ValueOf(Lower(s), 16) == ValueOf(s, 16)
  {
    forall i | 0 <= i < |s| ensures IsDigitOf(Lower(s)[i], 16) <==> IsDigitOf(s[i], 16) {
    }
    if s != "" && AllDigits(s, 16) {
      var n := |s| - 1;
      ValueLower(s[..n]);
      assert Lower(s)[..n] == Lower(s[..n]);
      assert DigitValue(Lower(s)[n], 16) == DigitValue(s[n], 16);
    }
  }
}
