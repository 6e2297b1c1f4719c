/** Bounded percent-decoding (packages/core/src/parse/decode.ts). */
module PercentDecode {
  import opened Numerals

  const DEFAULT_MAX_DECODE_DEPTH: int := 4

  /** `%XX` at position `i` (section 2.1 of RFC 3986). */
  predicate EscapeAt(s: string, i: nat) {
    i + 2 < |s| && s[i] == '%' && IsDigitOf(s[i + 1], 16) && IsDigitOf(s[i + 2], 16)
  }

  ghost predicate HasEscape(s: string) {
    exists i: nat :: EscapeAt(s, i)
  }

  /** The replacement of every escape, left to right, by the character it names. */
  function DecodeOnce(s: string): string {
    if s == "" then ""
    else if EscapeAt(s, 0) then [(16 * DigitValue(s[1], 16) + DigitValue(s[2], 16)) as char] + DecodeOnce(s[3..])
    else [s[0]] + DecodeOnce(s[1..])
  }

  function HexDigit(n: nat, upper: bool): (c: char)
    requires n < 16
    ensures IsDigitOf(c, 16) && DigitValue(c, 16) == n
  {
    if n < 10 then (n + '0' as int) as char
    else if upper then (n - 10 + 'A' as int) as char
    else (n - 10 + 'a' as int) as char
  }

  /** Which of the two hex digits of an escape are written in upper case. */
  datatype Case = Case(first: bool, second: bool)

  function Escape(c: char, how: Case): (e: string)
    requires c as int < 256
    ensures |e| == 3
  {
    ['%', HexDigit(c as int / 16, how.first), HexDigit(c as int % 16, how.second)]
  }

  /** Every character written as an escape. */
  function Escaped(s: string, how: seq<Case>): string
    requires |how| == |s| && forall i :: 0 <= i < |s| ==> s[i] as int < 256
  {
    if s == "" then "" else Escape(s[0], how[0]) + Escaped(s[1..], how[1..])
  }

  lemma PlainStep(c: char, t: string)
    requires c != '%'
    ensures DecodeOnce([c] + t) == [c] + DecodeOnce(t)
  {
    assert ([c] + t)[1..] == t;
  }

  lemma EscapeStep(c: char, how: Case, t: string)
    requires c as int < 256
    ensures DecodeOnce(Escape(c, how) + t) == [c] + DecodeOnce(t)
  {
    var s := Escape(c, how) + t;
    assert s[1] == HexDigit(c as int / 16, how.first) && s[2] == HexDigit(c as int % 16, how.second) && s[3..] == t;
  }

  /** One pass undoes one layer of escaping, in either case of its digits, whatever follows it, and leaves plain text alone. */
  lemma {:induction false} DecodesEscapes(plain: string, s: string, how: seq<Case>, rest: string)
    requires '%' !in plain && |how| == |s| && forall i :: 0 <= i < |s| ==> s[i] as int < 256
    ensures DecodeOnce(plain + Escaped(s, how) + rest) == plain + s + DecodeOnce(rest)
    decreases |plain| + |s|
  {
    hide DecodeOnce, Escape;
    var t := plain + Escaped(s, how) + rest;
    if plain != "" {
      DecodesEscapes(plain[1..], s, how, rest);
      assert t == [plain[0]] + (plain[1..] + Escaped(s, how) + rest);
      PlainStep(plain[0], plain[1..] + Escaped(s, how) + rest);
      assert plain + s == [plain[0]] + (plain[1..] + s);
    } else if s != "" {
      DecodesEscapes("", s[1..], how[1..], rest);
      assert t == Escape(s[0], how[0]) + ("" + Escaped(s[1..], how[1..]) + rest);
      EscapeStep(s[0], how[0], "" + Escaped(s[1..], how[1..]) + rest);
      assert plain + s == [s[0]] + ("" + s[1..]);
    } else {
      assert t == rest;
    }
  }

  lemma {:induction false} DecodeNeverGrows(s: string)
    ensures |DecodeOnce(s)| <= |s|
  {
    if s != "" {
      if EscapeAt(s, 0) {
        DecodeNeverGrows(s[3..]);
      } else {
        DecodeNeverGrows(s[1..]);
      }
    }
  }

  /** One pass changes a string exactly when it holds an escape, and then shortens it. */
  lemma {:induction false} DecodeChanges(s: string)
    ensures HasEscape(s) ==> |DecodeOnce(s)| <= |s| - 2
    ensures !HasEscape(s) ==> DecodeOnce(s) == s
  {
    if s == "" {
    } else if EscapeAt(s, 0) {
      DecodeNeverGrows(s[3..]);
    } else {
      DecodeChanges(s[1..]);
      if HasEscape(s) {
        var i: nat :| EscapeAt(s, i);
        assert EscapeAt(s[1..], i - 1);
      } else if HasEscape(s[1..]) {
        var i: nat :| EscapeAt(s[1..], i);
        assert EscapeAt(s, i + 1);
      }
      assert s == [s[0]] + s[1..];
    }
  }

  function Iterate(s: string, n: nat): string
    decreases n
  {
    if n == 0 then s else Iterate(DecodeOnce(s), n - 1)
  }

  /** How many passes change the string before it is stable. */
  ghost function Depth(s: string): nat
    decreases |s|
  {
    DecodeChanges(s);
    if HasEscape(s) then 1 + Depth(DecodeOnce(s)) else 0
  }

  datatype BoundedDecode = BoundedDecode(decoded: string, passes: nat, truncated: bool)

  function Clamp(maxDepth: int): nat {
    if maxDepth < 0 then 0 else maxDepth
  }

  ghost function Passes(s: string, cap: nat): nat {
    if Depth(s) <= cap then Depth(s) else cap
  }

  /** Decoding under a cap: the cap- or depth-fold iterate, truncated when an escape is left. */
  ghost function Bounded(s: string, cap: nat): BoundedDecode {
    BoundedDecode(Iterate(s, Passes(s, cap)), Passes(s, cap), HasEscape(Iterate(s, Passes(s, cap))))
  }

  lemma {:induction false} IterateAdds(s: string, m: nat, n: nat)
    ensures Iterate(Iterate(s, m), n) == Iterate(s, m + n)
    decreases m
  {
    if m > 0 {
      IterateAdds(DecodeOnce(s), m - 1, n);
    }
  }

  lemma {:induction false} DepthAfter(s: string, n: nat)
    requires n <= Depth(s)
    ensures Depth(Iterate(s, n)) == Depth(s) - n
    decreases n
  {
    if n > 0 {
      DepthAfter(DecodeOnce(s), n - 1);
    }
  }

  /** `truncated` says exactly that the cap was reached before the string was stable. */
  lemma TruncatedExactly(s: string, cap: nat)
    ensures Bounded(s, cap).truncated <==> Depth(s) > cap
    ensures !Bounded(s, cap).truncated <==> DecodeOnce(Bounded(s, cap).decoded) == Bounded(s, cap).decoded
  {
    DepthAfter(s, Passes(s, cap));
    DecodeChanges(Bounded(s, cap).decoded);
  }

  /** Decoding with cap a and then with cap b is decoding with cap a + b. */
  lemma CapsAdd(s: string, a: nat, b: nat)
    ensures var first := Bounded(s, a);
      var second := Bounded(first.decoded, b);
      && second.decoded == Bounded(s, a + b).decoded
      && first.passes + second.passes == Bounded(s, a + b).passes
      && second.truncated == Bounded(s, a + b).truncated
  {
    var m := Passes(s, a);
    DepthAfter(s, m);
    IterateAdds(s, m, Passes(Iterate(s, m), b));
  }

  /** The loop: decode until stable or until the cap. */
  method BoundedDecodeUpTo(input: string, maxDepth: int := DEFAULT_MAX_DECODE_DEPTH) returns (r: BoundedDecode)
    ensures r == Bounded(input, Clamp(maxDepth))
  {
    hide DecodeOnce, EscapeAt;
    var cur, passes := input, 0;
    while passes < maxDepth
      invariant passes <= Clamp(maxDepth) && passes <= Depth(input)
      invariant cur == Iterate(input, passes)
    {
      var next := DecodeOnce(cur);
      DecodeChanges(cur);
      DepthAfter(input, passes);
      if next == cur {
        return BoundedDecode(cur, passes, false);
      }
      IterateAdds(input, passes, 1);
      cur := next;
      passes := passes + 1;
    }
    DecodeChanges(cur);
    DepthAfter(input, passes);
    var truncated := DecodeOnce(cur) != cur;
    return BoundedDecode(cur, passes, truncated);
  }

  /** Without a cap of the caller's, four passes are made at most. */
  method BoundedDecodeByDefault(input: string) returns (r: BoundedDecode)
    ensures r == Bounded(input, 4)
  {
    r := BoundedDecodeUpTo(input);
  }
}
