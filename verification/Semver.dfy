/** Version precedence (tools/check-upstream.ts), section 11 of Semantic Versioning 2.0.0. */
module Semver {
  import opened Wrappers
  import opened TextOrder
  import opened Texts
  import opened Numerals

  datatype ParsedSemver = ParsedSemver(core: seq<nat>, pre: seq<string>)

  predicate IsDigits(s: string) {
    s != "" && AllDigits(s, 10)
  }

  predicate IsIdentifierChars(s: string) {
    s != "" && forall i :: 0 <= i < |s| ==>
      '0' <= s[i] <= '9' || 'a' <= s[i] <= 'z' || 'A' <= s[i] <= 'Z' || s[i] == '.' || s[i] == '-'
  }

  lemma DigitsExactly(s: string)
    ensures IsDigits(s) <==> |s| > 0 && forall i :: 0 <= i < |s| ==> 48 <= s[i] as int <= 57
  {
  }

  /** ASCII letters and digits, dots and hyphens. */
  lemma IdentifierCharsExactly(s: string)
    ensures IsIdentifierChars(s) <==>
      s != "" && forall c :: c in s ==> c == '-' || c == '.' || 48 <= c as int <= 57 || 65 <= c as int <= 90 || 97 <= c as int <= 122
  {
    if forall c :: c in s ==> c == '-' || c == '.' || 48 <= c as int <= 57 || 65 <= c as int <= 90 || 97 <= c as int <= 122 {
      forall i | 0 <= i < |s|
        ensures '0' <= s[i] <= '9' || 'a' <= s[i] <= 'z' || 'A' <= s[i] <= 'Z' || s[i] == '.' || s[i] == '-'
      {
        assert s[i] in s;
      }
    }
  }

  /** Text up to the first mark, and what follows it. */
  function Before(s: string, mark: char): string {
    Split(s, mark)[0]
  }

  function AfterMark(s: string, mark: char): Option<string> {
    var head := Before(s, mark);
    if |head| < |s| then Some(s[|head| + 1..]) else None
  }

  /** `X.Y.Z[-pre][+build]`, or nothing. */
  function ParseSemver(version: string): (r: Option<ParsedSemver>)
    ensures r.Some? ==> |r.value.core| == 3
  {
    var main, build := Before(version, '+'), AfterMark(version, '+');
    var core, pre := Split(Before(main, '-'), '.'), AfterMark(main, '-');
    if |core| == 3 && IsDigits(core[0]) && IsDigits(core[1]) && IsDigits(core[2]) &&
       (pre.Some? ==> IsIdentifierChars(pre.value)) && (build.Some? ==> IsIdentifierChars(build.value))
    then Some(ParsedSemver([ValueOf(core[0], 10), ValueOf(core[1], 10), ValueOf(core[2], 10)],
                           if pre.Some? then Split(pre.value, '.') else []))
    else None
  }

  /** A version spelled from well-formed pieces parses into them, build metadata dropped. */
  lemma ParsesItsPieces(x: string, y: string, z: string, pre: Option<string>, build: Option<string>)
    requires IsDigits(x) && IsDigits(y) && IsDigits(z)
    requires (pre.Some? ==> IsIdentifierChars(pre.value)) && (build.Some? ==> IsIdentifierChars(build.value))
    ensures var main := x + "." + y + "." + z + (if pre.Some? then "-" + pre.value else "");
      ParseSemver(main + (if build.Some? then "+" + build.value else "")) ==
        Some(ParsedSemver([ValueOf(x, 10), ValueOf(y, 10), ValueOf(z, 10)], if pre.Some? then Split(pre.value, '.') else []))
  {
    hide ValueOf, Split, Join;
    var core := x + "." + y + "." + z;
    var main := core + (if pre.Some? then "-" + pre.value else "");
    var version := main + (if build.Some? then "+" + build.value else "");
    assert '.' !in x && '.' !in y && '.' !in z;
    assert '-' !in core && '+' !in main;
    CutMark(main, build, '+', version);
    CutMark(core, pre, '-', main);
    JoinThree(x, y, z, '.');
    SplitJoin([x, y, z], '.');
  }

  /** The pieces of a version, as written. */
  function Written(x: string, y: string, z: string, pre: Option<string>, build: Option<string>): string {
    x + "." + y + "." + z + (if pre.Some? then "-" + pre.value else "") + (if build.Some? then "+" + build.value else "")
  }

  /** And nothing else parses: an accepted version is written from such pieces. */
  lemma ParsedIsWritten(version: string) returns (x: string, y: string, z: string, pre: Option<string>, build: Option<string>)
    requires ParseSemver(version).Some?
    ensures IsDigits(x) && IsDigits(y) && IsDigits(z)
    ensures (pre.Some? ==> IsIdentifierChars(pre.value)) && (build.Some? ==> IsIdentifierChars(build.value))
    ensures version == Written(x, y, z, pre, build)
  {
    hide ValueOf, Split, Join;
    var main := Before(version, '+');
    build := AfterMark(version, '+');
    pre := AfterMark(main, '-');
    var core := Before(main, '-');
    var parts := Split(core, '.');
    x, y, z := parts[0], parts[1], parts[2];
    MarkCuts(version, '+');
    MarkCuts(main, '-');
    JoinSplit(core, '.');
    assert parts == [x, y, z];
    JoinThree(x, y, z, '.');
  }

  lemma MarkCuts(s: string, mark: char)
    ensures s == Before(s, mark) + (if AfterMark(s, mark).Some? then [mark] + AfterMark(s, mark).value else "")
  {
    var parts := Split(s, mark);
    JoinSplit(s, mark);
    if |parts| > 1 {
      assert s == parts[0] + [mark] + Join(parts[1..], mark);
    }
  }

  lemma CutMark(head: string, tail: Option<string>, mark: char, s: string)
    requires mark !in head && s == head + (if tail.Some? then [mark] + tail.value else "")
    ensures Before(s, mark) == head && AfterMark(s, mark) == tail
  {
    if tail.Some? {
      assert s == head + [mark] + tail.value;
      SplitAt(head, tail.value, mark);
      assert s[|head| + 1..] == tail.value;
    } else {
      assert s == head;
      SplitPlain(head, mark);
    }
  }

  /** Numeric identifiers compare as numbers and below all others, which compare as text. */
  function ComparePreIdentifier(a: string, b: string): int {
    if IsDigits(a) && IsDigits(b) then ValueOf(a, 10) - ValueOf(b, 10)
    else if IsDigits(a) then -1
    else if IsDigits(b) then 1
    else CompareText(a, b)
  }

  function CompareCore(a: seq<nat>, b: seq<nat>): int
    requires |a| == |b|
  {
    if a == [] then 0
    else if a[0] != b[0] then a[0] - b[0]
    else CompareCore(a[1..], b[1..])
  }

  /** Identifier by identifier; a shorter list with an equal start comes first. */
  function ComparePre(a: seq<string>, b: seq<string>): int {
    if a == [] || b == [] then |a| - |b|
    else if ComparePreIdentifier(a[0], b[0]) != 0 then ComparePreIdentifier(a[0], b[0])
    else ComparePre(a[1..], b[1..])
  }

  /** A release outranks every prerelease of its core. */
  function Precedence(a: ParsedSemver, b: ParsedSemver): int
    requires |a.core| == |b.core| == 3
  {
    if CompareCore(a.core, b.core) != 0 then CompareCore(a.core, b.core)
    else if a.pre == [] && b.pre == [] then 0
    else if a.pre == [] then 1
    else if b.pre == [] then -1
    else ComparePre(a.pre, b.pre)
  }

  datatype Comparison = Order(value: int) | NotASemver(version: string)

  /** The loops with early return; an unparseable input is an error, the first one first. */
  method CompareSemver(a: string, b: string) returns (r: Comparison)
    ensures ParseSemver(a).None? ==> r == NotASemver(a)
    ensures ParseSemver(a).Some? && ParseSemver(b).None? ==> r == NotASemver(b)
    ensures ParseSemver(a).Some? && ParseSemver(b).Some? ==>
      r == Order(Precedence(ParseSemver(a).value, ParseSemver(b).value))
  {
    hide ParseSemver, ComparePreIdentifier;
    var pa, pb := ParseSemver(a), ParseSemver(b);
    if pa.None? {
      return NotASemver(a);
    }
    if pb.None? {
      return NotASemver(b);
    }
    var x, y := pa.value, pb.value;
    for i := 0 to 3
      invariant CompareCore(x.core, y.core) == CompareCore(x.core[i..], y.core[i..])
    {
      assert x.core[i..][1..] == x.core[i + 1..] && y.core[i..][1..] == y.core[i + 1..];
      var diff := x.core[i] as int - y.core[i] as int;
      if diff != 0 {
        return Order(diff);
      }
    }
    if x.pre == [] && y.pre == [] {
      return Order(0);
    }
    if x.pre == [] {
      return Order(1);
    }
    if y.pre == [] {
      return Order(-1);
    }
    var shared := if |x.pre| <= |y.pre| then |x.pre| else |y.pre|;
    for i := 0 to shared
      invariant ComparePre(x.pre, y.pre) == ComparePre(x.pre[i..], y.pre[i..])
    {
      assert x.pre[i..][1..] == x.pre[i + 1..] && y.pre[i..][1..] == y.pre[i + 1..];
      var diff := ComparePreIdentifier(x.pre[i], y.pre[i]);
      if diff != 0 {
        return Order(diff);
      }
    }
    return Order(|x.pre| - |y.pre|);
  }

  // ---------- a total preorder ----------

  lemma {:induction false} CoreFlips(a: seq<nat>, b: seq<nat>)
    requires |a| == |b|
    ensures CompareCore(a, b) == -CompareCore(b, a)
    ensures CompareCore(a, b) == 0 <==> a == b
  {
    if a != [] && a[0] == b[0] {
      CoreFlips(a[1..], b[1..]);
      assert a == [a[0]] + a[1..] && b == [b[0]] + b[1..];
    }
  }

  lemma {:induction false} CoreTransitive(a: seq<nat>, b: seq<nat>, c: seq<nat>)
    requires |a| == |b| == |c| && CompareCore(a, b) <= 0 && CompareCore(b, c) <= 0
    ensures CompareCore(a, c) <= 0
    ensures CompareCore(a, b) < 0 || CompareCore(b, c) < 0 ==> CompareCore(a, c) < 0
  {
    if a != [] && a[0] == b[0] && b[0] == c[0] {
      CoreTransitive(a[1..], b[1..], c[1..]);
    }
  }

  lemma IdentifierFlips(a: string, b: string)
    ensures ComparePreIdentifier(a, b) == -ComparePreIdentifier(b, a)
  {
    TextFlips(a, b);
  }

  lemma IdentifierTransitive(a: string, b: string, c: string)
    requires ComparePreIdentifier(a, b) <= 0 && ComparePreIdentifier(b, c) <= 0
    ensures ComparePreIdentifier(a, c) <= 0
    ensures ComparePreIdentifier(a, b) < 0 || ComparePreIdentifier(b, c) < 0 ==> ComparePreIdentifier(a, c) < 0
  {
    if !IsDigits(a) && !IsDigits(b) && !IsDigits(c) {
      TextTransitive(a, b, c);
    }
  }

  lemma {:induction false} PreFlips(a: seq<string>, b: seq<string>)
    ensures ComparePre(a, b) == -ComparePre(b, a)
  {
    if a != [] && b != [] {
      IdentifierFlips(a[0], b[0]);
      PreFlips(a[1..], b[1..]);
    }
  }

  lemma {:induction false} PreTransitive(a: seq<string>, b: seq<string>, c: seq<string>)
    requires ComparePre(a, b) <= 0 && ComparePre(b, c) <= 0
    ensures ComparePre(a, c) <= 0
    ensures ComparePre(a, b) < 0 || ComparePre(b, c) < 0 ==> ComparePre(a, c) < 0
  {
    if a != [] && b != [] && c != [] {
      IdentifierTransitive(a[0], b[0], c[0]);
      if ComparePreIdentifier(a[0], b[0]) == 0 && ComparePreIdentifier(b[0], c[0]) == 0 {
        IdentifierFlips(a[0], b[0]);
        IdentifierFlips(b[0], c[0]);
        IdentifierTransitive(c[0], b[0], a[0]);
        IdentifierFlips(a[0], c[0]);
        PreTransitive(a[1..], b[1..], c[1..]);
      }
    }
  }

  /** Swapping the arguments negates the result; in particular every pair is comparable. */
  lemma PrecedenceFlips(a: ParsedSemver, b: ParsedSemver)
    requires |a.core| == |b.core| == 3
    ensures Precedence(a, b) == -Precedence(b, a)
  {
    CoreFlips(a.core, b.core);
    PreFlips(a.pre, b.pre);
  }

  /** Precedence is transitive, and strict as soon as one step is. */
  lemma PrecedenceTransitive(a: ParsedSemver, b: ParsedSemver, c: ParsedSemver)
    requires |a.core| == |b.core| == |c.core| == 3
    requires Precedence(a, b) <= 0 && Precedence(b, c) <= 0
    ensures Precedence(a, c) <= 0
    ensures Precedence(a, b) < 0 || Precedence(b, c) < 0 ==> Precedence(a, c) < 0
  {
    CoreTransitive(a.core, b.core, c.core);
    CoreFlips(a.core, b.core);
    CoreFlips(b.core, c.core);
    CoreFlips(a.core, c.core);
    if a.core == b.core == c.core && a.pre != [] && b.pre != [] && c.pre != [] {
      PreTransitive(a.pre, b.pre, c.pre);
    }
  }

  /** Every prerelease lies strictly below its release. */
  lemma PrereleaseBelowRelease(core: seq<nat>, pre: seq<string>)
    requires |core| == 3 && pre != []
    ensures Precedence(ParsedSemver(core, pre), ParsedSemver(core, [])) < 0
  {
    CoreFlips(core, core);
  }

  /** The leftmost differing core number decides, whatever the prereleases. */
  lemma CoreDecides(a: ParsedSemver, b: ParsedSemver, k: nat)
    requires |a.core| == |b.core| == 3 && k < 3 && a.core[..k] == b.core[..k] && a.core[k] < b.core[k]
    ensures Precedence(a, b) < 0
  {
    CoreSkips(a.core, b.core, k);
  }

  lemma {:induction false} CoreSkips(a: seq<nat>, b: seq<nat>, k: nat)
    requires |a| == |b| && k < |a| && a[..k] == b[..k]
    ensures a[k] < b[k] ==> CompareCore(a, b) < 0
  {
    if k > 0 {
      assert a[0] == a[..k][0] == b[..k][0] == b[0];
      assert a[1..][..k - 1] == a[..k][1..] && b[1..][..k - 1] == b[..k][1..];
      CoreSkips(a[1..], b[1..], k - 1);
    }
  }

  /** So does the leftmost differing identifier: numbers by value and below all text, text by
      code point; and a longer list outranks its own beginning. */
  lemma IdentifierDecides(core: seq<nat>, shared: seq<string>, a: string, x: seq<string>, b: string, y: seq<string>)
    requires |core| == 3
    ensures var below := Precedence(ParsedSemver(core, shared + [a] + x), ParsedSemver(core, shared + [b] + y)) < 0;
      && (IsDigits(a) && IsDigits(b) && ValueOf(a, 10) < ValueOf(b, 10) ==> below)
      && (IsDigits(a) && !IsDigits(b) ==> below)
      && (!IsDigits(a) && !IsDigits(b) && CompareText(a, b) < 0 ==> below)
    ensures shared != [] ==> Precedence(ParsedSemver(core, shared), ParsedSemver(core, shared + [a] + x)) < 0
  {
    CoreFlips(core, core);
    SharedSkips(shared, [a] + x, [b] + y);
    SharedSkips(shared, [], [a] + x);
    assert shared + [a] + x == shared + ([a] + x) && shared + [b] + y == shared + ([b] + y);
    assert shared + [] == shared;
  }

  lemma {:induction false} SharedSkips(shared: seq<string>, x: seq<string>, y: seq<string>)
    ensures ComparePre(shared + x, shared + y) == ComparePre(x, y)
  {
    if shared == [] {
      assert shared + x == x && shared + y == y;
    } else {
      IdentifierFlips(shared[0], shared[0]);
      assert (shared + x)[1..] == shared[1..] + x && (shared + y)[1..] == shared[1..] + y;
      SharedSkips(shared[1..], x, y);
    }
  }

  /** What an identifier means for precedence. */
  datatype Key = Numeric(value: nat) | Alphanumeric(text: string)

  function KeyOf(s: string): Key {
    if IsDigits(s) then Numeric(ValueOf(s, 10)) else Alphanumeric(s)
  }

  function KeysOf(pre: seq<string>): (ks: seq<Key>)
    ensures |ks| == |pre|
  {
    if pre == [] then [] else [KeyOf(pre[0])] + KeysOf(pre[1..])
  }

  lemma {:induction false} PreZero(a: seq<string>, b: seq<string>)
    ensures ComparePre(a, b) == 0 <==> KeysOf(a) == KeysOf(b)
  {
    if a != [] && b != [] {
      TextZeroIsEqual(a[0], b[0]);
      PreZero(a[1..], b[1..]);
      assert KeysOf(a)[0] == KeyOf(a[0]) && KeysOf(a)[1..] == KeysOf(a[1..]);
      assert KeysOf(b)[0] == KeyOf(b[0]) && KeysOf(b)[1..] == KeysOf(b[1..]);
    }
  }

  /** Two versions are equal in precedence exactly when their cores and the meanings of their
      prerelease identifiers agree: leading zeros and build metadata do not count. */
  lemma EqualPrecedence(a: ParsedSemver, b: ParsedSemver)
    requires |a.core| == |b.core| == 3
    ensures Precedence(a, b) == 0 <==> a.core == b.core && KeysOf(a.pre) == KeysOf(b.pre)
  {
    CoreFlips(a.core, b.core);
    PreZero(a.pre, b.pre);
  }
}
