/** Scoring and suppression of reasons (packages/core/src/scoring, and the ordering of
    packages/core/src/schema/reason-codes.ts), over exact reals. */
module Scoring {
  import opened Wrappers
  import opened EnrichmentSchema
  import opened TextOrder

  datatype Reason = Reason(code: string, detail: string, weight: real, suppressed: bool)

  ghost predicate WeightsOk(reasons: seq<Reason>) {
    forall i :: 0 <= i < |reasons| ==> reasons[i].weight <= 1.0
  }

  function Factor(w: real): real {
    if w <= 0.0 then 1.0 else 1.0 - w
  }

  function Times(a: real, b: real): real {
    a * b
  }

  /** The probability that no reason holds: the product of the factors. */
  function Inverse(reasons: seq<Reason>): real {
    if reasons == [] then 1.0
    else Times(Inverse(reasons[..|reasons| - 1]), Factor(reasons[|reasons| - 1].weight))
  }

  const TEN_PLACES: real := 10000000000.0

  /** `Number(x.toFixed(10))`: the nearest multiple of 1e-10, ties upwards. */
  function RoundTenPlaces(x: real): real {
    (x * TEN_PLACES + 0.5).Floor as real / TEN_PLACES
  }

  function Score(reasons: seq<Reason>): real {
    RoundTenPlaces(1.0 - Inverse(reasons))
  }

  /** The loop multiplies into `inverse`, skipping weightless reasons. */
  method Aggregate(reasons: seq<Reason>) returns (score: real)
    ensures score == Score(reasons)
    ensures WeightsOk(reasons) ==> 0.0 <= score <= 1.0
    ensures -0.5 <= (score - Chance(reasons)) * 10000000000.0 <= 0.5
  {
    var inverse := 1.0;
    for k := 0 to |reasons|
      invariant inverse == Inverse(reasons[..k])
    {
      assert reasons[..k + 1][..k] == reasons[..k];
      var w := reasons[k].weight;
      if w > 0.0 {
        inverse := inverse * (1.0 - w);
      }
    }
    assert reasons[..|reasons|] == reasons;
    score := RoundTenPlaces(1.0 - inverse);
    ScoreIsNearest(reasons);
    if WeightsOk(reasons) {
      ScoreBounds(reasons);
    }
  }

  lemma NonNegativeProduct(x: real, y: real)
    requires 0.0 <= x && 0.0 <= y
    ensures x * y >= 0.0
  {
  }

  lemma UnitProduct(a: real, b: real)
    requires 0.0 <= a <= 1.0 && 0.0 <= b <= 1.0
    ensures 0.0 <= Times(a, b) <= a
  {
    NonNegativeProduct(a, b);
    NonNegativeProduct(a, 1.0 - b);
    assert a * b == a - a * (1.0 - b);
  }

  lemma TimesOne(a: real)
    ensures Times(a, 1.0) == a
  {
  }

  lemma Rotate(a: real, b: real, c: real)
    ensures Times(Times(a, b), c) == Times(Times(a, c), b)
  {
  }

  lemma {:induction false} InverseBounds(reasons: seq<Reason>)
    requires WeightsOk(reasons)
    ensures 0.0 <= Inverse(reasons) <= 1.0
  {
    hide Times;
    if reasons != [] {
      var rest, f := reasons[..|reasons| - 1], Factor(reasons[|reasons| - 1].weight);
      InverseBounds(rest);
      UnitProduct(Inverse(rest), f);
    }
  }

  lemma RoundMonotone(x: real, y: real)
    requires x <= y
    ensures RoundTenPlaces(x) <= RoundTenPlaces(y)
  {
    var a, b := (x * TEN_PLACES + 0.5).Floor, (y * TEN_PLACES + 0.5).Floor;
    assert a <= b;
  }

  lemma ScoreBounds(reasons: seq<Reason>)
    requires WeightsOk(reasons)
    ensures 0.0 <= Score(reasons) <= 1.0
  {
    InverseBounds(reasons);
    RoundMonotone(0.0, 1.0 - Inverse(reasons));
    RoundMonotone(1.0 - Inverse(reasons), 1.0);
    assert (0.0 * TEN_PLACES + 0.5).Floor == 0;
    assert (1.0 * TEN_PLACES + 0.5).Floor == 10000000000;
  }

  lemma InverseAppend(s: seq<Reason>, r: Reason)
    ensures Inverse(s + [r]) == Times(Inverse(s), Factor(r.weight))
  {
    hide Times;
    assert (s + [r])[..|s|] == s;
  }

  lemma {:induction false} InverseGrows(a: seq<Reason>, b: seq<Reason>)
    requires WeightsOk(a) && WeightsOk(b)
    ensures Inverse(a + b) <= Inverse(a)
  {
    hide Times;
    if b == [] {
      assert a + b == a;
    } else {
      var rest, last := b[..|b| - 1], b[|b| - 1];
      InverseGrows(a, rest);
      assert a + b == (a + rest) + [last];
      InverseAppend(a + rest, last);
      InverseBounds(a + rest);
      UnitProduct(Inverse(a + rest), Factor(last.weight));
    }
  }

  /** Every element can be taken out: the product splits off its factor. */
  lemma {:induction false} InverseRemove(a: seq<Reason>, k: nat)
    requires k < |a|
    ensures Inverse(a) == Times(Inverse(a[..k] + a[k + 1..]), Factor(a[k].weight))
  {
    hide Times;
    var n := |a| - 1;
    if k == n {
      assert a[..k] + a[k + 1..] == a[..n];
    } else {
      var rest, last := a[..n], a[n];
      InverseRemove(rest, k);
      var smaller := rest[..k] + rest[k + 1..];
      assert a[..k] + a[k + 1..] == smaller + [last];
      InverseAppend(smaller, last);
      Rotate(Inverse(smaller), Factor(a[k].weight), Factor(last.weight));
    }
  }

  /** The score does not depend on the order of the reasons. */
  lemma {:induction false} InversePermutes(a: seq<Reason>, b: seq<Reason>)
    requires multiset(a) == multiset(b)
    ensures Inverse(a) == Inverse(b)
    decreases |a|
  {
    hide Times;
    if a == [] {
      assert |multiset(b)| == 0;
      assert b == [];
    } else {
      var n := |a| - 1;
      assert a[n] in multiset(b);
      var k :| 0 <= k < |b| && b[k] == a[n];
      RemoveBoth(a, b, k);
      InversePermutes(a[..n], b[..k] + b[k + 1..]);
      InverseRemove(b, k);
    }
  }

  lemma RemoveBoth(a: seq<Reason>, b: seq<Reason>, k: nat)
    requires a != [] && k < |b| && b[k] == a[|a| - 1] && multiset(a) == multiset(b)
    ensures multiset(a[..|a| - 1]) == multiset(b[..k] + b[k + 1..])
  {
    RemoveOne(a, |a| - 1);
    RemoveOne(b, k);
    assert a[..|a| - 1] + a[|a|..] == a[..|a| - 1];
  }

  lemma RemoveOne(s: seq<Reason>, k: nat)
    requires k < |s|
    ensures multiset(s[..k] + s[k + 1..]) == multiset(s) - multiset{s[k]}
  {
    assert s == s[..k] + ([s[k]] + s[k + 1..]);
  }

  /** More reasons never lower the score. */
  lemma ScoreMonotone(a: seq<Reason>, b: seq<Reason>)
    requires WeightsOk(a) && WeightsOk(b)
    ensures Score(a) <= Score(a + b)
  {
    InverseGrows(a, b);
    RoundMonotone(1.0 - Inverse(a), 1.0 - Inverse(a + b));
  }

  /** Before rounding: the chance that some reason holds. */
  function Chance(reasons: seq<Reason>): real {
    1.0 - Inverse(reasons)
  }

  lemma {:induction false} InverseConcat(a: seq<Reason>, b: seq<Reason>)
    ensures Inverse(a + b) == Times(Inverse(a), Inverse(b))
  {
    hide Times;
    if b == [] {
      assert a + b == a;
      TimesOne(Inverse(a));
    } else {
      var rest, last := b[..|b| - 1], b[|b| - 1];
      InverseConcat(a, rest);
      assert a + b == (a + rest) + [last];
      InverseAppend(a + rest, last);
      Regroup(Inverse(a), Inverse(rest), Factor(last.weight));
    }
  }

  lemma Regroup(a: real, b: real, c: real)
    ensures Times(Times(a, b), c) == Times(a, Times(b, c))
  {
  }

  /** Probabilistic OR: a lone reason counts its weight, and two groups combine as
      independent events do. */
  lemma ProbabilisticOr(a: seq<Reason>, b: seq<Reason>, r: Reason)
    ensures Chance(a + b) == Chance(a) + Chance(b) - Chance(a) * Chance(b)
    ensures Chance([r]) == if r.weight > 0.0 then r.weight else 0.0
  {
    hide Times;
    InverseConcat(a, b);
    Either(Inverse(a), Inverse(b));
    assert [] + [r] == [r];
    InverseAppend([], r);
    TimesOne(Factor(r.weight));
    Commutes(1.0, Factor(r.weight));
  }

  lemma Either(x: real, y: real)
    ensures 1.0 - Times(x, y) == (1.0 - x) + (1.0 - y) - (1.0 - x) * (1.0 - y)
  {
  }

  lemma Commutes(x: real, y: real)
    ensures Times(x, y) == Times(y, x)
  {
  }

  // ---------- rounding ----------

  /** The score is the multiple of 1e-10 nearest to the chance. */
  lemma ScoreIsNearest(reasons: seq<Reason>)
    ensures Score(reasons) * 10000000000.0 == (Score(reasons) * 10000000000.0).Floor as real
    ensures -0.5 <= (Score(reasons) - Chance(reasons)) * 10000000000.0 <= 0.5
  {
    var x := Chance(reasons) * 10000000000.0 + 0.5;
    assert Score(reasons) * 10000000000.0 == x.Floor as real;
  }

  /** So a chance that is such a multiple is not changed. */
  lemma ExactScore(reasons: seq<Reason>, n: int)
    requires Chance(reasons) * 10000000000.0 == n as real
    ensures Score(reasons) == Chance(reasons)
  {
    assert (n as real + 0.5).Floor == n;
  }

  /** A lone reason whose weight has two decimals scores exactly that. */
  lemma LoneReason(r: Reason, hundredths: nat)
    requires r.weight == hundredths as real / 100.0
    ensures Score([r]) == r.weight
  {
    ProbabilisticOr([], [], r);
    ExactScore([r], hundredths * 100000000);
  }

  /** The documented example: 0.8 and 0.2 together score 0.84. */
  lemma TwoReasons(a: Reason, b: Reason)
    requires a.weight == 0.8 && b.weight == 0.2
    ensures Score([a, b]) == 0.84
  {
    assert [a] + [b] == [a, b];
    ProbabilisticOr([a], [b], a);
    ProbabilisticOr([a], [b], b);
    assert Chance([a, b]) == 0.8 + 0.2 - 0.8 * 0.2;
    ExactScore([a, b], 8400000000);
  }

  // ---------- suppression ----------

  /** A caller's suppression rule; without a host it applies everywhere. */
  datatype SuppressionRule = SuppressionRule(code: string, host: Option<string>)

  predicate Matches(rules: seq<SuppressionRule>, host: Option<string>, reason: Reason) {
    exists i :: 0 <= i < |rules| && rules[i].code == reason.code && (rules[i].host.None? || rules[i].host == host)
  }

  function Suppress(reason: Reason, rules: seq<SuppressionRule>, host: Option<string>): Reason {
    if Matches(rules, host, reason) then reason.(weight := 0.0, suppressed := true) else reason
  }

  function ApplySuppressions(reasons: seq<Reason>, rules: seq<SuppressionRule>, host: Option<string>): (r: seq<Reason>)
    ensures |r| == |reasons|
    ensures forall i :: 0 <= i < |r| ==> r[i].code == reasons[i].code && r[i].detail == reasons[i].detail
    ensures forall i :: 0 <= i < |r| ==> (Matches(rules, host, reasons[i]) ==> r[i].suppressed && r[i].weight == 0.0)
    ensures forall i :: 0 <= i < |r| ==> (!Matches(rules, host, reasons[i]) ==> r[i] == reasons[i])
  {
    if rules == [] then reasons
    else seq(|reasons|, i requires 0 <= i < |reasons| => Suppress(reasons[i], rules, host))
  }

  function Unmatched(reasons: seq<Reason>, rules: seq<SuppressionRule>, host: Option<string>): seq<Reason> {
    if reasons == [] then [] else
      var rest, last := Unmatched(reasons[..|reasons| - 1], rules, host), reasons[|reasons| - 1];
      if Matches(rules, host, last) then rest else rest + [last]
  }

  lemma {:induction false} SuppressedInverse(reasons: seq<Reason>, rules: seq<SuppressionRule>, host: Option<string>)
    ensures Inverse(ApplySuppressions(reasons, rules, host)) == Inverse(Unmatched(reasons, rules, host))
  {
    hide Times;
    if reasons != [] {
      var rest, last := reasons[..|reasons| - 1], reasons[|reasons| - 1];
      SuppressedInverse(rest, rules, host);
      var applied := ApplySuppressions(reasons, rules, host);
      assert applied == ApplySuppressions(rest, rules, host) + [Suppress(last, rules, host)];
      InverseAppend(ApplySuppressions(rest, rules, host), Suppress(last, rules, host));
      InverseAppend(Unmatched(rest, rules, host), last);
      TimesOne(Inverse(ApplySuppressions(rest, rules, host)));
    }
  }

  /** A suppressed reason stays listed, and the score is that of deleting it. */
  lemma SuppressingIsDeleting(reasons: seq<Reason>, rules: seq<SuppressionRule>, host: Option<string>)
    ensures Score(ApplySuppressions(reasons, rules, host)) == Score(Unmatched(reasons, rules, host))
  {
    SuppressedInverse(reasons, rules, host);
  }

  // ---------- order ----------

  /** `compareReasons`: heavier first, then by code. */
  predicate Before(a: Reason, b: Reason) {
    a.weight > b.weight || (a.weight == b.weight && CompareText(a.code, b.code) <= 0)
  }

  ghost predicate Sorted(s: seq<Reason>) {
    forall i, j :: 0 <= i < j < |s| ==> Before(s[i], s[j])
  }

  /** Stable insertion: after every element that may precede the newcomer. */
  function Insert(s: seq<Reason>, r: Reason): (t: seq<Reason>)
    ensures multiset(t) == multiset(s) + multiset{r}
  {
    if s == [] || Before(s[|s| - 1], r) then s + [r]
    else
      assert s == s[..|s| - 1] + [s[|s| - 1]];
      Insert(s[..|s| - 1], r) + [s[|s| - 1]]
  }

  lemma {:induction false} InsertSorts(s: seq<Reason>, r: Reason)
    requires Sorted(s)
    ensures Sorted(Insert(s, r))
  {
    if s == [] {
    } else if Before(s[|s| - 1], r) {
      forall i | 0 <= i < |s| ensures Before(s[i], r) {
        if i < |s| - 1 {
          BeforeTransitive(s[i], s[|s| - 1], r);
        }
      }
    } else {
      var last, inner := s[|s| - 1], Insert(s[..|s| - 1], r);
      InsertSorts(s[..|s| - 1], r);
      TextFlips(last.code, r.code);
      forall i | 0 <= i < |inner| ensures Before(inner[i], last) {
        assert inner[i] in multiset(inner);
        if inner[i] != r {
          assert inner[i] in multiset(s[..|s| - 1]);
          var j :| 0 <= j < |s| - 1 && s[j] == inner[i];
        }
      }
    }
  }

  lemma BeforeTransitive(a: Reason, b: Reason, c: Reason)
    requires Before(a, b) && Before(b, c)
    ensures Before(a, c)
  {
    if a.weight == b.weight && b.weight == c.weight {
      TextTransitive(a.code, b.code, c.code);
    }
  }

  /** The reasons of one weight and code, in order. */
  function Alike(reasons: seq<Reason>, weight: real, code: string): seq<Reason> {
    if reasons == [] then [] else
      var rest, last := Alike(reasons[..|reasons| - 1], weight, code), reasons[|reasons| - 1];
      if last.weight == weight && last.code == code then rest + [last] else rest
  }

  lemma AlikeSnoc(s: seq<Reason>, r: Reason, weight: real, code: string)
    ensures Alike(s + [r], weight, code) ==
      Alike(s, weight, code) + if r.weight == weight && r.code == code then [r] else []
  {
    assert (s + [r])[..|s|] == s;
  }

  lemma {:induction false} InsertIsStable(s: seq<Reason>, r: Reason, weight: real, code: string)
    ensures Alike(Insert(s, r), weight, code) ==
      Alike(s, weight, code) + if r.weight == weight && r.code == code then [r] else []
  {
    if s == [] || Before(s[|s| - 1], r) {
      AlikeSnoc(s, r, weight, code);
    } else {
      var rest, last := s[..|s| - 1], s[|s| - 1];
      InsertIsStable(rest, r, weight, code);
      AlikeSnoc(Insert(rest, r), last, weight, code);
      TextZeroIsEqual(last.code, r.code);
    }
  }

  /** Heavier first, then by code, and otherwise in the order given. */
  method SortReasons(reasons: seq<Reason>) returns (sorted: seq<Reason>)
    ensures multiset(sorted) == multiset(reasons) && Sorted(sorted)
    ensures forall i, j :: 0 <= i < j < |sorted| ==> sorted[i].weight >= sorted[j].weight
    ensures forall i, j :: 0 <= i < j < |sorted| && sorted[i].weight == sorted[j].weight ==>
      CompareText(sorted[i].code, sorted[j].code) <= 0
    ensures forall weight, code :: Alike(sorted, weight, code) == Alike(reasons, weight, code)
  {
    sorted := [];
    for k := 0 to |reasons|
      invariant multiset(sorted) == multiset(reasons[..k]) && Sorted(sorted)
      invariant forall weight, code :: Alike(sorted, weight, code) == Alike(reasons[..k], weight, code)
    {
      forall weight, code
        ensures Alike(Insert(sorted, reasons[k]), weight, code) == Alike(reasons[..k + 1], weight, code)
      {
        InsertIsStable(sorted, reasons[k], weight, code);
        assert reasons[..k + 1] == reasons[..k] + [reasons[k]];
        AlikeSnoc(reasons[..k], reasons[k], weight, code);
      }
      assert reasons[..k + 1] == reasons[..k] + [reasons[k]];
      InsertSorts(sorted, reasons[k]);
      sorted := Insert(sorted, reasons[k]);
    }
    assert reasons[..|reasons|] == reasons;
  }
}
