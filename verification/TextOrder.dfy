/** JavaScript's `<` on strings: lexicographic order by code unit. */
module TextOrder {

  /** `a < b ? -1 : a > b ? 1 : 0` */
  function CompareText(a: string, b: string): int {
    if a == "" && b == "" then 0
    else if a == "" then -1
    else if b == "" then 1
    else if a[0] < b[0] then -1
    else if a[0] > b[0] then 1
    else CompareText(a[1..], b[1..])
  }

  /** The texts agree up to `k`, where the first ends or has the smaller character. */
  ghost predicate ComesFirst(a: string, b: string, k: nat) {
    k <= |a| && k < |b| && a[..k] == b[..k] && (k == |a| || a[k] < b[k])
  }

  /** Negative exactly when the texts first differ at a smaller character, or the first is a
      proper prefix of the second. */
  lemma {:induction false} TextOrderExactly(a: string, b: string)
    ensures CompareText(a, b) < 0 <==> exists k: nat :: ComesFirst(a, b, k)
  {
    if a == "" && b != "" {
      assert ComesFirst(a, b, 0);
    } else if a != "" && b != "" && a[0] == b[0] {
      var x, y := a[1..], b[1..];
      TextOrderExactly(x, y);
      assert a == [a[0]] + x && b == [b[0]] + y;
      if k: nat :| ComesFirst(x, y, k) {
        assert a[..k + 1] == [a[0]] + x[..k] && b[..k + 1] == [b[0]] + y[..k];
        assert ComesFirst(a, b, k + 1);
      }
      if k: nat :| ComesFirst(a, b, k) {
        assert k > 0 && a[..k][1..] == x[..k - 1] && b[..k][1..] == y[..k - 1];
        assert ComesFirst(x, y, k - 1);
      }
    } else if a != "" && b != "" && a[0] < b[0] {
      assert ComesFirst(a, b, 0);
    } else if k: nat :| ComesFirst(a, b, k) {
      assert k > 0 ==> a[..k][0] == b[..k][0];
    }
  }

  lemma {:induction false} TextZeroIsEqual(a: string, b: string)
    ensures CompareText(a, b) == 0 <==> a == b
  {
    if a != "" && b != "" && a[0] == b[0] {
      TextZeroIsEqual(a[1..], b[1..]);
      assert a == [a[0]] + a[1..] && b == [b[0]] + b[1..];
    }
  }

  lemma {:induction false} TextFlips(a: string, b: string)
    ensures CompareText(a, b) == -CompareText(b, a)
    ensures -1 <= CompareText(a, b) <= 1
  {
    if a != "" && b != "" && a[0] == b[0] {
      TextFlips(a[1..], b[1..]);
    }
  }

  /** `<=` then `<=` is `<=`, and strict when either step is. */
  lemma {:induction false} TextTransitive(a: string, b: string, c: string)
    requires CompareText(a, b) <= 0 && CompareText(b, c) <= 0
    ensures CompareText(a, c) <= 0
    ensures CompareText(a, b) < 0 || CompareText(b, c) < 0 ==> CompareText(a, c) < 0
  {
    if a != "" && b != "" && c != "" && a[0] == b[0] && b[0] == c[0] {
      TextTransitive(a[1..], b[1..], c[1..]);
    }
  }
}
