/** Readings of a caller-supplied clock, in the order in which they were taken. */
module Clocks {

  /** Time never steps back. */
  ghost predicate Forward(readings: seq<real>) {
    forall i, j :: 0 <= i < j < |readings| ==> readings[i] <= readings[j]
  }

  /** `now` is no earlier than any reading. */
  ghost predicate NotBefore(readings: seq<real>, now: real) {
    forall i :: 0 <= i < |readings| ==> readings[i] <= now
  }

  /** Reading `j` lies strictly above an earlier and a later one. */
  ghost predicate IsPeak(readings: seq<real>, i: nat, j: nat, k: nat) {
    i < j < k < |readings| && readings[i] < readings[j] && readings[k] < readings[j]
  }

  /** The clock may step back at first, but once it has moved forward it never does again. */
  ghost predicate NoPeak(readings: seq<real>) {
    forall i: nat, j: nat, k: nat :: !IsPeak(readings, i, j, k)
  }

  /** It is enough that no reading is below the one before it. */
  lemma {:induction false} ForwardExactly(readings: seq<real>)
    ensures Forward(readings) <==> forall i :: 0 < i < |readings| ==> readings[i - 1] <= readings[i]
  {
    if readings != [] && forall i :: 0 < i < |readings| ==> readings[i - 1] <= readings[i] {
      var n := |readings| - 1;
      var before := readings[..n];
      forall i | 0 < i < n ensures before[i - 1] <= before[i] {
        assert readings[i - 1] <= readings[i];
      }
      ForwardExactly(before);
      assert n > 0 ==> readings[n - 1] <= readings[n];
      forall i, j | 0 <= i < j < |readings| ensures readings[i] <= readings[j] {
        assert before[i] == readings[i];
        if j < n {
          assert before[j] == readings[j];
        } else if i < n - 1 {
          assert before[i] <= before[n - 1];
        }
      }
    }
  }

  lemma ForwardHasNoPeak(readings: seq<real>)
    requires Forward(readings)
    ensures NoPeak(readings)
  {
  }

  lemma PrefixHasNoPeak(readings: seq<real>, k: nat)
    requires NoPeak(readings) && k <= |readings|
    ensures NoPeak(readings[..k])
  {
    forall h: nat, i: nat, j: nat ensures !IsPeak(readings[..k], h, i, j) {
      assert !IsPeak(readings, h, i, j);
    }
  }
}
