/** Counting the moments of a sorted sequence that fall into a window of time. */
module Windows {

  ghost predicate Sorted(times: seq<int>, now: int) {
    (forall i, j :: 0 <= i <= j < |times| ==> times[i] <= times[j]) && forall i :: 0 <= i < |times| ==> times[i] <= now
  }

  function CountIn(times: seq<int>, from: int, to: int): nat {
    if times == [] then 0
    else CountIn(times[..|times| - 1], from, to) + if from <= times[|times| - 1] <= to then 1 else 0
  }

  lemma {:induction false} CountedStretch(times: seq<int>, from: int, to: int, now: int) returns (i: nat, j: nat)
    requires Sorted(times, now) && CountIn(times, from, to) > 0
    ensures i <= j < |times| && from <= times[i] && times[j] <= to && CountIn(times, from, to) <= j - i + 1
  {
    var n := |times| - 1;
    if CountIn(times[..n], from, to) == 0 {
      i, j := n, n;
    } else {
      i, j := CountedStretch(times[..n], from, to, now);
      if from <= times[n] <= to {
        j := n;
      }
    }
  }

  lemma Quotient(d: int, x: int, span: nat)
    requires x > 0 && d * x <= span
    ensures d <= span / x
  {
    var q := span / x;
    assert span == q * x + span % x;
    assert d >= q + 1 ==> d * x >= (q + 1) * x;
    assert (q + 1) * x == q * x + x;
  }
}
