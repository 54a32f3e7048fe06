/** Adding up durations without overflow (`saturatingDurationSum`, and `completeTiming`, which sums
    the parts of a request the same way and never reports a total below them). */
module Durations {
  const MAX_DURATION: int := 0x7FFF_FFFF_FFFF_FFFF

  function Positive(d: int): int { if d > 0 then d else 0 }

  function Sum(ds: seq<int>): (s: int)
    ensures s >= 0
  {
    if ds == [] then 0 else Sum(ds[..|ds| - 1]) + Positive(ds[|ds| - 1])
  }

  function Min(a: int, b: int): int { if a <= b then a else b }

  lemma {:induction false} SumOfPrefix(ds: seq<int>, n: nat)
    requires n <= |ds|
    ensures Sum(ds[..n]) <= Sum(ds)
    decreases |ds|
  {
    if n < |ds| {
      var init := ds[..|ds| - 1];
      SumOfPrefix(init, n);
      assert init[..n] == ds[..n];
    } else {
      assert ds[..n] == ds;
    }
  }

  /** The sum of the positive durations, capped at the largest duration. */
  method SaturatingSum(durations: seq<int>) returns (total: int)
    requires forall i :: 0 <= i < |durations| ==> durations[i] <= MAX_DURATION
    ensures total == Min(Sum(durations), MAX_DURATION)
  {
    total := 0;
    var i := 0;
    while i < |durations|
      invariant 0 <= i <= |durations| && total == Sum(durations[..i]) && 0 <= total <= MAX_DURATION
    {
      var d := durations[i];
      assert durations[..i + 1][..i] == durations[..i];
      if d > 0 {
        if d > MAX_DURATION - total {
          SumOfPrefix(durations, i + 1);
          return MAX_DURATION;
        }
        total := total + d;
      }
      i := i + 1;
    }
    assert durations[..i] == durations;
  }

  /** The total reported for a request covers the (capped) sum of its parts and is otherwise kept. */
  method CompleteTiming(queue: int, attempt: int, reconnect: int, total: int) returns (completed: int)
    requires queue <= MAX_DURATION && attempt <= MAX_DURATION && reconnect <= MAX_DURATION && total <= MAX_DURATION
    ensures total <= completed <= MAX_DURATION
    ensures Min(Positive(queue) + Positive(attempt) + Positive(reconnect), MAX_DURATION) <= completed
    ensures completed == total || completed == Min(Positive(queue) + Positive(attempt) + Positive(reconnect), MAX_DURATION)
  {
    var parts := SaturatingSum([queue, attempt, reconnect]);
    var ds := [queue, attempt, reconnect];
    assert ds[..2] == [queue, attempt] && ds[..2][..1] == [queue] && ds[..2][..1][..0] == [];
    assert Sum([queue]) == Positive(queue);
    assert Sum([queue, attempt]) == Positive(queue) + Positive(attempt);
    completed := if total < parts then parts else total;
  }
}
