/**
 random_law: an index drawn with probability proportional to its weight.
 */
module Sampling {

  function Sum(law: seq<nat>): (t: nat) {
    if law == [] then 0 else Sum(law[..|law| - 1]) + law[|law| - 1]
  }

  lemma {:induction false} SumMonotone(law: seq<nat>, i: nat, j: nat)
    requires i <= j <= |law|
    ensures Sum(law[..i]) <= Sum(law[..j])
    decreases j
  {
    if i < j {
      SumMonotone(law, i, j - 1);
      PrefixSum(law, j - 1);
    }
  }

  lemma PrefixSum(law: seq<nat>, i: nat)
    requires i < |law|
    ensures Sum(law[..i + 1]) == Sum(law[..i]) + law[i]
  {
    assert law[..i + 1][..i] == law[..i];
  }

  // The draw val selects index i.
  predicate Selects(law: seq<nat>, val: nat, i: nat) {
    i < |law| && Sum(law[..i]) <= val < Sum(law[..i + 1])
  }

  // random_law, with the counter that random reads as an argument: two passes over the
  // weights, and a fallback return that is never reached.
  method RandomLaw(law: seq<nat>, clock: nat) returns (index: nat)
    requires Sum(law) > 0
    ensures Selects(law, clock % Sum(law), index) && law[index] > 0
  {
    index := 0;
    assert law[..0] == [] && law[..|law|] == law;
    var total := 0;
    for i := 0 to |law|
      invariant total == Sum(law[..i])
    {
      PrefixSum(law, i);
      total := total + law[i];
    }
    var val := clock % total;
    var sum := 0;
    for i := 0 to |law|
      invariant sum == Sum(law[..i]) && sum <= val
    {
      PrefixSum(law, i);
      sum := sum + law[i];
      if sum > val {
        return i;
      }
    }
    assert false;
  }

  lemma SelectedOnce(law: seq<nat>, val: nat, i: nat, j: nat)
    requires Selects(law, val, i) && Selects(law, val, j)
    ensures i == j
  {
    if i < j {
      SumMonotone(law, i + 1, j);
    } else if j < i {
      SumMonotone(law, j + 1, i);
    }
  }

  lemma {:induction false} EveryDrawSelects(law: seq<nat>, val: nat, n: nat) returns (i: nat)
    requires n <= |law| && val < Sum(law[..n])
    ensures Selects(law, val, i)
    decreases n
  {
    PrefixSum(law, n - 1);
    if val < Sum(law[..n - 1]) {
      i := EveryDrawSelects(law, val, n - 1);
    } else {
      i := n - 1;
    }
  }

  predicate Within(v: int, low: int, high: int) {
    low <= v < high
  }

  function Interval(low: int, high: int): set<int> {
    set v | low <= v < high && Within(v, low, high)
  }

  lemma {:induction false} IntervalSize(low: int, n: nat)
    ensures |Interval(low, low + n)| == n
  {
    if n > 0 {
      IntervalSize(low, n - 1);
      assert Interval(low, low + n) == Interval(low, low + (n - 1)) + {low + (n - 1)};
    } else {
      assert Interval(low, low) == {};
    }
  }

  // The draws below the total that select i.
  function DrawsOf(law: seq<nat>, i: nat): set<int> {
    set v | 0 <= v < Sum(law) && Selects(law, v, i)
  }

  // Of the draws below the total, exactly law[i] select i.
  lemma SamplesExactly(law: seq<nat>, i: nat)
    requires i < |law|
    ensures |DrawsOf(law, i)| == law[i]
  {
    PrefixSum(law, i);
    SumMonotone(law, i + 1, |law|);
    assert law[..|law|] == law;
    var a := Sum(law[..i]);
    assert forall v :: v in DrawsOf(law, i) <==> Within(v, a, a + law[i]);
    assert DrawsOf(law, i) == Interval(a, a + law[i]);
    IntervalSize(a, law[i]);
  }
}
