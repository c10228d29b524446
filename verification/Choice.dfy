/** Random draws as arbitrary choice: whatever holds of these results holds for every seed. */
module Choice {
  import opened Common
  import opened Budget

  method AnyNat() returns (n: nat)
  {
    var k: int := *;
    n := if k < 0 then 0 else k;
  }

  /** A uniform draw in [lo, hi]. */
  method RangeIncl(lo: nat, hi: nat) returns (k: nat)
    requires lo <= hi
    ensures lo <= k <= hi
  {
    k := *;
    if k < lo || k > hi {
      k := lo;
    }
  }

  /** The index a draw falls on: the weights before it add up to at most the draw, with its own to more. */
  method IndexAt(weights: seq<nat>, draw: nat) returns (i: nat)
    requires draw < Sum(weights)
    ensures i < |weights| && Sum(weights[..i]) <= draw < Sum(weights[..i + 1])
  {
    var pick: nat := draw;
    i := 0;
    assert weights[0..] == weights;
    while pick >= weights[i]
      invariant 0 <= i < |weights|
      invariant pick < Sum(weights[i..])
      invariant draw == Sum(weights[..i]) + pick
      decreases |weights| - i
    {
      assert weights[i..][0] == weights[i] && weights[i..][1..] == weights[i + 1..];
      SumSnoc(weights, i);
      pick := pick - weights[i];
      i := i + 1;
    }
    SumSnoc(weights, i);
  }

  lemma SumSnoc(weights: seq<nat>, i: nat)
    requires i < |weights|
    ensures Sum(weights[..i + 1]) == Sum(weights[..i]) + weights[i]
  {
    assert weights[..i + 1] == weights[..i] + [weights[i]];
    SumConcat(weights[..i], [weights[i]]);
    assert Sum([weights[i]]) == weights[i] by { assert [weights[i]][1..] == []; }
  }

  lemma {:induction false} SumConcat(a: seq<nat>, b: seq<nat>)
    ensures Sum(a + b) == Sum(a) + Sum(b)
    decreases |a|
  {
    if a == [] {
      assert a + b == b;
    } else {
      assert (a + b)[1..] == a[1..] + b;
      SumConcat(a[1..], b);
    }
  }

  /** Pick an index by cumulative weight: never one of weight zero, and none only when all weights are zero. */
  method WeightedIndex(weights: seq<nat>) returns (r: Option<nat>)
    ensures r.None? <==> Sum(weights) == 0
    ensures r.Some? ==> r.value < |weights| && weights[r.value] > 0
  {
    var total := Sum(weights);
    if total == 0 {
      return None;
    }
    var draw := RangeIncl(0, total - 1);
    var i := IndexAt(weights, draw);
    SumSnoc(weights, i);
    return Some(i);
  }
}
