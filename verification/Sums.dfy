/** Sums over finite maps, and sizes of sets. */
module Sums {

  ghost function Sum(weights: map<string, nat>): nat
    decreases |weights|
  {
    if weights == map[] then 0
    else
      var k :| k in weights;
      weights[k] + Sum(weights - {k})
  }

  /** Any key may be taken out first. */
  lemma {:induction false} SumTake(weights: map<string, nat>, k: string)
    requires k in weights
    ensures Sum(weights) == weights[k] + Sum(weights - {k})
    decreases |weights|
  {
    var first :| first in weights && Sum(weights) == weights[first] + Sum(weights - {first});
    if first != k {
      SumTake(weights - {first}, k);
      SumTake(weights - {k}, first);
      assert weights - {first} - {k} == weights - {k} - {first};
    }
  }

  lemma SumPut(weights: map<string, nat>, k: string, w: nat)
    requires k !in weights
    ensures Sum(weights[k := w]) == Sum(weights) + w
  {
    SumTake(weights[k := w], k);
    assert weights[k := w] - {k} == weights;
  }

  lemma {:induction false} SumMonotone(small: map<string, nat>, large: map<string, nat>)
    requires forall k :: k in small ==> k in large && small[k] <= large[k]
    ensures Sum(small) <= Sum(large)
    decreases |small|
  {
    if small != map[] {
      var k :| k in small;
      SumTake(small, k);
      SumTake(large, k);
      SumMonotone(small - {k}, large - {k});
    }
  }

  /** Weights that exceed their base by at most 27 each. */
  lemma {:induction false} SumSlack(weights: map<string, nat>, base: map<string, nat>)
    requires weights.Keys == base.Keys
    requires forall k :: k in weights ==> weights[k] <= base[k] + 27
    ensures Sum(weights) <= Sum(base) + 27 * |weights|
    decreases |weights|
  {
    if weights != map[] {
      var k :| k in weights;
      SumTake(weights, k);
      SumTake(base, k);
      SumSlack(weights - {k}, base - {k});
    }
  }

  lemma {:induction false} SubsetSize<T>(small: set<T>, large: set<T>)
    requires small <= large
    ensures |small| <= |large|
  {
    if small != {} {
      var x :| x in small;
      SubsetSize(small - {x}, large - {x});
    }
  }
}
