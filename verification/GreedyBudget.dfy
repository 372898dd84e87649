/** The arithmetic of the greedy budget allocation: how many units of each
    load, in order, fit into a total. */
module GreedyBudget {

  /** `count` samples that cost `unit` milliseconds each. */
  datatype Load = Load(count: int, unit: int)

  /** `n * unit`, as a repeated sum; see `TimesIsProduct`. */
  function Times(n: int, unit: int): int
    decreases n
  {
    if n <= 0 then 0 else Times(n - 1, unit) + unit
  }

  lemma {:induction false} TimesIsProduct(n: nat, unit: int)
    ensures Times(n, unit) == n * unit
  {
    if n > 0 {
      TimesIsProduct(n - 1, unit);
      assert n * unit == (n - 1) * unit + unit;
    }
  }

  lemma {:induction false} TimesMonotone(m: int, n: int, unit: nat)
    requires m <= n
    ensures 0 <= Times(m, unit) <= Times(n, unit)
    decreases n
  {
    if n > 0 {
      TimesMonotone(if m == n then m - 1 else m, n - 1, unit);
    }
  }

  predicate Positive(loads: seq<Load>) {
    forall i :: 0 <= i < |loads| ==> loads[i].count >= 1 && loads[i].unit >= 1
  }

  function Cost(loads: seq<Load>): int {
    if loads == [] then 0 else Times(loads[0].count, loads[0].unit) + Cost(loads[1..])
  }

  function Samples(loads: seq<Load>): int {
    if loads == [] then 0 else loads[0].count + Samples(loads[1..])
  }

  /** `got` is `want` with the largest count in 1..want.count that fits into
      what is left. */
  predicate LargestFit(want: Load, got: Load, left: int) {
    && got.unit == want.unit
    && 1 <= got.count <= want.count
    && Times(got.count, want.unit) <= left
    && (got.count < want.count ==> Times(got.count + 1, want.unit) > left)
  }

  /** With `left` to spend, `out` gives every load of `wanted` in turn its
      largest fitting count, and stops at the first load not one sample of
      which fits any more. */
  predicate GreedyFill(wanted: seq<Load>, out: seq<Load>, left: int) {
    if out == [] then
      wanted == [] || wanted[0].unit > left
    else
      && wanted != []
      && LargestFit(wanted[0], out[0], left)
      && GreedyFill(wanted[1..], out[1..], left - Times(out[0].count, out[0].unit))
  }

  /** `k` units fit into `total` exactly when `k` is at most the rounded-down
      quotient. */
  lemma FitsQuotient(k: nat, unit: int, total: nat)
    requires unit > 0
    ensures Times(k, unit) <= total <==> k <= total / unit
  {
    var q := total / unit;
    TimesIsProduct(q, unit);
    TimesIsProduct(q + 1, unit);
    assert q * unit <= total < (q + 1) * unit;
    if k <= q {
      TimesMonotone(k, q, unit);
    } else {
      TimesMonotone(q + 1, k, unit);
    }
  }

  /** The count the source computes, the minimum of the wanted count and the
      quotient, is the largest fitting one. */
  lemma QuotientIsLargestFit(want: Load, left: int)
    requires want.count >= 1 && want.unit >= 1 && want.unit <= left
    ensures LargestFit(want, want.(count := if want.count > left / want.unit then left / want.unit else want.count), left)
  {
    var q := left / want.unit;
    FitsQuotient(1, want.unit, left);
    FitsQuotient(q, want.unit, left);
    FitsQuotient(q + 1, want.unit, left);
    FitsQuotient(want.count, want.unit, left);
  }

  lemma LargestFitUnique(want: Load, a: Load, b: Load, left: int)
    requires want.unit >= 1
    requires LargestFit(want, a, left) && LargestFit(want, b, left)
    ensures a == b
  {
    if a.count < b.count {
      TimesMonotone(a.count + 1, b.count, want.unit);
    } else if b.count < a.count {
      TimesMonotone(b.count + 1, a.count, want.unit);
    }
  }

  /** There is at most one greedy allocation. */
  lemma {:induction false} GreedyFillUnique(wanted: seq<Load>, a: seq<Load>, b: seq<Load>, left: int)
    requires Positive(wanted)
    requires GreedyFill(wanted, a, left) && GreedyFill(wanted, b, left)
    ensures a == b
  {
    if a != [] && b != [] {
      LargestFitUnique(wanted[0], a[0], b[0], left);
      GreedyFillUnique(wanted[1..], a[1..], b[1..], left - Times(a[0].count, a[0].unit));
      assert a == [a[0]] + a[1..] && b == [b[0]] + b[1..];
    } else if a != [] {
      TimesMonotone(1, a[0].count, wanted[0].unit);
    } else if b != [] {
      TimesMonotone(1, b[0].count, wanted[0].unit);
    }
  }

  /** What a greedy allocation gives out is a demand that fits: allocating it
      again gives it back. */
  lemma {:induction false} GreedyFillFixedPoint(wanted: seq<Load>, out: seq<Load>, left: int)
    requires GreedyFill(wanted, out, left)
    ensures GreedyFill(out, out, left)
  {
    if out != [] {
      GreedyFillFixedPoint(wanted[1..], out[1..], left - Times(out[0].count, out[0].unit));
    }
  }

  lemma {:induction false} GreedyCostWithin(wanted: seq<Load>, out: seq<Load>, left: nat)
    requires Positive(wanted)
    requires GreedyFill(wanted, out, left)
    ensures 0 <= Cost(out) <= left
    ensures out != [] ==> Cost(out) >= 1
  {
    if out != [] {
      TimesMonotone(1, out[0].count, wanted[0].unit);
      GreedyCostWithin(wanted[1..], out[1..], left - Times(out[0].count, out[0].unit));
    }
  }

  lemma {:induction false} SamplesWithin(loads: seq<Load>, most: nat)
    requires forall i :: 0 <= i < |loads| ==> 1 <= loads[i].count <= most
    ensures |loads| <= Samples(loads) <= Times(|loads|, most)
  {
    if loads != [] {
      SamplesWithin(loads[1..], most);
    }
  }
}
