/** System failure-rate aggregation: the left fold the calculator performs over
    its component list, a right-recursive reference sum, and the facts that
    tie them together (empty list, non-negativity, concatenation, reordering). */
module FailureRate {
  import opened Components

  /** What one component adds to the system rate: its per-unit rate scaled by
      the environment factor, times the number of units. */
  function Contribution(c: Component, factor: real): (r: real)
    ensures c.failureRate >= 0.0 && factor >= 0.0 && c.quantity >= 0 ==> r >= 0.0
    ensures c.quantity == 0 || c.failureRate == 0.0 || factor == 0.0 ==> r == 0.0
  {
    var adjusted := c.failureRate * factor;
    assert c.failureRate >= 0.0 && factor >= 0.0 ==> adjusted >= 0.0;
    adjusted * (c.quantity as real)
  }

  predicate NonNegative(c: Component) {
    c.failureRate >= 0.0 && c.quantity >= 0
  }

  predicate AllNonNegative(cs: seq<Component>) {
    forall i :: 0 <= i < |cs| ==> NonNegative(cs[i])
  }

  /** The `reduce` callback applied left to right, starting from `acc`. */
  function FoldRates(acc: real, cs: seq<Component>, factor: real): (r: real)
    ensures cs == [] ==> r == acc
    ensures factor >= 0.0 && AllNonNegative(cs) ==> r >= acc
    decreases |cs|
  {
    if cs == [] then acc
    else FoldRates(acc + Contribution(cs[0], factor), cs[1..], factor)
  }

  /** Reference definition: the sum of all contributions, built from the right. */
  function SumRates(cs: seq<Component>, factor: real): real
    decreases |cs|
  {
    if cs == [] then 0.0 else Contribution(cs[0], factor) + SumRates(cs[1..], factor)
  }

  /** `calculateTotalFailureRate`: the fold started from 0. */
  function TotalFailureRate(cs: seq<Component>, factor: real): (r: real)
    ensures cs == [] ==> r == 0.0
    ensures factor >= 0.0 && AllNonNegative(cs) ==> r >= 0.0
    ensures r == SumRates(cs, factor)
  {
    FoldIsSum(0.0, cs, factor);
    FoldRates(0.0, cs, factor)
  }

  /** The left fold from any start value is that value plus the reference sum. */
  lemma {:induction false} FoldIsSum(acc: real, cs: seq<Component>, factor: real)
    ensures FoldRates(acc, cs, factor) == acc + SumRates(cs, factor)
    decreases |cs|
  {
    if cs != [] {
      FoldIsSum(acc + Contribution(cs[0], factor), cs[1..], factor);
    }
  }

  /** Folding over a concatenation folds the second part from where the first stopped. */
  lemma {:induction false} FoldAppend(acc: real, a: seq<Component>, b: seq<Component>, factor: real)
    ensures FoldRates(acc, a + b, factor) == FoldRates(FoldRates(acc, a, factor), b, factor)
    decreases |a|
  {
    if a == [] {
      assert a + b == b;
    } else {
      assert (a + b)[0] == a[0];
      assert (a + b)[1..] == a[1..] + b;
      FoldAppend(acc + Contribution(a[0], factor), a[1..], b, factor);
    }
  }

  /** The reference sum splits over concatenation. */
  lemma {:induction false} SumAppend(a: seq<Component>, b: seq<Component>, factor: real)
    ensures SumRates(a + b, factor) == SumRates(a, factor) + SumRates(b, factor)
    decreases |a|
  {
    if a == [] {
      assert a + b == b;
    } else {
      assert (a + b)[0] == a[0];
      assert (a + b)[1..] == a[1..] + b;
      SumAppend(a[1..], b, factor);
    }
  }

  /** The total over `a + b` is the total over `a` plus the total over `b`. */
  lemma TotalAppend(a: seq<Component>, b: seq<Component>, factor: real)
    ensures TotalFailureRate(a + b, factor) == TotalFailureRate(a, factor) + TotalFailureRate(b, factor)
  {
    SumAppend(a, b, factor);
  }

  /** Taking one component out of the middle of a list takes its contribution out of the sum. */
  lemma SumRemoveAt(b: seq<Component>, i: int, factor: real)
    requires 0 <= i < |b|
    ensures SumRates(b, factor) == Contribution(b[i], factor) + SumRates(b[..i] + b[i + 1..], factor)
  {
    assert b == b[..i] + [b[i]] + b[i + 1..];
    SumAppend(b[..i] + [b[i]], b[i + 1..], factor);
    SumAppend(b[..i], [b[i]], factor);
    SumAppend(b[..i], b[i + 1..], factor);
    assert SumRates([b[i]], factor) == Contribution(b[i], factor);
  }

  /** Taking one element out of a list takes it out of the list's multiset. */
  lemma MultisetRemoveAt(b: seq<Component>, i: int)
    requires 0 <= i < |b|
    ensures multiset(b[..i] + b[i + 1..]) == multiset(b) - multiset{b[i]}
  {
    assert b == b[..i] + [b[i]] + b[i + 1..];
  }

  /** If two lists are permutations of each other, removing the first element of
      one and a matching element of the other leaves permutations of each other. */
  lemma PermutationTail(a: seq<Component>, b: seq<Component>, i: int)
    requires multiset(a) == multiset(b)
    requires a != [] && 0 <= i < |b| && b[i] == a[0]
    ensures multiset(a[1..]) == multiset(b[..i] + b[i + 1..])
  {
    assert a[..0] + a[1..] == a[1..];
    MultisetRemoveAt(a, 0);
    MultisetRemoveAt(b, i);
    calc {
      multiset(a[1..]);
      multiset(a) - multiset{a[0]};
      multiset(b) - multiset{b[i]};
      multiset(b[..i] + b[i + 1..]);
    }
  }

  /** The reference sum depends only on the multiset of components. */
  lemma {:induction false} SumPermutation(a: seq<Component>, b: seq<Component>, factor: real)
    requires multiset(a) == multiset(b)
    ensures SumRates(a, factor) == SumRates(b, factor)
    decreases |a|
  {
    if a == [] {
      assert |b| == |multiset(b)| == 0;
    } else {
      assert a[0] in multiset(b);
      var i :| 0 <= i < |b| && b[i] == a[0];
      PermutationTail(a, b, i);
      SumPermutation(a[1..], b[..i] + b[i + 1..], factor);
      SumRemoveAt(b, i, factor);
    }
  }

  /** Reordering the component list does not change the total failure rate. */
  lemma TotalPermutation(a: seq<Component>, b: seq<Component>, factor: real)
    requires multiset(a) == multiset(b)
    ensures TotalFailureRate(a, factor) == TotalFailureRate(b, factor)
  {
    SumPermutation(a, b, factor);
  }

  /** Adding a component raises the total by exactly that component's default contribution. */
  lemma TotalAfterAdd(cs: seq<Component>, kind: string, factor: real)
    ensures TotalFailureRate(AddComponent(cs, kind), factor)
         == TotalFailureRate(cs, factor) + DefaultRate(kind) * factor
  {
    var c := AddComponent(cs, kind)[|cs|];
    assert AddComponent(cs, kind) == cs + [c];
    SumAppend(cs, [c], factor);
    assert SumRates([c], factor) == Contribution(c, factor);
  }

  /** Removing a component lowers the total by exactly that component's contribution. */
  lemma TotalAfterRemove(cs: seq<Component>, i: int, factor: real)
    requires 0 <= i < |cs|
    ensures TotalFailureRate(RemoveComponent(cs, i), factor)
         == TotalFailureRate(cs, factor) - Contribution(cs[i], factor)
  {
    SumRemoveAt(cs, i, factor);
  }

  /** A list of valid components under a positive factor has a positive total,
      unless it is empty. */
  lemma {:induction false} ValidTotalPositive(cs: seq<Component>, factor: real)
    requires AllValid(cs) && factor > 0.0 && cs != []
    ensures TotalFailureRate(cs, factor) > 0.0
    decreases |cs|
  {
    var c := cs[0];
    assert Valid(c);
    assert c.failureRate * factor > 0.0;
    assert Contribution(c, factor) > 0.0;
    if |cs| > 1 {
      ValidTotalPositive(cs[1..], factor);
    }
  }
}
