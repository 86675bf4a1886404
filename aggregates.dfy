/** Folds over lists of numbers as the UI computations use them: `reduce` sums, `Math.min`/`Math.max`
    over a spread list, and the bounds that carry from the elements to their mean. */
module Aggregates {

  /** `xs.reduce((acc, v) => acc + v, 0)`: a left fold from 0. */
  function Sum(xs: seq<real>): real
  {
    if |xs| == 0 then 0.0 else Sum(xs[..|xs| - 1]) + xs[|xs| - 1]
  }

  /** `Math.min(...xs)` for a non-empty list. */
  function Min(xs: seq<real>): (r: real)
    requires |xs| > 0
    ensures r in xs
    ensures forall i :: 0 <= i < |xs| ==> r <= xs[i]
  {
    if |xs| == 1 then xs[0]
    else
      var m := Min(xs[..|xs| - 1]);
      assert forall i :: 0 <= i < |xs| - 1 ==> xs[..|xs| - 1][i] == xs[i];
      if xs[|xs| - 1] < m then xs[|xs| - 1] else m
  }

  /** `Math.max(...xs)` for a non-empty list. */
  function Max(xs: seq<real>): (r: real)
    requires |xs| > 0
    ensures r in xs
    ensures forall i :: 0 <= i < |xs| ==> xs[i] <= r
  {
    if |xs| == 1 then xs[0]
    else
      var m := Max(xs[..|xs| - 1]);
      assert forall i :: 0 <= i < |xs| - 1 ==> xs[..|xs| - 1][i] == xs[i];
      if xs[|xs| - 1] > m then xs[|xs| - 1] else m
  }

  /** `n * v` as repeated addition, so that bounds on sums follow by linear induction. */
  function Times(n: nat, v: real): real
  {
    if n == 0 then 0.0 else Times(n - 1, v) + v
  }

  lemma {:induction false} TimesIsProduct(n: nat, v: real)
    ensures Times(n, v) == n as real * v
  {
    if n > 0 {
      TimesIsProduct(n - 1, v);
      assert (n - 1) as real * v + v == n as real * v;
    }
  }

  /** A sum of `n` values in [lo, hi] lies in [n * lo, n * hi]. */
  lemma {:induction false} SumWithin(xs: seq<real>, lo: real, hi: real)
    requires forall i :: 0 <= i < |xs| ==> lo <= xs[i] <= hi
    ensures Times(|xs|, lo) <= Sum(xs) <= Times(|xs|, hi)
  {
    if |xs| > 0 {
      var init := xs[..|xs| - 1];
      assert forall i :: 0 <= i < |init| ==> init[i] == xs[i];
      SumWithin(init, lo, hi);
    }
  }

  lemma DivideBounds(n: nat, lo: real, hi: real, s: real)
    requires 0 < n && Times(n, lo) <= s <= Times(n, hi)
    ensures lo <= s * (1.0 / n as real) <= hi
  {
    TimesIsProduct(n, lo);
    TimesIsProduct(n, hi);
    var r := n as real;
    var k := 1.0 / r;
    assert r * k == 1.0;
    assert (s - r * lo) * k >= 0.0;
    assert (r * hi - s) * k >= 0.0;
  }

  lemma MeanWithin(s: real, n: nat, lo: real, hi: real)
    requires 0 < n && Times(n, lo) <= s <= Times(n, hi)
    ensures lo <= s / n as real <= hi
  {
    DivideBounds(n, lo, hi, s);
    assert s * (1.0 / n as real) == s / n as real;
  }

  /** The mean of a non-empty list lies between its minimum and its maximum, and within any bounds of its elements. */
  lemma MeanBetween(xs: seq<real>, lo: real, hi: real)
    requires |xs| > 0
    requires forall i :: 0 <= i < |xs| ==> lo <= xs[i] <= hi
    ensures lo <= Min(xs) <= Sum(xs) / |xs| as real <= Max(xs) <= hi
  {
    SumWithin(xs, Min(xs), Max(xs));
    MeanWithin(Sum(xs), |xs|, Min(xs), Max(xs));
  }
}
