// The iterator recipes of recipes.py, modelled on finite sequences.
// Each Python iterator becomes the finite sequence it would produce.

module Recipes {

  /** `flatten`: one level of nesting removed, sub-sequences kept in order. */
  function Flatten<T>(xss: seq<seq<T>>): (flat: seq<T>)
  {
    if xss == [] then [] else xss[0] + Flatten(xss[1..])
  }

  /** Sum of the lengths of the sub-sequences. */
  function TotalLength<T>(xss: seq<seq<T>>): nat
  {
    if xss == [] then 0 else |xss[0]| + TotalLength(xss[1..])
  }

  /** Flattening a concatenation is concatenating the flattenings. */
  lemma {:induction false} FlattenAppend<T>(a: seq<seq<T>>, b: seq<seq<T>>)
    ensures Flatten(a + b) == Flatten(a) + Flatten(b)
  {
    if a == [] {
      assert a + b == b;
    } else {
      assert (a + b)[1..] == a[1..] + b;
      FlattenAppend(a[1..], b);
    }
  }

  /** Flattening keeps every element: the length is the sum of the lengths. */
  lemma {:induction false} FlattenLength<T>(xss: seq<seq<T>>)
    ensures |Flatten(xss)| == TotalLength(xss)
  {
    if xss != [] {
      FlattenLength(xss[1..]);
    }
  }

  /** `grouper(xs, n)`: consecutive chunks of exactly n elements; an incomplete
      tail is dropped (zip stops at the shortest of the n aliases of one iterator).
      With n == 0, zip() over no iterators yields nothing. */
  function Grouper<T>(xs: seq<T>, n: nat): (chunks: seq<seq<T>>)
    ensures n > 0 ==> |chunks| == |xs| / n
    ensures forall i :: 0 <= i < |chunks| ==> |chunks[i]| == n
    decreases |xs|
  {
    if n == 0 || |xs| < n then []
    else
      var rest := Grouper(xs[n..], n);
      DivStep(|xs|, n);
      [xs[..n]] + rest
  }

  lemma DivStep(a: nat, n: nat)
    requires 0 < n <= a
    ensures (a - n) / n + 1 == a / n
  {
    var q, r := (a - n) / n, (a - n) % n;
    assert a - n == q * n + r;
    assert a == (q + 1) * n + r;
    DivUnique(a, n, q + 1, r);
  }

  /** Euclidean division has a unique quotient. */
  lemma DivUnique(a: int, n: int, q: int, r: int)
    requires n > 0 && 0 <= r < n && a == q * n + r
    ensures a / n == q && a % n == r
  {
    var q', r' := a / n, a % n;
    assert q * n + r == q' * n + r';
    assert (q - q') * n == r' - r;
    if q > q' {
      MulAtLeast(q - q', n);
    } else if q < q' {
      MulAtLeast(q' - q, n);
    }
  }

  lemma MulSucc(n: int, q: int)
    ensures n * (q + 1) == n * q + n
  {
  }

  lemma MulAtLeast(k: int, n: int)
    requires k >= 1 && n > 0
    ensures k * n >= n
  {
  }

  /** The chunks of `grouper` concatenate to the longest prefix of xs whose
      length is a multiple of n ("ABCDEFG", 3 gives ABC DEF). */
  lemma GrouperFlatten<T>(xs: seq<T>, n: nat)
    requires n > 0
    ensures n * (|xs| / n) <= |xs| && Flatten(Grouper(xs, n)) == xs[..n * (|xs| / n)]
  {
    GrouperPrefix(xs, n);
  }

  lemma {:induction false} GrouperPrefix<T>(xs: seq<T>, n: nat)
    requires n > 0
    ensures n * |Grouper(xs, n)| <= |xs|
    ensures Flatten(Grouper(xs, n)) == xs[..n * |Grouper(xs, n)|]
    decreases |xs|
  {
    if |xs| >= n {
      var rest := Grouper(xs[n..], n);
      assert Grouper(xs, n) == [xs[..n]] + rest;
      GrouperPrefix(xs[n..], n);
      var k := n * |rest|;
      MulSucc(n, |rest|);
      assert n * |Grouper(xs, n)| == n + k;
      assert xs[..n] + xs[n..][..k] == xs[..n + k];
    }
  }

  /** The i-th chunk of `grouper` is the slice xs[n*i .. n*i + n]. */
  lemma {:induction false} GrouperChunk<T>(xs: seq<T>, n: nat, i: nat)
    requires n > 0 && i < |Grouper(xs, n)|
    ensures n * i + n <= |xs|
    ensures Grouper(xs, n)[i] == xs[n * i .. n * i + n]
    decreases |xs|
  {
    if i > 0 {
      GrouperChunk(xs[n..], n, i - 1);
      assert n * i == n + n * (i - 1);
    }
  }

  /** `pairwise`: each element with its successor. */
  function Pairwise<T>(xs: seq<T>): (ps: seq<(T, T)>)
    ensures |ps| == if |xs| == 0 then 0 else |xs| - 1
    ensures forall i :: 0 <= i < |ps| ==> ps[i] == (xs[i], xs[i + 1])
  {
    if |xs| < 2 then [] else [(xs[0], xs[1])] + Pairwise(xs[1..])
  }

  /** `repeatfunc(func, times, *args)` with a finite `times`: the results of
      `times` calls with the same arguments. */
  function RepeatFunc<A, B>(func: A -> B, times: nat, args: A): (rs: seq<B>)
    ensures |rs| == times
    ensures forall i :: 0 <= i < |rs| ==> rs[i] == func(args)
  {
    if times == 0 then [] else [func(args)] + RepeatFunc(func, times - 1, args)
  }
}
