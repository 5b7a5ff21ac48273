/** Sequence and arithmetic helpers shared by the pipeline stages. */
module Seqs {
  import opened Arith

  /** Concatenation of a sequence of sequences, in order. */
  function Flatten<T>(ss: seq<seq<T>>): seq<T>
  {
    if |ss| == 0 then [] else ss[0] + Flatten(ss[1..])
  }

  lemma {:induction false} FlattenAppend<T>(a: seq<seq<T>>, b: seq<seq<T>>)
    ensures Flatten(a + b) == Flatten(a) + Flatten(b)
  {
    if |a| == 0 {
      assert a + b == b;
    } else {
      assert (a + b)[1..] == a[1..] + b;
      FlattenAppend(a[1..], b);
    }
  }

  lemma Reassociate<T>(a: seq<T>, b: seq<T>, c: seq<T>, whole: seq<T>)
    requires a + (b + c) == whole
    ensures (a + b) + c == whole
  {
  }

  function MinInt(a: int, b: int): int
  {
    if a <= b then a else b
  }

  /** `Math.min` on two reals. */
  function MinReal(a: real, b: real): real
  {
    if a <= b then a else b
  }

  /** `Math.max` on two reals. */
  function MaxReal(a: real, b: real): real
  {
    if a >= b then a else b
  }

  /**
   * Sum of the elements. This groups from the right while `reduce((a, b) => a + b, 0)`
   * groups from the left; over exact reals the two are equal.
   */
  function Sum(xs: seq<real>): real
  {
    if |xs| == 0 then 0.0 else xs[0] + Sum(xs[1..])
  }

  lemma {:induction false} SumAppend(a: seq<real>, b: seq<real>)
    ensures Sum(a + b) == Sum(a) + Sum(b)
  {
    if |a| == 0 {
      assert a + b == b;
    } else {
      assert (a + b)[1..] == a[1..] + b;
      SumAppend(a[1..], b);
    }
  }

  /** A sum of positive terms is positive. */
  lemma {:induction false} SumPositive(xs: seq<real>)
    requires |xs| > 0
    ensures (forall i :: 0 <= i < |xs| ==> xs[i] > 0.0) ==> Sum(xs) > 0.0
  {
    if |xs| > 1 {
      SumPositive(xs[1..]);
    }
  }

  /** A sum of `n` copies of `c` is `n * c`. */
  lemma {:induction false} SumConstant(xs: seq<real>, c: real)
    requires forall i :: 0 <= i < |xs| ==> xs[i] == c
    ensures Sum(xs) == |xs| as real * c
  {
    if |xs| > 0 {
      SumConstant(xs[1..], c);
    }
  }

  /** Arithmetic mean; every caller in the source passes a non-empty array. */
  function Average(xs: seq<real>): real
    requires |xs| > 0
  {
    Sum(xs) / |xs| as real
  }

  /** The mean of positive values is positive. */
  lemma AveragePositive(xs: seq<real>)
    requires |xs| > 0
    requires forall i :: 0 <= i < |xs| ==> xs[i] > 0.0
    ensures Average(xs) > 0.0
  {
    SumPositive(xs);
  }

  /** The mean of a constant sequence is that constant. */
  lemma AverageConstant(xs: seq<real>, c: real)
    requires |xs| > 0
    requires forall i :: 0 <= i < |xs| ==> xs[i] == c
    ensures Average(xs) == c
  {
    SumConstant(xs, c);
  }

  /** A sum of terms within `[lo, hi]` lies within `n` times those bounds. */
  lemma {:induction false} SumBounds(xs: seq<real>, lo: real, hi: real)
    requires forall i :: 0 <= i < |xs| ==> lo <= xs[i] <= hi
    ensures |xs| as real * lo <= Sum(xs) <= |xs| as real * hi
  {
    if |xs| > 0 {
      var n := |xs| as real;
      SumBounds(xs[1..], lo, hi);
      assert n * lo == (n - 1.0) * lo + lo;
      assert n * hi == (n - 1.0) * hi + hi;
    }
  }

  /** The mean of values within `[lo, hi]` lies within `[lo, hi]`. */
  lemma AverageWithin(xs: seq<real>, lo: real, hi: real)
    requires |xs| > 0
    requires forall i :: 0 <= i < |xs| ==> lo <= xs[i] <= hi
    ensures lo <= Average(xs) <= hi
  {
    var n := |xs| as real;
    var total := Sum(xs);
    SumBounds(xs, lo, hi);
    DivBound(total, n, lo);
    DivBound(total, n, hi);
  }

  /** A sum of `n` terms none above `h` is at most `n * h`. */
  lemma {:induction false} SumAtMost(xs: seq<real>, h: real)
    requires forall i :: 0 <= i < |xs| ==> xs[i] <= h
    ensures Sum(xs) <= |xs| as real * h
  {
    if |xs| > 0 {
      var n := |xs| as real;
      SumAtMost(xs[1..], h);
      assert n * h == (n - 1.0) * h + h;
    }
  }

  /** A mean above `h` needs an element above `h`. */
  lemma AverageAtMost(xs: seq<real>, h: real)
    requires |xs| > 0
    ensures (forall i :: 0 <= i < |xs| ==> xs[i] <= h) ==> Average(xs) <= h
  {
    if forall i :: 0 <= i < |xs| ==> xs[i] <= h {
      SumAtMost(xs, h);
      DivBound(Sum(xs), |xs| as real, h);
    }
  }

  /** Every element multiplied by `c`. */
  function Scale(c: real, xs: seq<real>): (ys: seq<real>)
  {
    seq(|xs|, i requires 0 <= i < |xs| => c * xs[i])
  }

  lemma {:induction false} SumScale(c: real, xs: seq<real>)
    ensures Sum(Scale(c, xs)) == c * Sum(xs)
  {
    if |xs| > 0 {
      assert forall i :: 0 <= i < |xs| - 1 ==> Scale(c, xs)[1..][i] == Scale(c, xs[1..])[i];
      assert Scale(c, xs)[1..] == Scale(c, xs[1..]);
      SumScale(c, xs[1..]);
    }
  }

  lemma ScaleSlice(c: real, xs: seq<real>, lo: nat, hi: nat)
    requires lo <= hi <= |xs|
    ensures Scale(c, xs)[lo..hi] == Scale(c, xs[lo..hi])
  {
    assert forall i :: 0 <= i < hi - lo ==> Scale(c, xs)[lo..hi][i] == Scale(c, xs[lo..hi])[i];
  }

  /** Scaling commutes with the mean. */
  lemma AverageScale(c: real, xs: seq<real>)
    requires |xs| > 0
    ensures Average(Scale(c, xs)) == c * Average(xs)
  {
    SumScale(c, xs);
  }

  lemma AverageScalePrefix(c: real, xs: seq<real>, ys: seq<real>, k: nat)
    requires ys == Scale(c, xs)
    requires 0 < k <= |xs|
    ensures Average(ys[..k]) == c * Average(xs[..k])
  {
    ScaleSlice(c, xs, 0, k);
    assert xs[0..k] == xs[..k];
    assert ys[0..k] == ys[..k];
    AverageScale(c, xs[..k]);
  }

  lemma AverageScaleSuffix(c: real, xs: seq<real>, ys: seq<real>, k: nat)
    requires ys == Scale(c, xs)
    requires k < |xs|
    ensures Average(ys[k..]) == c * Average(xs[k..])
  {
    ScaleSlice(c, xs, k, |xs|);
    assert xs[k..|xs|] == xs[k..];
    assert ys[k..|xs|] == ys[k..];
    AverageScale(c, xs[k..]);
  }

  /** Largest element, as `Math.max(...xs)` returns it. */
  function Max(xs: seq<real>): (m: real)
    requires |xs| > 0
    ensures forall i :: 0 <= i < |xs| ==> xs[i] <= m
    ensures exists i :: 0 <= i < |xs| && xs[i] == m
  {
    if |xs| == 1 then xs[0]
    else
      var t := Max(xs[1..]);
      if xs[0] >= t then xs[0] else t
  }

  /** Smallest element, as `Math.min(...xs)` returns it. */
  function Min(xs: seq<real>): (m: real)
    requires |xs| > 0
    ensures forall i :: 0 <= i < |xs| ==> m <= xs[i]
    ensures exists i :: 0 <= i < |xs| && xs[i] == m
  {
    if |xs| == 1 then xs[0]
    else
      var t := Min(xs[1..]);
      if xs[0] <= t then xs[0] else t
  }
}
