/** Python numeric built-ins used by the coordinator, over exact reals. */
module Numeric {

  /** Python's `int(x)` on a float: truncation toward zero. */
  function Trunc(x: real): (n: int)
    ensures x >= 0.0 ==> n >= 0 && n as real <= x < n as real + 1.0
    ensures x < 0.0 ==> n <= 0 && n as real - 1.0 < x <= n as real
  {
    if x >= 0.0 then x.Floor else -((-x).Floor)
  }

  /** For a positive whole bound, truncation reaches it exactly when the real does. */
  lemma TruncAtLeast(x: real, n: int)
    requires n >= 1
    ensures Trunc(x) >= n <==> x >= n as real
  {
    if x >= 0.0 {
      assert Trunc(x) as real <= x < Trunc(x) as real + 1.0;
    } else {
      assert Trunc(x) <= 0;
    }
  }

  /** Python's `abs` on a float. */
  function Abs(x: real): (r: real)
    ensures r >= 0.0
    ensures r == x || r == -x
  {
    if x < 0.0 then -x else x
  }

  /** Python's `max` over a non-empty list of floats. */
  function MaxOf(ws: seq<real>): (m: real)
    requires |ws| > 0
    ensures forall i :: 0 <= i < |ws| ==> ws[i] <= m
    ensures m in ws
  {
    if |ws| == 1 then ws[0]
    else
      var rest := MaxOf(ws[1..]);
      assert forall i :: 1 <= i < |ws| ==> ws[i] == ws[1..][i - 1];
      if ws[0] >= rest then ws[0] else rest
  }

  /** Python's `min` over a non-empty list of floats. */
  function MinOf(ws: seq<real>): (m: real)
    requires |ws| > 0
    ensures forall i :: 0 <= i < |ws| ==> m <= ws[i]
    ensures m in ws
  {
    if |ws| == 1 then ws[0]
    else
      var rest := MinOf(ws[1..]);
      assert forall i :: 1 <= i < |ws| ==> ws[i] == ws[1..][i - 1];
      if ws[0] <= rest then ws[0] else rest
  }

  function Sum(ws: seq<real>): real
  {
    if |ws| == 0 then 0.0 else ws[0] + Sum(ws[1..])
  }

  /** A sum of values that all lie in [lo, hi] lies in [n * lo, n * hi]. */
  lemma {:induction false} SumBounds(ws: seq<real>, lo: real, hi: real)
    requires forall i :: 0 <= i < |ws| ==> lo <= ws[i] <= hi
    ensures |ws| as real * lo <= Sum(ws) <= |ws| as real * hi
  {
    if |ws| > 0 {
      assert forall i :: 0 <= i < |ws| - 1 ==> ws[1..][i] == ws[i + 1];
      SumBounds(ws[1..], lo, hi);
      assert |ws| as real * lo == lo + (|ws| - 1) as real * lo;
      assert |ws| as real * hi == hi + (|ws| - 1) as real * hi;
    }
  }

  /** `statistics.fmean`: the arithmetic mean, which never leaves [min, max]. */
  function Mean(ws: seq<real>): (m: real)
    requires |ws| > 0
    ensures MinOf(ws) <= m <= MaxOf(ws)
  {
    MeanInRange(ws, MinOf(ws), MaxOf(ws));
    Sum(ws) / |ws| as real
  }

  /** The mean of values within [lo, hi] is within [lo, hi]. */
  lemma MeanInRange(ws: seq<real>, lo: real, hi: real)
    requires |ws| > 0
    requires forall i :: 0 <= i < |ws| ==> lo <= ws[i] <= hi
    ensures lo <= Sum(ws) / |ws| as real <= hi
  {
    SumBounds(ws, lo, hi);
    MeanBetween(Sum(ws), |ws| as real, lo, hi);
  }

  lemma MeanBetween(total: real, n: real, lo: real, hi: real)
    requires n > 0.0
    requires n * lo <= total <= n * hi
    ensures lo <= total / n <= hi
  {
    assert total == n * (total / n);
  }

  /** A spread of at most eps between max and min is the same as every pair being within eps. */
  lemma SpreadIsPairwise(ws: seq<real>, eps: real)
    requires |ws| > 0
    ensures MaxOf(ws) - MinOf(ws) <= eps <==>
            forall i, j :: 0 <= i < |ws| && 0 <= j < |ws| ==> ws[i] - ws[j] <= eps
  {
    var hi := MaxOf(ws);
    var lo := MinOf(ws);
    var i :| 0 <= i < |ws| && ws[i] == hi;
    var j :| 0 <= j < |ws| && ws[j] == lo;
    assert ws[i] - ws[j] == hi - lo;
  }
}
