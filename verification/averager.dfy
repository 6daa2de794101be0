/** The unweighted mean of a list of numbers, with an explicit "no value" for the empty list. */
module Averager {
  import opened Wrappers
  import opened Permutations

  /** The sum of `points`; the order of addition is irrelevant over exact reals. */
  function Sum(points: seq<real>): real {
    if |points| == 0 then 0.0 else points[0] + Sum(points[1..])
  }

  /**
   * The mean of `points`, or `None` for the empty list. The mean is the
   * unique value that, taken `|points|` times, gives the sum.
   */
  function CalculateAverage(points: seq<real>): (r: Option<real>)
    ensures r.None? <==> |points| == 0
    ensures r.Some? ==> r.value * (|points| as real) == Sum(points)
  {
    if |points| > 0 then Some(Sum(points) / (|points| as real)) else None
  }

  lemma {:induction false} SumConcat(a: seq<real>, b: seq<real>)
    ensures Sum(a + b) == Sum(a) + Sum(b)
  {
    if |a| == 0 {
      assert a + b == b;
    } else {
      assert (a + b)[1..] == a[1..] + b;
      SumConcat(a[1..], b);
    }
  }

  /** Reordering the points does not change their sum. */
  lemma {:induction false} SumPermutation(p: seq<real>, q: seq<real>)
    requires multiset(p) == multiset(q)
    ensures Sum(p) == Sum(q)
    decreases |p|
  {
    if |p| == 0 {
      assert |q| == |multiset(q)| == 0;
    } else {
      var k := MatchFirst(p, q);
      SumPermutation(p[1..], q[..k] + q[k + 1..]);
      assert q == q[..k] + [q[k]] + q[k + 1..];
      SumConcat(q[..k] + [q[k]], q[k + 1..]);
      SumConcat(q[..k], [q[k]]);
      SumConcat(q[..k], q[k + 1..]);
      assert Sum([q[k]]) == q[k] + Sum([]);
    }
  }

  /** The average of a list does not depend on the order of its points. */
  lemma AverageIsOrderIndependent(p: seq<real>, q: seq<real>)
    requires multiset(p) == multiset(q)
    ensures CalculateAverage(p) == CalculateAverage(q)
  {
    assert |p| == |multiset(p)| == |q|;
    SumPermutation(p, q);
  }

  lemma {:induction false} SumBounds(points: seq<real>, lo: real, hi: real)
    requires forall i :: 0 <= i < |points| ==> lo <= points[i] <= hi
    ensures (|points| as real) * lo <= Sum(points) <= (|points| as real) * hi
  {
    if |points| > 0 {
      SumBounds(points[1..], lo, hi);
      assert lo <= points[0] <= hi;
    }
  }

  /** The mean of points that all lie in `[lo, hi]` lies in `[lo, hi]` too. */
  lemma AverageBounds(points: seq<real>, lo: real, hi: real)
    requires |points| > 0
    requires forall i :: 0 <= i < |points| ==> lo <= points[i] <= hi
    ensures lo <= CalculateAverage(points).value <= hi
  {
    SumBounds(points, lo, hi);
    var n := |points| as real;
    var avg := CalculateAverage(points).value;
    assert avg * n == Sum(points);
    assert (avg - lo) * n >= 0.0;
    assert (hi - avg) * n >= 0.0;
  }
}
