/** Sums over finite price series, the one aggregate the indicators share
    (`.sum()` and the numerator of `.rolling(...).mean()`). */
module Series {

  /** Sum of a series, accumulated from the front: the recursion peels the last element. */
  function Sum(s: seq<real>): real
  {
    if |s| == 0 then 0.0 else Sum(s[..|s| - 1]) + s[|s| - 1]
  }

  /** Peeling the first element instead of the last. */
  lemma {:induction false} SumFront(s: seq<real>)
    requires |s| > 0
    ensures Sum(s) == s[0] + Sum(s[1..])
  {
    if |s| > 1 {
      SumFront(s[..|s| - 1]);
      assert s[..|s| - 1][1..] == s[1..][..|s| - 2];
    }
  }

  /** A series holding one value c throughout sums to its length times c. */
  lemma {:induction false} SumConstant(s: seq<real>, c: real)
    requires forall i :: 0 <= i < |s| ==> s[i] == c
    ensures Sum(s) == |s| as real * c
  {
    if |s| > 0 {
      SumConstant(s[..|s| - 1], c);
    }
  }

  /** Sums of non-negative values are non-negative. */
  lemma {:induction false} SumNonNegative(s: seq<real>)
    requires forall i :: 0 <= i < |s| ==> s[i] >= 0.0
    ensures Sum(s) >= 0.0
  {
    if |s| > 0 {
      SumNonNegative(s[..|s| - 1]);
    }
  }

  /** A non-empty series of positive values has a positive sum. */
  lemma {:induction false} SumPositive(s: seq<real>)
    requires |s| > 0
    requires forall i :: 0 <= i < |s| ==> s[i] > 0.0
    ensures Sum(s) > 0.0
  {
    SumNonNegative(s[..|s| - 1]);
  }

  // Nonlinear facts about reals, proved where no other facts are in scope.

  lemma DivNonNegative(x: real, y: real)
    requires x >= 0.0 && y > 0.0
    ensures x / y >= 0.0
  {
  }

  lemma DivPositive(x: real, y: real)
    requires x > 0.0 && y > 0.0
    ensures x / y > 0.0
  {
  }

  /** Multiplying x by g and then by t is multiplying it by g * t. */
  lemma ProductChain(x: real, g: real, t: real, y: real, z: real)
    requires x * g == y && y * t == z
    ensures x * (g * t) == z
  {
    assert x * (g * t) == (x * g) * t;
  }

  lemma DivideDifference(x: real, y: real, z: real)
    requires z != 0.0
    ensures x / z - y / z == (x - y) / z
  {
  }

  lemma DivideSum(x: real, y: real, z: real)
    requires z != 0.0
    ensures (x + y) / z == x / z + y / z
  {
  }

  lemma MeanOfConstant(n: real, c: real)
    requires n != 0.0
    ensures (n * c) / n == c
  {
  }

  lemma ZeroDivided(z: real)
    requires z != 0.0
    ensures 0.0 / z == 0.0
  {
  }

  lemma MulCancel(s: real, x: real, y: real)
    requires s != 0.0 && s * x == s * y
    ensures x == y
  {
  }

  lemma MulNonNegative(x: real, y: real)
    requires x >= 0.0 && y >= 0.0
    ensures x * y >= 0.0
  {
  }

  /** A weighted mix of two values between lo and hi stays between lo and hi. */
  lemma MixWithin(alpha: real, x: real, y: real, lo: real, hi: real)
    requires 0.0 <= alpha <= 1.0
    requires lo <= x <= hi && lo <= y <= hi
    ensures lo <= alpha * x + (1.0 - alpha) * y <= hi
  {
    MulNonNegative(alpha, x - lo);
    MulNonNegative(1.0 - alpha, y - lo);
    MulNonNegative(alpha, hi - x);
    MulNonNegative(1.0 - alpha, hi - y);
    assert alpha * x + (1.0 - alpha) * y - lo == alpha * (x - lo) + (1.0 - alpha) * (y - lo);
    assert hi - (alpha * x + (1.0 - alpha) * y) == alpha * (hi - x) + (1.0 - alpha) * (hi - y);
  }
}
