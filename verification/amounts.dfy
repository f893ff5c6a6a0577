/**
 * Sums and scalings of sequences of amounts, and the few facts about real
 * multiplication that the premium calculation needs, stated on plain reals.
 * Where a lemma takes a product as a parameter m, its requires says which
 * product m is.
 */
module Amounts {

  function Min(a: real, b: real): real { if a <= b then a else b }
  function Max(a: real, b: real): real { if a <= b then b else a }
  function Abs(a: real): real { if a < 0.0 then -a else a }

  /** Sum of a sequence of amounts, added from left to right. */
  function Sum(s: seq<real>): real {
    if s == [] then 0.0 else Sum(s[..|s| - 1]) + s[|s| - 1]
  }

  /** Every amount of s multiplied by a. */
  function Scaled(a: real, s: seq<real>): (r: seq<real>)
    ensures |r| == |s|
    ensures forall i :: 0 <= i < |s| ==> r[i] == a * s[i]
  {
    if s == [] then [] else Scaled(a, s[..|s| - 1]) + [a * s[|s| - 1]]
  }

  /** Scaling every amount scales the sum. */
  lemma {:induction false} SumScaled(a: real, s: seq<real>)
    ensures Sum(Scaled(a, s)) == a * Sum(s)
  {
    if s != [] {
      var n, t := |s|, Scaled(a, s);
      assert t[..n - 1] == Scaled(a, s[..n - 1]);
      SumScaled(a, s[..n - 1]);
    }
  }

  /** Blending f towards e with weight alpha moves it by m, alpha times the gap. */
  lemma Shift(alpha: real, f: real, e: real, m: real)
    requires m == alpha * (e - f)
    ensures (1.0 - alpha) * f + alpha * e == f + m
  {
  }

  /** A weight in [0, 1] shrinks a gap d towards 0 without changing its sign. */
  lemma WeightBounds(alpha: real, d: real, m: real)
    requires 0.0 <= alpha <= 1.0 && m == alpha * d
    ensures d >= 0.0 ==> 0.0 <= m <= d
    ensures d <= 0.0 ==> d <= m <= 0.0
  {
    if d >= 0.0 {
      assert (1.0 - alpha) * d == d - m;
    } else {
      assert alpha * -d == -m;
      assert (1.0 - alpha) * -d == m - d;
    }
  }

  /** A convex combination of f and e lies between them, and is f at 0 and e at 1. */
  lemma ConvexBounds(alpha: real, f: real, e: real)
    requires 0.0 <= alpha <= 1.0
    ensures Min(f, e) <= (1.0 - alpha) * f + alpha * e <= Max(f, e)
    ensures alpha == 0.0 ==> (1.0 - alpha) * f + alpha * e == f
    ensures alpha == 1.0 ==> (1.0 - alpha) * f + alpha * e == e
  {
    var m := alpha * (e - f);
    Shift(alpha, f, e, m);
    WeightBounds(alpha, e - f, m);
  }

  /** The sign of a * d for a non-negative weight a. */
  lemma ProductSign(a: real, d: real)
    requires 0.0 <= a
    ensures a > 0.0 ==> (a * d > 0.0 <==> d > 0.0) && (a * d < 0.0 <==> d < 0.0)
    ensures a * d == 0.0 <==> a == 0.0 || d == 0.0
  {
    if a > 0.0 && d < 0.0 {
      assert a * -d == -(a * d);
    } else {
      assert a * d == 0.0 || a > 0.0;
    }
  }

  /** A larger weight scales a non-negative gap up and a non-positive gap down. */
  lemma ScaleMonotone(alpha: real, beta: real, d: real, ma: real, mb: real)
    requires alpha <= beta && ma == alpha * d && mb == beta * d
    ensures d >= 0.0 ==> ma <= mb
    ensures d <= 0.0 ==> ma >= mb
  {
    assert mb - ma == (beta - alpha) * d;
    if d < 0.0 {
      assert (beta - alpha) * -d == ma - mb;
    }
  }
}
