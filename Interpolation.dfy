/**
 * `interp` (src/App.jsx:15-23), the `np.interp`-style linear interpolation
 * with clamping at both ends and a linear scan for the bracketing interval,
 * and its use to resample the coherence onto the delay axis
 * (src/App.jsx:176-177).
 */
module Interpolation {
  import opened Numerics
  import opened Grid

  /** The straight line through `(x0, y0)` and `(x1, y1)`, evaluated at `x`. */
  function Lerp(x0: real, x1: real, y0: real, y1: real, x: real): real
    requires x0 != x1
  {
    y0 + (y1 - y0) * (x - x0) / (x1 - x0)
  }

  /** On `(x0, x1]` the line stays between its end values and meets `y1` at `x1`. */
  lemma LerpBetween(x0: real, x1: real, y0: real, y1: real, x: real)
    requires x0 < x <= x1
    ensures y0 <= y1 ==> y0 <= Lerp(x0, x1, y0, y1, x) <= y1
    ensures y1 <= y0 ==> y1 <= Lerp(x0, x1, y0, y1, x) <= y0
    ensures x == x1 ==> Lerp(x0, x1, y0, y1, x) == y1
  {
    var d, u, a := x1 - x0, x - x0, y1 - y0;
    var lambda := Fraction(u, d);
    ScaledFraction(a, u, d, lambda);
    assert Lerp(x0, x1, y0, y1, x) == y0 + a * lambda;
    PartOfWhole(a, lambda);
    if x == x1 {
      assert lambda == 1.0;
    }
  }

  /** `u / d` for `0 < u <= d` lies in `(0, 1]`, and is 1 exactly at `u = d`. */
  lemma Fraction(u: real, d: real) returns (lambda: real)
    requires 0.0 < u <= d
    ensures lambda == u / d && u == lambda * d
    ensures 0.0 < lambda <= 1.0
    ensures u == d ==> lambda == 1.0
  {
    lambda := u / d;
  }

  lemma ScaledFraction(a: real, u: real, d: real, lambda: real)
    requires d != 0.0 && lambda == u / d
    ensures a * u / d == a * lambda
  {
  }

  /** A fraction `lambda` in `(0, 1]` of `a` lies between 0 and `a`. */
  lemma PartOfWhole(a: real, lambda: real)
    requires 0.0 < lambda <= 1.0
    ensures a >= 0.0 ==> 0.0 <= a * lambda <= a
    ensures a <= 0.0 ==> a <= a * lambda <= 0.0
  {
    assert a * (1.0 - lambda) == a - a * lambda;
    if a >= 0.0 {
      ProductNonNegative(a, lambda);
      ProductNonNegative(a, 1.0 - lambda);
    } else {
      ProductNonNegative(-a, lambda);
      ProductNonNegative(-a, 1.0 - lambda);
      assert (-a) * lambda == -(a * lambda);
      assert (-a) * (1.0 - lambda) == -(a * (1.0 - lambda));
    }
  }

  /** The scan `while (x > xp[i + 1]) i++` started at `i`: the first
      `j >= i` with `x <= xp[j + 1]`. It never runs past the last interval
      because `x < xp[last]`; no ordering of `xp` is needed for that. */
  function Bracket(x: real, xp: seq<real>, i: nat): (j: nat)
    requires i < |xp| - 1 && xp[i] < x < xp[|xp| - 1]
    ensures i <= j < |xp| - 1
    ensures xp[j] < x <= xp[j + 1]
    ensures forall k :: i < k <= j ==> x > xp[k]
    decreases |xp| - i
  {
    if x > xp[i + 1] then Bracket(x, xp, i + 1) else i
  }

  /** The value `interp(x, xp, fp)` computes: clamped to the end values
      outside the grid; strictly inside it, the line through the ends of a
      bracketing interval `xp[i] < x <= xp[i + 1]`, lying between their values. */
  function Interpolate(x: real, xp: seq<real>, fp: seq<real>): (r: real)
    requires 0 < |xp| == |fp|
    ensures x <= xp[0] ==> r == fp[0]
    ensures xp[0] < x && xp[|xp| - 1] <= x ==> r == fp[|fp| - 1]
    ensures xp[0] < x < xp[|xp| - 1] ==>
      exists i :: 0 <= i < |xp| - 1 && xp[i] < x <= xp[i + 1] &&
                  r == Lerp(xp[i], xp[i + 1], fp[i], fp[i + 1], x) &&
                  (fp[i] <= r <= fp[i + 1] || fp[i + 1] <= r <= fp[i])
  {
    if x <= xp[0] then fp[0]
    else if x >= xp[|xp| - 1] then fp[|fp| - 1]
    else
      var i := Bracket(x, xp, 0);
      LerpBetween(xp[i], xp[i + 1], fp[i], fp[i + 1], x);
      Lerp(xp[i], xp[i + 1], fp[i], fp[i + 1], x)
  }

  /** `interp`, with its `while` loop. */
  method Interp(x: real, xp: seq<real>, fp: seq<real>) returns (y: real)
    requires 0 < |xp| == |fp|
    ensures x <= xp[0] ==> y == fp[0]
    ensures xp[0] < x && xp[|xp| - 1] <= x ==> y == fp[|fp| - 1]
    ensures y == Interpolate(x, xp, fp)
  {
    if x <= xp[0] {
      return fp[0];
    }
    if x >= xp[|xp| - 1] {
      return fp[|fp| - 1];
    }
    var i := 0;
    while x > xp[i + 1]
      invariant 0 <= i < |xp| - 1
      invariant xp[i] < x
      invariant Bracket(x, xp, i) == Bracket(x, xp, 0)
      decreases |xp| - i
    {
      i := i + 1;
    }
    assert Bracket(x, xp, 0) == i && xp[i] < x <= xp[i + 1];
    var x0, x1 := xp[i], xp[i + 1];
    var y0, y1 := fp[i], fp[i + 1];
    y := Lerp(x0, x1, y0, y1, x);
  }

  /** On a strictly increasing grid the bracketing interval is unique, so any
      interval containing `x` determines the result. */
  lemma InterpolateOnInterval(x: real, xp: seq<real>, fp: seq<real>, i: nat)
    requires 0 < |xp| == |fp| && StrictlyIncreasing(xp)
    requires i < |xp| - 1 && xp[i] < x <= xp[i + 1]
    ensures Interpolate(x, xp, fp) == Lerp(xp[i], xp[i + 1], fp[i], fp[i + 1], x)
  {
    assert xp[0] <= xp[i];
    if x >= xp[|xp| - 1] {
      assert xp[i + 1] == xp[|xp| - 1];
      LerpBetween(xp[i], xp[i + 1], fp[i], fp[i + 1], x);
    } else {
      var j := Bracket(x, xp, 0);
      assert xp[j] < x <= xp[j + 1];
    }
  }

  /** On a strictly increasing grid a query equal to a grid point returns that
      point's value exactly. */
  lemma InterpolateAtKnot(xp: seq<real>, fp: seq<real>, k: nat)
    requires 0 < |xp| == |fp| && StrictlyIncreasing(xp) && k < |xp|
    ensures Interpolate(xp[k], xp, fp) == fp[k]
  {
    if k > 0 {
      InterpolateOnInterval(xp[k], xp, fp, k - 1);
      LerpBetween(xp[k - 1], xp[k], fp[k - 1], fp[k], xp[k]);
    }
  }

  /** The result never leaves the range of the sampled values; in particular an
      all-zero `fp` interpolates to 0 everywhere. */
  lemma InterpolateWithin(x: real, xp: seq<real>, fp: seq<real>, lo: real, hi: real)
    requires 0 < |xp| == |fp|
    requires forall i :: 0 <= i < |fp| ==> lo <= fp[i] <= hi
    ensures lo <= Interpolate(x, xp, fp) <= hi
  {
    if xp[0] < x < xp[|xp| - 1] {
      var r := Interpolate(x, xp, fp);
      var i :| 0 <= i < |xp| - 1 && xp[i] < x <= xp[i + 1] &&
               r == Lerp(xp[i], xp[i + 1], fp[i], fp[i + 1], x) &&
               (fp[i] <= r <= fp[i + 1] || fp[i + 1] <= r <= fp[i]);
      assert lo <= fp[i] <= hi && lo <= fp[i + 1] <= hi;
    }
  }

  /** On the program's own time grid, a delay that falls on a grid time
      reads back the coherence sample there exactly. */
  lemma InterpolateOnTimeGrid(n: nat, rho: seq<real>, i: nat)
    requires 0 < n == |rho| && i < n
    ensures Interpolate(TimeGrid(n)[i], TimeGrid(n), rho) == rho[i]
  {
    TimeGridIncreasing(n);
    InterpolateAtKnot(TimeGrid(n), rho, i);
  }

  /** `sigTotal`: the coherence resampled onto the delay axis. */
  function Resampled(delays: seq<real>, xp: seq<real>, fp: seq<real>): (r: seq<real>)
    requires 0 < |xp| == |fp|
    ensures |r| == |delays|
  {
    seq(|delays|, j requires 0 <= j < |delays| => Interpolate(delays[j], xp, fp))
  }

  /** `delays_s.map(tau => interp(tau, t_grid, rhoArray))`. */
  method Resample(delays: seq<real>, xp: seq<real>, fp: seq<real>) returns (sig: seq<real>)
    requires 0 < |xp| == |fp|
    ensures sig == Resampled(delays, xp, fp)
  {
    sig := [];
    for j := 0 to |delays|
      invariant sig == Resampled(delays[..j], xp, fp)
    {
      var y := Interp(delays[j], xp, fp);
      sig := sig + [y];
    }
    assert delays[..|delays|] == delays;
  }
}
