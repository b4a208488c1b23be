/**
 * Numeric vocabulary shared by every stage of the simulation: the
 * transcendental functions (kept uninterpreted, passed as a record), the
 * left-to-right sum of `Array.prototype.reduce((a, b) => a + b, 0)`, and the
 * running maximum that the simulation starts at 0 and raises with
 * `if (v > max) max = v`.
 */
module Numerics {

  /** The JavaScript `Math` functions the simulation calls, left uninterpreted. */
  datatype Transcendentals = Transcendentals(
    exp: real -> real,
    sin: real -> real,
    cos: real -> real,
    sqrt: real -> real,
    log: real -> real,
    pi: real)

  /** The two divisors built from transcendentals are non-zero
      (`2*sqrt(ln 2)` in the FWHM conversion, `sqrt(2*pi)` in the
      non-resonant kernel). Nothing else is assumed of `m`. */
  predicate Defined(m: Transcendentals)
  {
    m.sqrt(m.log(2.0)) != 0.0 && m.sqrt(2.0 * m.pi) != 0.0
  }

  /** The facts the real functions satisfy that some lemmas need:
      exponentials are positive, cosines lie in [-1, 1], sqrt(0) = 0. */
  ghost predicate Sound(m: Transcendentals)
  {
    Defined(m) && m.pi > 0.0 && m.sqrt(0.0) == 0.0 &&
    (forall x: real :: m.exp(x) > 0.0) &&
    (forall x: real :: -1.0 <= m.cos(x) <= 1.0)
  }

  function Abs(x: real): real
  {
    if x < 0.0 then -x else x
  }

  function Square(x: real): (r: real)
    ensures r >= 0.0
  {
    x * x
  }

  /** No element is negative. */
  predicate NonNegative(s: seq<real>)
  {
    forall i :: 0 <= i < |s| ==> s[i] >= 0.0
  }

  /** Left fold of `+` starting at 0, the order in which the component accumulates. */
  function Sum(s: seq<real>): (r: real)
    ensures NonNegative(s) ==> r >= 0.0
  {
    if |s| == 0 then 0.0
    else
      assert NonNegative(s) ==> NonNegative(s[..|s| - 1]) by {
        assert forall i :: 0 <= i < |s| - 1 ==> s[..|s| - 1][i] == s[i];
      }
      Sum(s[..|s| - 1]) + s[|s| - 1]
  }

  /** Extending a prefix by the next element gives the next prefix. */
  lemma PrefixExtend(s: seq<real>, j: nat)
    requires j < |s|
    ensures s[..j] + [s[j]] == s[..j + 1]
  {
  }

  /** A sum of zeros is zero. */
  lemma {:induction false} SumOfZeros(s: seq<real>)
    requires forall i :: 0 <= i < |s| ==> s[i] == 0.0
    ensures Sum(s) == 0.0
  {
    if |s| > 0 {
      SumOfZeros(s[..|s| - 1]);
    }
  }

  /** Subtracting a constant from every element lowers the sum by `|s|` times it. */
  lemma {:induction false} SumShifted(s: seq<real>, r: seq<real>, c: real)
    requires |r| == |s|
    requires forall i :: 0 <= i < |s| ==> r[i] == s[i] - c
    ensures Sum(r) == Sum(s) - (|s| as real) * c
  {
    if |s| > 0 {
      var k := |s| - 1;
      SumShifted(s[..k], r[..k], c);
      assert Sum(s) == Sum(s[..k]) + s[k];
      assert Sum(r) == Sum(r[..k]) + r[k];
      assert (k as real) * c + c == (|s| as real) * c;
    }
  }

  /** Running maximum of a sequence, starting from 0 as the component's
      `maxExc`, `maxBandVal` and `maxF` do. */
  function Peak(s: seq<real>): (r: real)
    ensures r >= 0.0
    ensures forall i :: 0 <= i < |s| ==> s[i] <= r
    ensures r == 0.0 || exists i :: 0 <= i < |s| && s[i] == r
  {
    if |s| == 0 then 0.0
    else
      var p := Peak(s[..|s| - 1]);
      assert forall i :: 0 <= i < |s| - 1 ==> s[..|s| - 1][i] == s[i];
      if s[|s| - 1] > p then s[|s| - 1] else p
  }

  lemma PeakStep(s: seq<real>, j: nat)
    requires j < |s|
    ensures Peak(s[..j + 1]) == if s[j] > Peak(s[..j]) then s[j] else Peak(s[..j])
  {
    assert s[..j + 1][..j] == s[..j];
  }

  /** Element-wise absolute values. */
  function Magnitudes(s: seq<real>): (r: seq<real>)
    ensures |r| == |s|
    ensures forall i :: 0 <= i < |s| ==> r[i] == Abs(s[i])
  {
    seq(|s|, i requires 0 <= i < |s| => Abs(s[i]))
  }

  /** Element-wise sum of two sequences of equal length. */
  function Pointwise(a: seq<real>, b: seq<real>): (r: seq<real>)
    requires |a| == |b|
    ensures |r| == |a|
  {
    seq(|a|, i requires 0 <= i < |a| => a[i] + b[i])
  }

  /** Every element multiplied by `c`, as in `t_grid[i] * 1e15`. */
  function Scaled(s: seq<real>, c: real): (r: seq<real>)
    ensures |r| == |s|
  {
    seq(|s|, i requires 0 <= i < |s| => s[i] * c)
  }

  /** The product of two non-negative numbers is non-negative. */
  lemma ProductNonNegative(x: real, y: real)
    requires x >= 0.0 && y >= 0.0
    ensures x * y >= 0.0
  {
  }

  /** Multiplication distributes over addition. */
  lemma Distributes(c: real, x: real, y: real)
    ensures c * x + c * y == c * (x + y)
  {
  }
}
