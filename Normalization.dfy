/**
 * The pure element-wise post-processing of the spectra and the interferogram:
 * AC coupling by mean subtraction (src/App.jsx:179-180), normalization by the
 * running maximum with the `|| 1` fallback (src/App.jsx:167, 210) and the
 * deconvolution guard of the FAST-CARS spectrum (src/App.jsx:195-204).
 */
module Normalization {
  import opened Numerics

  /** `meanSig`: the arithmetic mean, 0 for an empty signal. */
  function Mean(s: seq<real>): (r: real)
    ensures |s| > 0 ==> r * (|s| as real) == Sum(s)
    ensures |s| == 0 ==> r == 0.0
  {
    if |s| > 0 then Sum(s) / (|s| as real) else 0.0
  }

  /** `sigAC`: every sample minus the mean, so adding the mean back restores it. */
  function ACCouple(s: seq<real>): (r: seq<real>)
    ensures |r| == |s|
    ensures forall i :: 0 <= i < |s| ==> r[i] + Mean(s) == s[i]
  {
    seq(|s|, i requires 0 <= i < |s| => s[i] - Mean(s))
  }

  /** After AC coupling the samples sum to zero and each differs from the
      original by the mean. */
  lemma ACCoupledSumsToZero(s: seq<real>)
    ensures Sum(ACCouple(s)) == 0.0
    ensures forall i :: 0 <= i < |s| ==> ACCouple(s)[i] + Mean(s) == s[i]
  {
    var r := ACCouple(s);
    SumShifted(s, r, Mean(s));
    if |s| > 0 {
      var n := |s| as real;
      assert n * (Sum(s) / n) == Sum(s);
    }
  }

  /** Adding `n * c` to a total of `n` samples raises its mean by `c`. */
  lemma MeanOfShifted(total: real, n: real, c: real)
    requires n > 0.0
    ensures (total + n * c) / n == total / n + c
  {
  }

  /** AC coupling removes a constant offset entirely. */
  lemma ACCoupleIgnoresOffset(s: seq<real>, c: real)
    ensures ACCouple(seq(|s|, i requires 0 <= i < |s| => s[i] + c)) == ACCouple(s)
  {
    var u := seq(|s|, i requires 0 <= i < |s| => s[i] + c);
    SumShifted(u, s, c);
    if |s| > 0 {
      var n := |s| as real;
      var total := Sum(s);
      assert Sum(u) == total + n * c;
      MeanOfShifted(total, n, c);
      assert Mean(u) == Mean(s) + c;
      forall i | 0 <= i < |s| ensures ACCouple(u)[i] == ACCouple(s)[i] {
        assert ACCouple(u)[i] == u[i] - Mean(u);
        assert u[i] == s[i] + c;
      }
    }
  }

  /** A constant signal (no beating) is all zero after AC coupling. */
  lemma ACCoupleConstant(s: seq<real>, c: real)
    requires forall i :: 0 <= i < |s| ==> s[i] == c
    ensures forall i :: 0 <= i < |s| ==> ACCouple(s)[i] == 0.0
  {
    var zeros := seq(|s|, i requires 0 <= i < |s| => 0.0);
    SumShifted(s, zeros, c);
    SumOfZeros(zeros);
    if |s| > 0 {
      var n := |s| as real;
      assert Sum(s) == 0.0 + n * c;
      MeanOfShifted(0.0, n, c);
      assert Mean(s) == c;
    }
  }

  /** `v / (max || 1)`: JavaScript's `||` replaces a zero maximum by 1. */
  function Divisor(mx: real): real
  {
    if mx == 0.0 then 1.0 else mx
  }

  /** `raw.map(v => v / (max || 1))`. */
  function NormalizeByMax(raw: seq<real>, mx: real): (r: seq<real>)
    ensures |r| == |raw|
    ensures forall i :: 0 <= i < |raw| ==> r[i] * Divisor(mx) == raw[i]
  {
    seq(|raw|, i requires 0 <= i < |raw| => raw[i] / Divisor(mx))
  }

  /** One value between 0 and the maximum, divided by `max || 1`. */
  lemma UnitValue(v: real, mx: real)
    requires 0.0 <= v <= mx
    ensures 0.0 <= v / Divisor(mx) <= 1.0
    ensures mx > 0.0 && v == mx ==> v / Divisor(mx) == 1.0
    ensures mx == 0.0 ==> v / Divisor(mx) == 0.0
  {
    if mx > 0.0 {
      assert (v / mx) * mx == v;
    }
  }

  /** Normalizing non-negative values by their running maximum gives values
      in [0, 1]; a value equal to a positive maximum becomes exactly 1; with a
      zero maximum (all values 0) every value stays 0. */
  lemma NormalizedToUnit(raw: seq<real>)
    requires forall i :: 0 <= i < |raw| ==> raw[i] >= 0.0
    ensures forall i :: 0 <= i < |raw| ==> 0.0 <= NormalizeByMax(raw, Peak(raw))[i] <= 1.0
    ensures forall i :: 0 <= i < |raw| && Peak(raw) > 0.0 && raw[i] == Peak(raw) ==> NormalizeByMax(raw, Peak(raw))[i] == 1.0
    ensures Peak(raw) > 0.0 ==> exists i :: 0 <= i < |raw| && NormalizeByMax(raw, Peak(raw))[i] == 1.0
    ensures Peak(raw) == 0.0 ==> forall i :: 0 <= i < |raw| ==> NormalizeByMax(raw, Peak(raw))[i] == 0.0
  {
    var mx := Peak(raw);
    var r := NormalizeByMax(raw, mx);
    forall i | 0 <= i < |raw|
      ensures 0.0 <= r[i] <= 1.0
      ensures mx > 0.0 && raw[i] == mx ==> r[i] == 1.0
      ensures mx == 0.0 ==> r[i] == 0.0
    {
      assert r[i] == raw[i] / Divisor(mx);
      UnitValue(raw[i], mx);
    }
    if mx > 0.0 {
      var k :| 0 <= k < |raw| && raw[k] == mx;
      assert r[k] == 1.0;
    }
  }

  /** Deconvolution threshold on the excitation weight. */
  const WeightFloor: real := 0.0001

  /** The FAST-CARS bin value after the optional deconvolution by the
      excitation weight `excRaw / maxExc`. A zero `maxExc` makes the weight
      `0/0 = NaN` (or an infinity), for which the guard yields 0 as well, so it
      is modelled as forcing 0. */
  function Deconvolve(val: real, excRaw: real, maxExc: real, normalize: bool): (r: real)
    ensures !normalize ==> r == val
    ensures normalize && maxExc == 0.0 ==> r == 0.0
    ensures normalize && maxExc != 0.0 && excRaw / maxExc <= WeightFloor ==> r == 0.0
    ensures normalize && maxExc != 0.0 && excRaw / maxExc > WeightFloor ==> r * (excRaw / maxExc) == val
  {
    if !normalize then val
    else if maxExc == 0.0 then 0.0
    else
      var weight := excRaw / maxExc;
      if weight > WeightFloor then val / weight else 0.0
  }

  /** The guard keeps bin values non-negative. */
  lemma DeconvolveNonNegative(val: real, excRaw: real, maxExc: real, normalize: bool)
    requires val >= 0.0 && excRaw >= 0.0 && maxExc >= 0.0
    ensures Deconvolve(val, excRaw, maxExc, normalize) >= 0.0
  {
    if normalize && maxExc != 0.0 {
      var weight := excRaw / maxExc;
      if weight > WeightFloor {
        assert Deconvolve(val, excRaw, maxExc, normalize) * weight == val;
      }
    }
  }
}
