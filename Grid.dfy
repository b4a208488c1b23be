/**
 * The uniform axes of the simulation (src/App.jsx:63-66, 151, 170-174) and the
 * unit conversions that map user quantities to angular frequencies and
 * widths (src/App.jsx:10-12).
 */
module Grid {
  import opened Numerics

  /** Speed of light in cm/s and in m/s. */
  const SpeedOfLightCm: real := 2.99792458e10
  const SpeedOfLightM: real := 2.99792458e8

  /** Main-grid spacing: 0.5 fs. */
  const Dt: real := 0.5e-15

  /** Raman-shift axis: starts at 500 cm^-1, step 2 cm^-1. */
  const RamanStart: real := 500.0
  const RamanStep: real := 2.0

  /** FAST-CARS delay axis: -0.5 ps to 7.5 ps. */
  const MinDelay: real := -0.5e-12
  const MaxDelay: real := 7.5e-12

  /** `cm1ToRadS`: wavenumber (cm^-1) to angular frequency (rad/s). */
  function CmToRadS(m: Transcendentals, shift: real): (w: real)
    ensures shift == 0.0 ==> w == 0.0
    ensures m.pi > 0.0 ==> (w > 0.0 <==> shift > 0.0)
  {
    2.0 * m.pi * SpeedOfLightCm * shift
  }

  /** `fwhmToSigmaT`: the Gaussian sigma whose FWHM is `fwhm`. */
  function FwhmToSigma(m: Transcendentals, fwhm: real): (sigma: real)
    requires m.sqrt(m.log(2.0)) != 0.0
    ensures 2.0 * m.sqrt(m.log(2.0)) * sigma == fwhm
    ensures fwhm != 0.0 ==> sigma != 0.0
  {
    fwhm / (2.0 * m.sqrt(m.log(2.0)))
  }

  /** `lamNmToW`: a vacuum wavelength in nm to its angular frequency. */
  function LamNmToW(m: Transcendentals, lam: real): (w: real)
    requires lam != 0.0
    ensures w * (lam * 1e-9) == 2.0 * m.pi * SpeedOfLightM
  {
    (2.0 * m.pi * SpeedOfLightM) / (lam * 1e-9)
  }

  /** A larger wavenumber is a larger angular frequency. */
  lemma CmToRadSIncreasing(m: Transcendentals, a: real, b: real)
    requires m.pi > 0.0 && a < b
    ensures CmToRadS(m, a) < CmToRadS(m, b)
  {
    var k := 2.0 * m.pi * SpeedOfLightCm;
    assert k > 0.0;
    assert CmToRadS(m, a) == k * a && CmToRadS(m, b) == k * b;
    assert CmToRadS(m, b) - CmToRadS(m, a) == k * (b - a);
  }

  /** `t_grid`: `n` samples `(i - half) * dt` with `half = floor(n / 2)`. */
  function TimeGrid(n: nat): (t: seq<real>)
    ensures |t| == n
    ensures n > 0 ==> t[n / 2] == 0.0
    ensures forall i :: 0 <= i < n ==> (t[i] < 0.0 <==> i < n / 2)
  {
    seq(n, i requires 0 <= i < n => (i - n / 2) as real * Dt)
  }

  predicate StrictlyIncreasing(s: seq<real>)
  {
    forall a, b :: 0 <= a < b < |s| ==> s[a] < s[b]
  }

  lemma TimeGridIncreasing(n: nat)
    ensures StrictlyIncreasing(TimeGrid(n))
  {
    var t := TimeGrid(n);
    forall a, b | 0 <= a < b < n ensures t[a] < t[b] {
      assert t[b] - t[a] == (b - a) as real * Dt;
    }
  }

  /** The kernel index `i - k + half` of the convolution is the sample at time
      `t_i - t_k`. */
  lemma TimeGridDifference(n: nat, i: int, k: int)
    requires 0 <= i < n && 0 <= k < n && 0 <= i - k + n / 2 < n
    ensures TimeGrid(n)[i - k + n / 2] == TimeGrid(n)[i] - TimeGrid(n)[k]
  {
    var t := TimeGrid(n);
    assert t[i - k + n / 2] == (i - k) as real * Dt;
    assert t[i] - t[k] == ((i - n / 2) - (k - n / 2)) as real * Dt;
  }

  /** `raman_cm1_axis`: `500 + 2 i` for `i < count`. */
  function RamanAxis(count: nat): (axis: seq<real>)
    ensures |axis| == count
    ensures count > 0 ==> axis[0] == RamanStart && axis[count - 1] == RamanStart + RamanStep * (count - 1) as real
    ensures forall j :: 0 < j < count ==> axis[j] - axis[j - 1] == RamanStep
  {
    seq(count, j requires 0 <= j < count => RamanStart + (j as real) * RamanStep)
  }

  /** `delays_s`: `count` delays from `MinDelay` in steps of
      `(MaxDelay - MinDelay) / (count - 1)`. */
  function DelayAxis(count: nat): (d: seq<real>)
    requires count >= 2
    ensures |d| == count
    ensures d[0] == MinDelay
    ensures forall i :: 0 < i < count ==> d[i] - d[i - 1] == (MaxDelay - MinDelay) / (count - 1) as real
  {
    var step := (MaxDelay - MinDelay) / (count - 1) as real;
    seq(count, i requires 0 <= i < count => MinDelay + (i as real) * step)
  }

  /** Over the reals the delay axis hits both ends exactly and increases. */
  lemma DelayAxisSpan(count: nat)
    requires count >= 2
    ensures DelayAxis(count)[0] == MinDelay
    ensures DelayAxis(count)[count - 1] == MaxDelay
    ensures StrictlyIncreasing(DelayAxis(count))
  {
    var d := DelayAxis(count);
    var step := (MaxDelay - MinDelay) / (count - 1) as real;
    assert step > 0.0;
    assert d[count - 1] == MinDelay + ((count - 1) as real) * step;
    forall a, b | 0 <= a < b < count ensures d[a] < d[b] {
      assert d[b] - d[a] == (b - a) as real * step;
    }
  }
}
