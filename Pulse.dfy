/**
 * Laser pulses (src/App.jsx:87-115): `getEnvelopeAndPhase`, the per-sample
 * Gaussian envelope, chirp phase and total phase of one pulse on the time
 * grid, and the stride-10 subsampling of the envelope intensities for display.
 */
module Pulse {
  import opened Numerics
  import opened Grid

  /** Wavelength (nm), intensity FWHM (fs), delay (fs), raw chirp parameter. */
  datatype PulseSpec = PulseSpec(lam: real, fwhm: real, delay: real, chirp: real)

  /** What `getEnvelopeAndPhase` returns for one time sample. */
  datatype Sample = Sample(env: real, chirpPhase: real, phase: real)

  /** The conversions in the envelope divide by the wavelength and the width. */
  predicate Shaped(m: Transcendentals, p: PulseSpec)
  {
    p.lam != 0.0 && p.fwhm != 0.0 && m.sqrt(m.log(2.0)) != 0.0
  }

  /** Sigma of the pulse in seconds. */
  function Sigma(m: Transcendentals, p: PulseSpec): (sigma: real)
    requires Shaped(m, p)
    ensures sigma != 0.0
  {
    FwhmToSigma(m, p.fwhm * 1e-15)
  }

  /** Chirp rate `b = chirp * 1e27` rad/s^2 and delay `t0 = delay * 1e-15` s. */
  function ChirpRate(p: PulseSpec): real { p.chirp * 1e27 }
  function Center(p: PulseSpec): real { p.delay * 1e-15 }

  /** `exp(-tau^2 / (2 sigma^2))`. */
  function Gaussian(m: Transcendentals, tau: real, sigma: real): real
    requires sigma != 0.0
  {
    m.exp(-(tau * tau) / (2.0 * (sigma * sigma)))
  }

  /** The sample at time `ti`, with `tau = ti - t0`. */
  function SampleAt(m: Transcendentals, p: PulseSpec, ti: real): Sample
    requires Shaped(m, p)
  {
    var tau := ti - Center(p);
    var sigma := Sigma(m, p);
    var chirpPhase := 0.5 * ChirpRate(p) * (tau * tau);
    Sample(Gaussian(m, tau, sigma), chirpPhase, -LamNmToW(m, p.lam) * ti + chirpPhase)
  }

  /** `getEnvelopeAndPhase(params)` over the grid `t`: the total phase is the
      carrier phase `-w0 t` plus the quadratic chirp phase
      `0.5 b (t - t0)^2`, which vanishes at the pulse centre. */
  function Envelope(m: Transcendentals, p: PulseSpec, t: seq<real>): (r: seq<Sample>)
    requires Shaped(m, p)
    ensures |r| == |t|
    ensures forall i :: 0 <= i < |t| ==>
      r[i].phase == -LamNmToW(m, p.lam) * t[i] + r[i].chirpPhase &&
      (t[i] == Center(p) ==> r[i].chirpPhase == 0.0)
  {
    seq(|t|, i requires 0 <= i < |t| => SampleAt(m, p, t[i]))
  }

  /** An unchirped pulse has no chirp phase, so its phase is the carrier's. */
  lemma UnchirpedPhase(m: Transcendentals, p: PulseSpec, t: seq<real>)
    requires Shaped(m, p) && p.chirp == 0.0
    ensures forall i :: 0 <= i < |t| ==>
      Envelope(m, p, t)[i].chirpPhase == 0.0 &&
      Envelope(m, p, t)[i].phase == -LamNmToW(m, p.lam) * t[i]
  {
    forall i | 0 <= i < |t|
      ensures Envelope(m, p, t)[i].chirpPhase == 0.0
    {
      assert ChirpRate(p) == 0.0;
    }
  }

  /** The envelope does not depend on the wavelength or the chirp of the pulse. */
  lemma EnvelopeShapeOnly(m: Transcendentals, p: PulseSpec, q: PulseSpec, t: seq<real>)
    requires Shaped(m, p) && Shaped(m, q)
    requires p.fwhm == q.fwhm && p.delay == q.delay
    ensures forall i :: 0 <= i < |t| ==> Envelope(m, p, t)[i].env == Envelope(m, q, t)[i].env
  {
    assert Sigma(m, p) == Sigma(m, q);
  }

  /** With a positive exponential every envelope sample is positive. */
  lemma EnvelopePositive(m: Transcendentals, p: PulseSpec, t: seq<real>)
    requires Shaped(m, p) && Sound(m)
    ensures forall i :: 0 <= i < |t| ==> Envelope(m, p, t)[i].env > 0.0
  {
  }

  /** Number of indices `0, 10, 20, ...` below `n`. */
  function PlotCount(n: nat): (c: nat)
    ensures forall j :: 0 <= j < c ==> 10 * j < n
    ensures 10 * c >= n
  {
    (n + 9) / 10
  }

  /** Every tenth time, in femtoseconds. */
  function PlotTimes(t: seq<real>): (r: seq<real>)
    ensures |r| == PlotCount(|t|)
    ensures forall j :: 0 <= j < |r| ==> r[j] * 1e-15 == t[10 * j]
  {
    seq(PlotCount(|t|), j requires 0 <= j < PlotCount(|t|) => t[10 * j] * 1e15)
  }

  /** Every tenth envelope intensity `env^2`. */
  function PlotIntensities(env: seq<Sample>): (r: seq<real>)
    ensures |r| == PlotCount(|env|)
    ensures forall j :: 0 <= j < |r| ==> r[j] >= 0.0
  {
    seq(PlotCount(|env|), j requires 0 <= j < PlotCount(|env|) => Square(env[10 * j].env))
  }

  /** The `for (i = 0; i < n; i += plotStep)` loop pushing onto `pulseTime`,
      `pumpInt`, `stokesInt` and `probeInt`. */
  method SubsampleTraces(t: seq<real>, envP: seq<Sample>, envS: seq<Sample>, envPr: seq<Sample>)
    returns (pulseTime: seq<real>, pumpInt: seq<real>, stokesInt: seq<real>, probeInt: seq<real>)
    requires |envP| == |envS| == |envPr| == |t|
    ensures pulseTime == PlotTimes(t)
    ensures pumpInt == PlotIntensities(envP)
    ensures stokesInt == PlotIntensities(envS)
    ensures probeInt == PlotIntensities(envPr)
  {
    var n := |t|;
    pulseTime, pumpInt, stokesInt, probeInt := [], [], [], [];
    var i := 0;
    while i < n
      invariant i == 10 * |pulseTime| && |pulseTime| <= PlotCount(n)
      invariant pulseTime == PlotTimes(t)[..|pulseTime|]
      invariant pumpInt == PlotIntensities(envP)[..|pulseTime|]
      invariant stokesInt == PlotIntensities(envS)[..|pulseTime|]
      invariant probeInt == PlotIntensities(envPr)[..|pulseTime|]
    {
      pulseTime := pulseTime + [t[i] * 1e15];
      pumpInt := pumpInt + [Square(envP[i].env)];
      stokesInt := stokesInt + [Square(envS[i].env)];
      probeInt := probeInt + [Square(envPr[i].env)];
      i := i + 10;
    }
    assert |pulseTime| == PlotCount(n);
  }
}
