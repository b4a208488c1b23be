/**
 * The whole `useMemo` simulation (src/App.jsx:61-245): from the three laser
 * pulses, the vibrational modes, the NRB level and the `normalize` switch to
 * the nine arrays the plots show. `SimulationSpec` composes the stage
 * functions of the other modules; `Simulate` runs the same pipeline the way
 * src/App.jsx:61-245 does, filling `F_eff`, `rho`, `P_re` and `P_im` in place.
 */
module Simulation {
  import opened Numerics
  import opened Grid
  import opened Interpolation
  import opened Susceptibility
  import opened Pulse
  import opened Excitation
  import opened Convolution
  import opened Normalization
  import opened Spectra

  /** The pump, Stokes and probe pulses. */
  datatype Lasers = Lasers(pump: PulseSpec, stokes: PulseSpec, probe: PulseSpec)

  /** Time samples `n`, delay samples `fastN` and Raman bins. */
  datatype Sizes = Sizes(n: nat, fastN: nat, bins: nat)

  /** The sizes the component uses. */
  const SourceSizes: Sizes := Sizes(32768, 6000, 1500)

  /** The object the `useMemo` returns. */
  datatype Output = Output(
    shiftAxis: seq<real>,
    carsIntensity: seq<real>,
    fastCarsX: seq<real>,
    fastCarsSpecNorm: seq<real>,
    excProfileNorm: seq<real>,
    pulseTime: seq<real>,
    pumpInt: seq<real>,
    stokesInt: seq<real>,
    probeInt: seq<real>)

  /** What the arithmetic of the pipeline needs: a non-empty time grid, at
      least two delays (`dTau` divides by `fastN - 1`), and non-zero
      wavelengths, widths, dephasing times and transcendental divisors. */
  predicate Runnable(m: Transcendentals, sz: Sizes, lasers: Lasers, modes: seq<Mode>)
  {
    sz.n > 0 && sz.fastN >= 2 && Defined(m) && Dephasing(modes) &&
    Shaped(m, lasers.pump) && Shaped(m, lasers.stokes) && Shaped(m, lasers.probe)
  }

  /** `delays_s.map(d => d * 1e12)`. */
  function Picoseconds(d: seq<real>): (r: seq<real>)
    ensures |r| == |d|
    ensures forall i :: 0 <= i < |d| ==> r[i] * 1e-12 == d[i]
  {
    seq(|d|, i requires 0 <= i < |d| => d[i] * 1e12)
  }

  /** `chiTotal` on the time grid. */
  function Kernel(m: Transcendentals, sz: Sizes, modes: seq<Mode>, nrb: real): (chi: seq<real>)
    requires Defined(m) && Dephasing(modes)
    ensures |chi| == sz.n
  {
    ChiTotal(m, modes, nrb, TimeGrid(sz.n))
  }

  /** `F_eff` on the time grid. */
  function Field(m: Transcendentals, sz: Sizes, lasers: Lasers): (f: seq<real>)
    requires Shaped(m, lasers.pump) && Shaped(m, lasers.stokes)
    ensures |f| == sz.n
  {
    var t := TimeGrid(sz.n);
    Drive(m, Envelope(m, lasers.pump, t), Envelope(m, lasers.stokes, t))
  }

  /** The envelope products the window scan compares with the threshold. */
  function Overlap(m: Transcendentals, sz: Sizes, lasers: Lasers): (prod: seq<real>)
    requires Shaped(m, lasers.pump) && Shaped(m, lasers.stokes)
    ensures |prod| == sz.n
  {
    var t := TimeGrid(sz.n);
    EnvProduct(Envelope(m, lasers.pump, t), Envelope(m, lasers.stokes, t))
  }

  /** `thresh = maxF * 1e-5`. */
  function Threshold(m: Transcendentals, sz: Sizes, lasers: Lasers): (thresh: real)
    requires Shaped(m, lasers.pump) && Shaped(m, lasers.stokes)
    ensures thresh >= 0.0
    ensures forall i :: 0 <= i < sz.n ==> Abs(Field(m, sz, lasers)[i]) * WindowRatio <= thresh
    ensures thresh == 0.0 || exists i :: 0 <= i < sz.n && thresh == Abs(Field(m, sz, lasers)[i]) * WindowRatio
  {
    Peak(Magnitudes(Field(m, sz, lasers))) * WindowRatio
  }

  /** `[k_start, k_end]`, inside the grid. */
  function Window(m: Transcendentals, sz: Sizes, lasers: Lasers): (w: (int, int))
    requires sz.n > 0 && Shaped(m, lasers.pump) && Shaped(m, lasers.stokes)
    ensures 0 <= w.0 <= sz.n && 0 <= w.1 < sz.n
  {
    var prod, thresh := Overlap(m, sz, lasers), Threshold(m, sz, lasers);
    WindowCharacterized(prod, thresh);
    (StartAfter(prod, thresh, sz.n), EndAfter(prod, thresh, sz.n))
  }

  /** `rho` on the time grid: all zero when the window is empty. */
  function Rho(m: Transcendentals, sz: Sizes, lasers: Lasers, modes: seq<Mode>, nrb: real): (rho: seq<real>)
    requires Runnable(m, sz, lasers, modes)
    ensures |rho| == sz.n
    ensures Window(m, sz, lasers).0 > Window(m, sz, lasers).1 ==> forall i :: 0 <= i < sz.n ==> rho[i] == 0.0
  {
    var w := Window(m, sz, lasers);
    Coherence(Kernel(m, sz, modes, nrb), Field(m, sz, lasers), w.0, w.1, sz.n / 2)
  }

  /** `excProfileRaw`. */
  function ExcitationRawOf(m: Transcendentals, sz: Sizes, lasers: Lasers): (raw: seq<real>)
    requires sz.n > 0 && Shaped(m, lasers.pump) && Shaped(m, lasers.stokes)
    ensures |raw| == sz.bins
  {
    var w := Window(m, sz, lasers);
    ExcitationRaw(m, Field(m, sz, lasers), TimeGrid(sz.n), RamanAxis(sz.bins), w.0, w.1)
  }

  /** `sigAC`: the AC-coupled interferogram, which sums to zero. */
  function Interferogram(m: Transcendentals, sz: Sizes, lasers: Lasers, modes: seq<Mode>, nrb: real): (sig: seq<real>)
    requires Runnable(m, sz, lasers, modes)
    ensures |sig| == sz.fastN
    ensures Sum(sig) == 0.0
  {
    var sigTotal := Resampled(DelayAxis(sz.fastN), TimeGrid(sz.n), Rho(m, sz, lasers, modes, nrb));
    ACCoupledSumsToZero(sigTotal);
    ACCouple(sigTotal)
  }

  /** `fastCarsSpecRaw`: a power spectrum, never negative. */
  function FastRawOf(m: Transcendentals, sz: Sizes, lasers: Lasers, modes: seq<Mode>, nrb: real, normalize: bool): (raw: seq<real>)
    requires Runnable(m, sz, lasers, modes)
    ensures |raw| == sz.bins
    ensures forall j :: 0 <= j < sz.bins ==> raw[j] >= 0.0
  {
    var excRaw := ExcitationRawOf(m, sz, lasers);
    FastRawNonNegative(m, Interferogram(m, sz, lasers, modes, nrb), DelayAxis(sz.fastN), RamanAxis(sz.bins),
                       excRaw, Peak(excRaw), normalize);
    FastRaw(m, Interferogram(m, sz, lasers, modes, nrb), DelayAxis(sz.fastN), RamanAxis(sz.bins), excRaw, Peak(excRaw), normalize)
  }

  /** The simulation's result, stage by stage. */
  function SimulationSpec(m: Transcendentals, sz: Sizes, lasers: Lasers, modes: seq<Mode>, nrb: real, normalize: bool): (out: Output)
    requires Runnable(m, sz, lasers, modes)
    ensures |out.shiftAxis| == |out.carsIntensity| == |out.fastCarsSpecNorm| == |out.excProfileNorm| == sz.bins
    ensures |out.fastCarsX| == sz.fastN
    ensures |out.pulseTime| == |out.pumpInt| == |out.stokesInt| == |out.probeInt| == PlotCount(sz.n)
  {
    var t := TimeGrid(sz.n);
    var envPr := Envelope(m, lasers.probe, t);
    var rho := Rho(m, sz, lasers, modes, nrb);
    var axis := RamanAxis(sz.bins);
    var excRaw := ExcitationRawOf(m, sz, lasers);
    var fastRaw := FastRawOf(m, sz, lasers, modes, nrb, normalize);
    Output(
      axis,
      CarsSpectrum(m, PolarizationRe(m, rho, envPr), PolarizationIm(m, rho, envPr), t, axis),
      Picoseconds(DelayAxis(sz.fastN)),
      NormalizeByMax(fastRaw, Peak(fastRaw)),
      NormalizeByMax(excRaw, Peak(excRaw)),
      PlotTimes(t),
      PlotIntensities(Envelope(m, lasers.pump, t)),
      PlotIntensities(Envelope(m, lasers.stokes, t)),
      PlotIntensities(envPr))
  }

  /** The `useMemo` body, in the order of src/App.jsx:61-245; the four `Float64Array`s are
      fresh arrays filled in place. */
  method Simulate(m: Transcendentals, sz: Sizes, lasers: Lasers, modes: seq<Mode>, nrb: real, normalize: bool)
    returns (out: Output)
    requires Runnable(m, sz, lasers, modes)
    ensures out == SimulationSpec(m, sz, lasers, modes, nrb, normalize)
  {
    // 1. Time grid and response kernels.
    var n := sz.n;
    var half := n / 2;
    var t := TimeGrid(n);
    var chiTotal := ChiTotal(m, modes, nrb, t);

    // Pulses and their display traces.
    var envP := Envelope(m, lasers.pump, t);
    var envS := Envelope(m, lasers.stokes, t);
    var envPr := Envelope(m, lasers.probe, t);
    var pulseTime, pumpInt, stokesInt, probeInt := SubsampleTraces(t, envP, envS, envPr);

    // 2. Driving field, active window and coherence.
    var fEff := new real[n];
    var maxF := FillDrive(m, envP, envS, fEff);
    var field := fEff[..];
    assert field == Field(m, sz, lasers);
    assert maxF == Peak(Magnitudes(Field(m, sz, lasers)));
    var thresh := maxF * WindowRatio;
    assert thresh == Threshold(m, sz, lasers);
    assert EnvProduct(envP, envS) == Overlap(m, sz, lasers);
    var kStart, kEnd := ActiveWindow(envP, envS, thresh);
    assert (kStart, kEnd) == Window(m, sz, lasers);
    var rho := new real[n];
    Convolve(chiTotal, field, kStart, kEnd, half, rho);
    var coherence := rho[..];
    assert coherence == Rho(m, sz, lasers, modes, nrb);

    // Excitation profile.
    var axis := RamanAxis(sz.bins);
    var excRaw, maxExc := ExcitationProfile(m, field, t, axis, kStart, kEnd);
    assert excRaw == ExcitationRawOf(m, sz, lasers);
    var excNorm := NormalizeByMax(excRaw, maxExc);

    // 3. FAST-CARS interferogram and 4. its spectrum.
    var delays := DelayAxis(sz.fastN);
    var sigTotal := Resample(delays, t, coherence);
    var sigAC := ACCouple(sigTotal);
    assert sigAC == Interferogram(m, sz, lasers, modes, nrb);
    var fastRaw, maxBand := FastSpectrum(m, sigAC, delays, axis, excRaw, maxExc, normalize);
    assert fastRaw == FastRawOf(m, sz, lasers, modes, nrb, normalize);
    var fastNorm := NormalizeByMax(fastRaw, maxBand);

    // 5. Conventional fs-CARS.
    var pRe := new real[n];
    var pIm := new real[n];
    FillPolarization(m, coherence, envPr, pRe, pIm);
    var cars := CarsIntensity(m, pRe[..], pIm[..], t, axis);

    out := Output(axis, cars, Picoseconds(delays), fastNorm, excNorm, pulseTime, pumpInt, stokesInt, probeInt);
  }

  /** Both normalized spectra lie in [0, 1]; each reaches 1 at some bin unless
      its raw maximum is 0, in which case it is all zero (`|| 1`). */
  lemma NormalizedSpectra(m: Transcendentals, sz: Sizes, lasers: Lasers, modes: seq<Mode>, nrb: real, normalize: bool)
    requires Runnable(m, sz, lasers, modes)
    ensures var out := SimulationSpec(m, sz, lasers, modes, nrb, normalize);
      forall j :: 0 <= j < sz.bins ==> 0.0 <= out.excProfileNorm[j] <= 1.0 && 0.0 <= out.fastCarsSpecNorm[j] <= 1.0
    ensures var out, exc := SimulationSpec(m, sz, lasers, modes, nrb, normalize), ExcitationRawOf(m, sz, lasers);
      (Peak(exc) > 0.0 ==> exists j :: 0 <= j < sz.bins && out.excProfileNorm[j] == 1.0) &&
      (Peak(exc) == 0.0 ==> forall j :: 0 <= j < sz.bins ==> out.excProfileNorm[j] == 0.0)
    ensures var out, fast := SimulationSpec(m, sz, lasers, modes, nrb, normalize), FastRawOf(m, sz, lasers, modes, nrb, normalize);
      (Peak(fast) > 0.0 ==> exists j :: 0 <= j < sz.bins && out.fastCarsSpecNorm[j] == 1.0) &&
      (Peak(fast) == 0.0 ==> forall j :: 0 <= j < sz.bins ==> out.fastCarsSpecNorm[j] == 0.0)
  {
    var exc := ExcitationRawOf(m, sz, lasers);
    var fast := FastRawOf(m, sz, lasers, modes, nrb, normalize);
    NormalizedToUnit(exc);
    NormalizedToUnit(fast);
  }

  /** Over the reals (positive exponentials, |cos| <= 1) the active window is
      never empty: `k_start <= k_end`. */
  lemma WindowOpen(m: Transcendentals, sz: Sizes, lasers: Lasers)
    requires sz.n > 0 && Shaped(m, lasers.pump) && Shaped(m, lasers.stokes) && Sound(m)
    ensures Window(m, sz, lasers).0 <= Window(m, sz, lasers).1
  {
    var t := TimeGrid(sz.n);
    var envP, envS := Envelope(m, lasers.pump, t), Envelope(m, lasers.stokes, t);
    EnvelopePositive(m, lasers.pump, t);
    EnvelopePositive(m, lasers.stokes, t);
    WindowNeverEmpty(m, envP, envS);
    WindowCharacterized(Overlap(m, sz, lasers), Threshold(m, sz, lasers));
  }

  /** Without the non-resonant background the kernel is causal, so the
      coherence is zero at every grid time before the window opens. */
  lemma QuietBeforeExcitation(m: Transcendentals, sz: Sizes, lasers: Lasers, modes: seq<Mode>)
    requires Runnable(m, sz, lasers, modes)
    ensures forall i :: 0 <= i < Window(m, sz, lasers).0 && i < sz.n ==> Rho(m, sz, lasers, modes, 0.0)[i] == 0.0
  {
    var t := TimeGrid(sz.n);
    var chi := Kernel(m, sz, modes, 0.0);
    forall c | 0 <= c < |chi| && c < sz.n / 2 ensures chi[c] == 0.0 {
      assert t[c] < 0.0;
      assert ChiR(m, modes, t)[c] == 0.0 && ChiNR(m, 0.0, t)[c] == 0.0;
    }
    var w := Window(m, sz, lasers);
    CausalCoherenceQuietBeforeWindow(chi, Field(m, sz, lasers), w.0, w.1, sz.n / 2);
  }

  /** Scaling every mode strength by `c`, without background, scales the
      coherence by `c`: the response is linear in the strengths. */
  lemma RhoScales(m: Transcendentals, sz: Sizes, lasers: Lasers, modes: seq<Mode>, c: real)
    requires Runnable(m, sz, lasers, modes)
    ensures Runnable(m, sz, lasers, ScaleStrengths(modes, c))
    ensures Rho(m, sz, lasers, ScaleStrengths(modes, c), 0.0) == Scaled(Rho(m, sz, lasers, modes, 0.0), c)
  {
    var t, scaled := TimeGrid(sz.n), ScaleStrengths(modes, c);
    ChiRScales(m, modes, c, t);
    ChiTotalParts(m, modes, 0.0, t);
    ChiTotalParts(m, scaled, 0.0, t);
    assert Kernel(m, sz, scaled, 0.0) == Scaled(Kernel(m, sz, modes, 0.0), c);
    var w := Window(m, sz, lasers);
    CoherenceScales(Kernel(m, sz, modes, 0.0), c, Field(m, sz, lasers), w.0, w.1, sz.n / 2);
  }

  /** Without coherence nothing reaches the detector: a flat interferogram
      and all-zero CARS and FAST-CARS spectra (given `sqrt(0) = 0`). */
  lemma QuietCoherenceNoSignal(m: Transcendentals, sz: Sizes, lasers: Lasers, modes: seq<Mode>, nrb: real, normalize: bool)
    requires Runnable(m, sz, lasers, modes) && m.sqrt(0.0) == 0.0
    requires forall i :: 0 <= i < sz.n ==> Rho(m, sz, lasers, modes, nrb)[i] == 0.0
    ensures forall i :: 0 <= i < sz.fastN ==> Interferogram(m, sz, lasers, modes, nrb)[i] == 0.0
    ensures var out := SimulationSpec(m, sz, lasers, modes, nrb, normalize);
      forall j :: 0 <= j < sz.bins ==> out.carsIntensity[j] == 0.0 && out.fastCarsSpecNorm[j] == 0.0
  {
    var t := TimeGrid(sz.n);
    var rho := Rho(m, sz, lasers, modes, nrb);
    var delays := DelayAxis(sz.fastN);
    var sigTotal := Resampled(delays, t, rho);
    forall i | 0 <= i < sz.fastN ensures sigTotal[i] == 0.0 {
      InterpolateWithin(delays[i], t, rho, 0.0, 0.0);
    }
    ACCoupleConstant(sigTotal, 0.0);

    var sig := Interferogram(m, sz, lasers, modes, nrb);
    var axis := RamanAxis(sz.bins);
    var excRaw := ExcitationRawOf(m, sz, lasers);
    FastSilentSignal(m, sig, delays, axis, excRaw, Peak(excRaw), normalize);
    NormalizedToUnit(FastRawOf(m, sz, lasers, modes, nrb, normalize));

    CarsQuiet(m, rho, Envelope(m, lasers.probe, t), t, axis);
  }

  /** With every mode silenced and no background there is nothing to see:
      no coherence, a flat interferogram, and all-zero CARS and FAST-CARS
      spectra (given `sqrt(0) = 0`). */
  lemma NoSampleNoSignal(m: Transcendentals, sz: Sizes, lasers: Lasers, modes: seq<Mode>, normalize: bool)
    requires Runnable(m, sz, lasers, modes) && m.sqrt(0.0) == 0.0
    requires forall j :: 0 <= j < |modes| ==> modes[j].strength == 0.0
    ensures forall i :: 0 <= i < sz.n ==> Rho(m, sz, lasers, modes, 0.0)[i] == 0.0
    ensures forall i :: 0 <= i < sz.fastN ==> Interferogram(m, sz, lasers, modes, 0.0)[i] == 0.0
    ensures var out := SimulationSpec(m, sz, lasers, modes, 0.0, normalize);
      forall j :: 0 <= j < sz.bins ==> out.carsIntensity[j] == 0.0 && out.fastCarsSpecNorm[j] == 0.0
  {
    var chi := Kernel(m, sz, modes, 0.0);
    SilentModesKernel(m, modes, TimeGrid(sz.n));
    assert forall c :: 0 <= c < |chi| ==> chi[c] == 0.0;
    var w := Window(m, sz, lasers);
    CoherenceOfQuietKernel(chi, Field(m, sz, lasers), w.0, w.1, sz.n / 2);
    QuietCoherenceNoSignal(m, sz, lasers, modes, 0.0, normalize);
  }

  /** An empty active window (`k_start > k_end`, which needs an envelope that
      underflows) leaves every output but the axes and pulse traces zero:
      no coherence, a flat interferogram, and all-zero excitation profile,
      CARS and FAST-CARS spectra (given `sqrt(0) = 0`). */
  lemma EmptyWindowNoSignal(m: Transcendentals, sz: Sizes, lasers: Lasers, modes: seq<Mode>, nrb: real, normalize: bool)
    requires Runnable(m, sz, lasers, modes) && m.sqrt(0.0) == 0.0
    requires Window(m, sz, lasers).0 > Window(m, sz, lasers).1
    ensures forall i :: 0 <= i < sz.n ==> Rho(m, sz, lasers, modes, nrb)[i] == 0.0
    ensures forall i :: 0 <= i < sz.fastN ==> Interferogram(m, sz, lasers, modes, nrb)[i] == 0.0
    ensures var out := SimulationSpec(m, sz, lasers, modes, nrb, normalize);
      forall j :: 0 <= j < sz.bins ==>
        out.excProfileNorm[j] == 0.0 && out.carsIntensity[j] == 0.0 && out.fastCarsSpecNorm[j] == 0.0
  {
    QuietCoherenceNoSignal(m, sz, lasers, modes, nrb, normalize);
    var w := Window(m, sz, lasers);
    var exc := ExcitationRawOf(m, sz, lasers);
    ExcitationEmptyWindow(m, Field(m, sz, lasers), TimeGrid(sz.n), RamanAxis(sz.bins), w.0, w.1);
    NormalizedToUnit(exc);
  }
}
