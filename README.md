# Sim_CARS simulation core in Dafny

This project models the simulation pipeline of a single-page React
simulator of coherent anti-Stokes Raman scattering (CARS) and of its
time-domain FAST-CARS variant. The pipeline is the body of the component's
`useMemo`, together with the helper `interp` above it. From three laser
pulses (pump, Stokes, probe), a list of vibrational modes, a non-resonant
background level and a `normalize` switch, it computes nine arrays:

- the Raman-shift axis;
- the conventional CARS spectrum;
- the FAST-CARS delay axis in picoseconds;
- the normalized FAST-CARS spectrum;
- the normalized laser excitation profile;
- down-sampled pulse traces for display.

The model works over Dafny `real`. The transcendental functions `exp`,
`sin`, `cos`, `sqrt` and `log`, and the value of pi, are uninterpreted: they
are the fields of a `Transcendentals` record that every member receives as a
parameter. Lemmas that need a fact about them say so in their `requires`:

- `Defined`: the two divisors built from them are non-zero.
- `Sound`: `exp > 0`, `|cos| <= 1`, `sqrt(0) = 0`, `pi > 0`.
- `Rotation`: `cos 0 = 1`, `sin 0 = 0`, `cos² + sin² = 1`.

The sizes (32768 time samples, 6000 delays, 1500 Raman bins) stay symbolic
in a `Sizes` record. `Simulation.SourceSizes` holds the component's values.

Most code that loops in the source is modelled as methods with loops. Each
method is proved equal to a specification function, and the properties are
proved about those functions. Two accumulations are recursive functions
instead of loops: the `forEach` over the modes at src/App.jsx:72-75 is
`Susceptibility.Resonance`, and the `reduce` at src/App.jsx:179 is
`Numerics.Sum`.

- `Float64Array`s the component fills in place are `array<real>`s. These are
  `F_eff` (`Excitation.FillDrive`), `rho` (`Convolution.Convolve`) and
  `P_re`/`P_im` (`Spectra.FillPolarization`).
- `interp`'s scan, the trace subsampling and the running maxima `maxF`,
  `maxExc` and `maxBandVal` are loops.
- The window scan for `k_start`/`k_end` is a loop.
- Each projection loop inside a `map` callback is a loop.

The `Array.from`/`map` constructions are functions: the grid, the axes,
`chiR`, `chiNR`, `chiTotal`, the pulse envelopes, the mean and the
normalizations.

`Simulation.Simulate` runs the whole body in the source's order. It is
proved to return `Simulation.SimulationSpec`, the composition of the stage
functions.

Modules:

- `Numerics` provides the transcendentals record, the left fold `Sum` of
  `reduce((a, b) => a + b, 0)` and the running maximum `Peak`.
- `Grid` provides the unit conversions, the time grid and the Raman and
  delay axes.
- `Interpolation` models `interp` and the resampling of `rho` onto the
  delays.
- `Susceptibility` models the resonant and non-resonant kernels.
- `Pulse` models `getEnvelopeAndPhase` and the stride-10 traces.
- `Excitation` models `F_eff`, `maxF` and the active window.
- `Convolution` models the window-restricted convolution giving `rho`.
- `Normalization` models AC coupling, normalization by the maximum and the
  deconvolution guard.
- `Spectra` models the excitation, FAST-CARS and CARS projection loops.
- `Simulation` models the whole pipeline.

## Model

| member | source | states |
|---|---|---|
| `Numerics.Sum` | src/App.jsx:179 | the left fold `reduce((a, b) => a + b, 0)`; a signal with no negative sample has a non-negative sum |
| `Numerics.Peak` | src/App.jsx:119-125 | the running maximum started at 0 is non-negative, bounds every element, and is 0 or attained by some element |
| `Grid.FwhmToSigma` | src/App.jsx:11 | `2·sqrt(ln 2)·sigma` equals the FWHM; a non-zero width gives a non-zero sigma |
| `Grid.LamNmToW` | src/App.jsx:12 | the angular frequency times the wavelength in metres is `2·pi·c` |
| `Grid.CmToRadS` | src/App.jsx:10 | a zero shift gives frequency 0 and, with pi > 0, the frequency is positive exactly when the shift is |
| `Grid.CmToRadSIncreasing` | src/App.jsx:10 | a larger wavenumber gives a larger angular frequency (pi > 0) |
| `Grid.TimeGrid` | src/App.jsx:63-66 | `n` samples; sample `floor(n/2)` is time 0; a sample is negative exactly when its index is below `floor(n/2)` |
| `Grid.TimeGridIncreasing` | src/App.jsx:66 | the time grid is strictly increasing, which `interp` relies on |
| `Grid.TimeGridDifference` | src/App.jsx:66 | the kernel index `i - k + half` holds time `t[i] - t[k]`, so the guarded sum is a time convolution |
| `Grid.RamanAxis` | src/App.jsx:151 | `count` shifts starting at 500 in steps of 2, ending at `500 + 2(count-1)` |
| `Grid.DelayAxis` | src/App.jsx:170-174 | `fastN` delays, starting at `minDelay` and spaced by the constant step `dTau = (maxDelay - minDelay)/(fastN - 1)` |
| `Grid.DelayAxisSpan` | src/App.jsx:170-174 | over the reals the delay axis starts at -0.5 ps, ends at 7.5 ps and is strictly increasing |
| `Interpolation.LerpBetween` | src/App.jsx:20-22 | the interpolated value lies between the two bracket values and equals the right one at the right knot |
| `Interpolation.Bracket` | src/App.jsx:18-19 | the scan stops inside the array at the first `i` with `xp[i] < x <= xp[i+1]`; it needs no monotonicity |
| `Interpolation.Interp` | src/App.jsx:15-23 | the clamps return `fp[0]` when `x <= xp[0]` and `fp[last]` when `x >= xp[last]`; otherwise the loop lands on the bracket and the result is `Interpolate` |
| `Interpolation.Interpolate` | src/App.jsx:15-23 | below the first knot the result is `fp[0]`, above the last `fp[last]`; strictly inside the range it is the line through some bracket `xp[i] < x <= xp[i+1]` and lies between `fp[i]` and `fp[i+1]` |
| `Interpolation.InterpolateOnInterval` | src/App.jsx:18-22 | on a strictly increasing grid, the bracket containing `x` is the one used |
| `Interpolation.InterpolateAtKnot` | src/App.jsx:15-23 | on a strictly increasing grid, a query equal to a knot returns that knot's value exactly |
| `Interpolation.InterpolateWithin` | src/App.jsx:15-23 | if every `fp` value lies in `[lo, hi]`, so does the result |
| `Interpolation.InterpolateOnTimeGrid` | src/App.jsx:176-177 | on the program's time grid, `interp` at a grid time returns the `rho` sample there exactly |
| `Interpolation.Resample` | src/App.jsx:176-177 | `sigTotal` is `interp` of `rho` at every delay |
| `Susceptibility.ChiR` | src/App.jsx:69-77 | the resonant kernel is 0 at every negative time |
| `Susceptibility.ChiNR` | src/App.jsx:79-83 | the non-resonant kernel is 0 everywhere when `nrb = 0` |
| `Susceptibility.ChiTotal` | src/App.jsx:84 | at every negative time `chiTotal` is the non-resonant kernel alone, and it is 0 there when `nrb = 0` |
| `Susceptibility.ChiTotalParts` | src/App.jsx:84 | `chiTotal[i] = chiR[i] + chiNR[i]`; it is `chiR` when `nrb = 0`, `chiNR` when every mode is silent, and `chiNR` at negative times |
| `Susceptibility.Resonance` | src/App.jsx:71-76 | a single mode contributes exactly its damped oscillation `strength·exp(-t/T2)·sin(w·t)` |
| `Susceptibility.SilentModes` | src/App.jsx:71-76 | with no modes or only strength-0 modes the summed response is 0 |
| `Susceptibility.SilentModesKernel` | src/App.jsx:69-77 | with no modes or only strength-0 modes `chiR` is 0 everywhere |
| `Susceptibility.ResonanceSplits` | src/App.jsx:72-75 | the response of two mode lists joined is the sum of their responses |
| `Susceptibility.ResonanceOrderFree` | src/App.jsx:72-75 | any permutation of the mode list (the same multiset of modes) gives the same response |
| `Susceptibility.ResonanceScales` | src/App.jsx:74 | scaling every strength by `c` scales the response by `c` |
| `Susceptibility.ChiRScales` | src/App.jsx:69-77 | scaling every strength by `c` scales the whole resonant kernel by `c` |
| `Pulse.Sigma` | src/App.jsx:89 | a pulse with non-zero FWHM has a non-zero sigma |
| `Pulse.Envelope` | src/App.jsx:87-98 | every sample's phase is the carrier phase `-w0·t` plus the chirp phase, and the chirp phase is 0 at the pulse centre |
| `Pulse.UnchirpedPhase` | src/App.jsx:91-96 | with zero chirp the chirp phase is 0 and the phase is the carrier's |
| `Pulse.EnvelopeShapeOnly` | src/App.jsx:89-94 | the envelope depends only on the width and the delay, not on the wavelength or the chirp |
| `Pulse.EnvelopePositive` | src/App.jsx:94 | with a positive `exp` every envelope sample is positive |
| `Pulse.PlotCount` | src/App.jsx:104-110 | exactly the indices `0, 10, 20, ...` below `n` are visited |
| `Pulse.PlotTimes` | src/App.jsx:111 | one time per visited index; entry `j` converted back from fs (times 1e-15) is `t_grid[10j]` |
| `Pulse.PlotIntensities` | src/App.jsx:112-114 | one intensity `env²` per visited index, each non-negative |
| `Pulse.SubsampleTraces` | src/App.jsx:104-115 | the push loop yields the stride-10 times in fs and the three stride-10 intensity traces |
| `Excitation.FillDrive` | src/App.jsx:117-126 | `F_eff` is filled with `env_p·env_s·cos(phase_p - phase_s)` and `maxF` is the peak of the magnitudes |
| `Excitation.ActiveWindow` | src/App.jsx:118-135 | the scan from the sentinels `n` and 0 yields the running least and greatest qualifying index |
| `Excitation.StartIsLeast` | src/App.jsx:131-132 | `k_start` is the least index whose envelope product exceeds the threshold, or `n` when none does |
| `Excitation.EndIsGreatest` | src/App.jsx:131-133 | `k_end` is the greatest index whose envelope product exceeds the threshold, or 0 when none does |
| `Excitation.WindowCharacterized` | src/App.jsx:128-135 | the window is in bounds; it is non-empty exactly when some product exceeds the threshold; nothing outside it qualifies; an empty window means `k_start = n`, `k_end = 0` |
| `Excitation.FieldAt` | src/App.jsx:122 | with non-negative envelopes and `\|cos\| <= 1`, the field never exceeds the envelope product in magnitude |
| `Excitation.Drive` | src/App.jsx:122 | `F_eff[i]` is bounded in magnitude by the envelope product the window scan compares, wherever the envelopes are non-negative and `\|cos\| <= 1` |
| `Excitation.EnvProduct` | src/App.jsx:130 | the envelope product is positive wherever both envelopes are |
| `Excitation.StartAfter` | src/App.jsx:131-132 | after visiting `0..i-1`, `k_start` is still the sentinel `n` or a visited index whose product exceeds the threshold |
| `Excitation.EndAfter` | src/App.jsx:131-133 | after visiting `0..i-1`, `k_end` is 0 or a visited index, and a positive `k_end` has a product above the threshold |
| `Excitation.WindowNeverEmpty` | src/App.jsx:121-135 | over the reals with positive envelopes some envelope product exceeds `maxF·1e-5` |
| `Convolution.WindowSum` | src/App.jsx:140-146 | the inner sum over a window where `F_eff` is 0 is 0 |
| `Convolution.Coherence` | src/App.jsx:138-148 | `rho` has one value per grid sample and is identically 0 for an empty window |
| `Convolution.Convolve` | src/App.jsx:138-148 | the nested loop fills `rho[i]` with the guarded window sum of `chiTotal[i-k+half]·F_eff[k]`; the guard keeps every kernel read in range |
| `Convolution.WindowSumSplits` | src/App.jsx:141-146 | the window sum is additive in the kernel |
| `Convolution.CoherenceSplits` | src/App.jsx:138-148 | the resonant and non-resonant kernels give coherences that add up to the one of `chiTotal` |
| `Convolution.WindowSumScales` | src/App.jsx:141-146 | scaling the kernel scales the window sum |
| `Convolution.CoherenceScales` | src/App.jsx:138-148 | scaling the kernel scales `rho` |
| `Convolution.WindowSumOfQuietKernel` | src/App.jsx:141-146 | an all-zero kernel gives a zero window sum |
| `Convolution.CoherenceOfQuietKernel` | src/App.jsx:138-148 | an all-zero kernel gives `rho` identically 0 |
| `Convolution.CausalWindowSum` | src/App.jsx:141-146 | with a causal kernel, terms with `k > i` vanish and nothing before the window contributes |
| `Convolution.CausalCoherenceQuietBeforeWindow` | src/App.jsx:138-148 | with a causal kernel, `rho` is 0 at every sample before `k_start` |
| `Normalization.Mean` | src/App.jsx:179 | the mean times the length is the sum; an empty signal has mean 0 |
| `Normalization.ACCouple` | src/App.jsx:180 | adding the mean back to each AC-coupled sample restores the original sample |
| `Normalization.ACCoupledSumsToZero` | src/App.jsx:179-180 | the AC-coupled samples sum to 0, and each is the original minus the mean |
| `Normalization.ACCoupleIgnoresOffset` | src/App.jsx:179-180 | adding a constant to the signal does not change `sigAC` |
| `Normalization.ACCoupleConstant` | src/App.jsx:179-180 | a constant signal becomes all zeros |
| `Normalization.NormalizeByMax` | src/App.jsx:167 | each normalized value times `max \|\| 1` gives back the raw value |
| `Normalization.NormalizedToUnit` | src/App.jsx:162-167 | non-negative values normalized by their peak lie in [0, 1]; a bin at a positive peak maps to 1 and some bin does; a zero peak leaves every value 0 |
| `Normalization.Deconvolve` | src/App.jsx:195-204 | with `normalize` off the value is unchanged; with it on, a weight above 1e-4 divides the value (result times weight is the value), and otherwise the result is exactly 0 |
| `Normalization.DeconvolveNonNegative` | src/App.jsx:195-204 | with non-negative inputs the guarded value is non-negative |
| `Spectra.StrideCount` | src/App.jsx:157 | the trip count of a stride-2 loop: its last index is below the bound and the next one is not |
| `Spectra.Projection` | src/App.jsx:157-161 | a strided projection is 0 when every strided sample it reads is 0 |
| `Spectra.ProjectionReadsStride` | src/App.jsx:157-161 | a projection only reads the strided samples: arrays agreeing there project equally |
| `Spectra.ExcitationRaw` | src/App.jsx:154-165 | one non-negative raw excitation value per Raman bin |
| `Spectra.ExcitationBin` | src/App.jsx:155-164 | the loop over `k_start, k_start+2, ... <= k_end` yields `re² + im²` of the cosine and negated sine sums |
| `Spectra.ExcitationProfile` | src/App.jsx:152-165 | the `map` yields `excProfileRaw` and `maxExc` is its peak |
| `Spectra.ExcitationEmptyWindow` | src/App.jsx:157 | an empty window gives an all-zero excitation profile |
| `Spectra.ExcitationReadsWindow` | src/App.jsx:157-161 | the profile only depends on `F_eff` at the even offsets inside the window |
| `Spectra.FastPower` | src/App.jsx:192 | a bin's `sqrt(re² + im²)²` is non-negative |
| `Spectra.FastRaw` | src/App.jsx:184-208 | one value per Raman bin; with `normalize` off it is the bin's power; with it on, a bin whose weight `excRaw[j]/maxExc` is above 1e-4 gives a value that times the weight is the power, and any other bin (including `maxExc = 0`) is 0 |
| `Spectra.FastQuadratures` | src/App.jsx:186-191 | the stride-2 loop over the delays accumulates the cosine and sine sums at phase `-w·delay` |
| `Spectra.FastBin` | src/App.jsx:185-207 | the callback's value is the guarded power of the bin |
| `Spectra.FastSpectrum` | src/App.jsx:183-208 | the `map` yields `fastCarsSpecRaw` and `maxBandVal` is its peak |
| `Spectra.FastRawNonNegative` | src/App.jsx:192-204 | with a non-negative excitation profile every FAST-CARS bin is non-negative |
| `Spectra.FastSilentSignal` | src/App.jsx:187-192 | an all-zero interferogram gives an all-zero FAST-CARS spectrum (with `sqrt(0) = 0`) |
| `Spectra.FillPolarization` | src/App.jsx:213-219 | the loop fills `P_re`/`P_im` in place with `rho·env_pr` rotated by the probe chirp phase |
| `Spectra.PolarizationRe` | src/App.jsx:216-217 | `P_re` is 0 where `rho` is 0, and is `rho·env_pr` where the probe is unchirped (given `cos 0 = 1`) |
| `Spectra.PolarizationIm` | src/App.jsx:216-218 | `P_im` is 0 where `rho` is 0, and where the probe is unchirped (given `sin 0 = 0`) |
| `Spectra.PolarizationRotates` | src/App.jsx:216-218 | the chirp phase only rotates the polarization: `P_re² + P_im² = (rho·env_pr)²`, and an unchirped probe gives a real polarization |
| `Spectra.CarsBin` | src/App.jsx:223-230 | the stride-2 loop accumulates `sRe` and `sIm` from the cosine and sine sums of `P_re` and `P_im` |
| `Spectra.CarsSpectrum` | src/App.jsx:221-232 | one value per Raman bin, each non-negative when `sqrt` is non-negative on non-negative arguments |
| `Spectra.CarsIntensity` | src/App.jsx:221-232 | the `map` yields `sqrt(sRe² + sIm²)` for every bin |
| `Spectra.CarsOfRealPolarization` | src/App.jsx:221-232 | with `P_im = 0` each CARS bin is the square root of the excitation-style power of `P_re` over the whole grid |
| `Spectra.CarsQuiet` | src/App.jsx:213-232 | zero coherence gives every CARS bin the value `sqrt(0)` |
| `Simulation.Picoseconds` | src/App.jsx:237 | each delay in ps times 1e-12 is the delay in s |
| `Simulation.Threshold` | src/App.jsx:128 | `thresh` is non-negative, at least `1e-5·\|F_eff[i]\|` for every `i`, and 0 or equal to `1e-5·\|F_eff[k]\|` for some `k` |
| `Simulation.Window` | src/App.jsx:118-135 | the window lies inside the grid: `0 <= k_start <= n` and `0 <= k_end < n` |
| `Simulation.Rho` | src/App.jsx:138-148 | `rho` on the time grid is identically 0 when the active window is empty |
| `Simulation.Interferogram` | src/App.jsx:176-180 | the AC-coupled interferogram sums to 0 |
| `Simulation.FastRawOf` | src/App.jsx:183-208 | every raw FAST-CARS bin is non-negative |
| `Simulation.SimulationSpec` | src/App.jsx:234-244 | the Raman-axis outputs have `bins` entries, the delay axis `fastN`, and the traces one entry per tenth sample |
| `Simulation.Simulate` | src/App.jsx:61-245 | running the body in the source's order, with the four arrays filled in place, returns exactly the stage-by-stage specification |
| `Simulation.NormalizedSpectra` | src/App.jsx:206-210 | `excProfileNorm` and `fastCarsSpecNorm` lie in [0, 1]; each reaches 1 when its raw peak is positive and is all 0 when it is 0 |
| `Simulation.WindowOpen` | src/App.jsx:121-135 | over the reals, with sound transcendentals, `k_start <= k_end` |
| `Simulation.QuietBeforeExcitation` | src/App.jsx:138-148 | without background the kernel is causal, and `rho` is 0 before the window opens |
| `Simulation.RhoScales` | src/App.jsx:69-148 | without background, scaling every mode strength by `c` scales `rho` by `c` |
| `Simulation.QuietCoherenceNoSignal` | src/App.jsx:176-232 | a `rho` that is 0 everywhere gives a zero interferogram and zero CARS and normalized FAST-CARS spectra (given `sqrt(0) = 0`) |
| `Simulation.NoSampleNoSignal` | src/App.jsx:61-245 | with every mode silent and no background, `rho` and the interferogram are 0, and so are the CARS and normalized FAST-CARS spectra |
| `Simulation.EmptyWindowNoSignal` | src/App.jsx:61-245 | an empty active window gives zero `rho`, interferogram, normalized excitation profile, CARS and normalized FAST-CARS spectra (given `sqrt(0) = 0`) |

## Left out

- React state, the hooks and the debounced `useEffect`/`setTimeout` (src/App.jsx:26-59): UI timing and concurrency. The debounced values are parameters of `Simulate`.
- The JSX and Plotly rendering (src/App.jsx:252-437), and the edit handlers built on `parseFloat` and `Date.now()` (src/App.jsx:247-250): UI glue.
- The values of `Math.exp/sin/cos/sqrt/log` and of pi are uninterpreted. No claim is made about spectral content: peak positions, bandwidths and the k² scaling of intensities are out of scope.
- IEEE-754 rounding, overflow, underflow, NaN and infinities are not modelled. All arithmetic is exact over the reals. In particular, `minDelay + (fastN-1)·dTau` is exactly 7.5 ps in the model. Also, the envelopes cannot underflow to 0, which is why `Simulation.WindowOpen` holds.
- Normalization.Deconvolve: with `normalize` on and `maxExc = 0`, every raw excitation value is 0, so the source's weight is `0 / 0 = NaN`. NaN fails the `> 0.0001` guard, so the bin becomes 0. The model has no NaN and returns 0 for that case directly.
- Spectra.CarsQuiet: states that every bin is `sqrt(0)`, not 0, because `sqrt` is uninterpreted. `Simulation.NoSampleNoSignal` adds `sqrt(0) = 0` to conclude 0.
- The source validates no input. Wavelengths, widths and dephasing times of 0 would divide by zero. The model's `requires` ask for them to be non-zero (`Pulse.Shaped`, `Susceptibility.Dephasing`). It also asks for `n > 0` and `fastN >= 2`, as the constants 32768 and 6000 satisfy.
- The Raman axis ends at 3498 cm⁻¹ (`500 + 2·1499`), not at 3500.
- The concrete sizes 32768, 6000 and 1500 are kept symbolic; `Simulation.SourceSizes` records them.
