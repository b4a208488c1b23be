/**
 * The three spectral projections of the simulation, each a loop over a
 * stride-2 subset of a time-domain array accumulating cosine and sine terms,
 * run once per Raman-axis bin inside a `map` callback:
 *   - the laser excitation profile over the active window of `F_eff`
 *     (src/App.jsx:151-167), with its running maximum `maxExc`;
 *   - the FAST-CARS spectrum of the AC-coupled interferogram
 *     (src/App.jsx:183-210), with the optional deconvolution and the running
 *     maximum `maxBandVal`;
 *   - the conventional CARS spectrum of the probe-gated polarization
 *     `P_re`/`P_im` (src/App.jsx:213-232).
 * The trigonometric values stay uninterpreted, so these are statements about
 * which samples are summed, in which order and how the sums are combined,
 * not about spectral content.
 */
module Spectra {
  import opened Numerics
  import opened Grid
  import opened Pulse
  import opened Normalization

  /** Which of the two quadratures a projection uses. */
  datatype Quadrature = Cosine | Sine

  /** `Math.cos(w * x)` or `Math.sin(w * x)`. */
  function Wave(m: Transcendentals, q: Quadrature, w: real, x: real): real
  {
    if q == Cosine then m.cos(w * x) else m.sin(w * x)
  }

  /** How many indices `lo, lo + 2, lo + 4, ...` lie below `hi`: the trip count
      of `for (k = lo; k < hi; k += 2)`. */
  function StrideCount(lo: int, hi: int): (c: nat)
    ensures c > 0 ==> lo + 2 * (c - 1) < hi
    ensures hi <= lo + 2 * c
  {
    if lo < hi then (hi - lo + 1) / 2 else 0
  }

  /** The term of index `k`: `a[k] * wave(w * t[k])`. */
  function StrideTerm(m: Transcendentals, q: Quadrature, a: seq<real>, t: seq<real>, w: real, k: int): real
    requires 0 <= k < |a| == |t|
  {
    a[k] * Wave(m, q, w, t[k])
  }

  /** `sum over j < count of a[lo + 2j] * wave(w * t[lo + 2j])`, accumulated
      from 0 in increasing index order. */
  function Projection(m: Transcendentals, q: Quadrature, a: seq<real>, t: seq<real>, w: real, lo: int, count: nat): (r: real)
    requires 0 <= lo && |a| == |t| && lo + 2 * count <= |a| + 1
    ensures (forall j :: 0 <= j < count ==> a[lo + 2 * j] == 0.0) ==> r == 0.0
  {
    if count == 0 then 0.0
    else Projection(m, q, a, t, w, lo, count - 1) + StrideTerm(m, q, a, t, w, lo + 2 * (count - 1))
  }

  /** One more stride step, with the wave value computed by the caller. */
  lemma ProjectionStep(m: Transcendentals, q: Quadrature, a: seq<real>, t: seq<real>, w: real, lo: int, count: nat, k: int, v: real)
    requires 0 <= lo && |a| == |t| && k == lo + 2 * count < |a|
    requires v == Wave(m, q, w, t[k])
    ensures Projection(m, q, a, t, w, lo, count + 1) == Projection(m, q, a, t, w, lo, count) + a[k] * v
  {
    assert StrideTerm(m, q, a, t, w, k) == a[k] * v;
  }

  /** `re**2 + im**2`. */
  function Power(re: real, im: real): (r: real)
    ensures r >= 0.0
  {
    Square(re) + Square(im)
  }

  /** Only the strided samples are read: two arrays (and time axes) that agree
      at `lo, lo + 2, ..., lo + 2 (count - 1)` have the same projection,
      whatever they hold in between. */
  lemma {:induction false} ProjectionReadsStride(m: Transcendentals, q: Quadrature, a: seq<real>, b: seq<real>, t: seq<real>, u: seq<real>, w: real, lo: int, count: nat)
    requires 0 <= lo && |a| == |t| && |b| == |u| && lo + 2 * count <= |a| + 1 && lo + 2 * count <= |b| + 1
    requires forall j :: 0 <= j < count ==> a[lo + 2 * j] == b[lo + 2 * j] && t[lo + 2 * j] == u[lo + 2 * j]
    ensures Projection(m, q, a, t, w, lo, count) == Projection(m, q, b, u, w, lo, count)
  {
    if count > 0 {
      ProjectionReadsStride(m, q, a, b, t, u, w, lo, count - 1);
      var k := lo + 2 * (count - 1);
      assert a[k] == b[k] && t[k] == u[k];
      assert StrideTerm(m, q, a, t, w, k) == StrideTerm(m, q, b, u, w, k);
    }
  }

  // ---------------------------------------------------------------------------
  // Excitation profile (src/App.jsx:151-167)

  /** Trip count of `for (k = k_start; k <= k_end; k += 2)`. */
  function WindowCount(kStart: int, kEnd: int): nat
  {
    StrideCount(kStart, kEnd + 1)
  }

  /** `re` and `im` of one excitation bin at angular frequency `w`:
      `re += F[k] cos(w t_k)`, `im -= F[k] sin(w t_k)`. */
  function ExcitationRe(m: Transcendentals, field: seq<real>, t: seq<real>, w: real, kStart: int, kEnd: int): real
    requires 0 <= kStart <= |field| && kEnd < |field| == |t|
  {
    Projection(m, Cosine, field, t, w, kStart, WindowCount(kStart, kEnd))
  }

  function ExcitationIm(m: Transcendentals, field: seq<real>, t: seq<real>, w: real, kStart: int, kEnd: int): real
    requires 0 <= kStart <= |field| && kEnd < |field| == |t|
  {
    -Projection(m, Sine, field, t, w, kStart, WindowCount(kStart, kEnd))
  }

  /** `re**2 + im**2` of one excitation bin. */
  function ExcitationPower(m: Transcendentals, field: seq<real>, t: seq<real>, w: real, kStart: int, kEnd: int): (r: real)
    requires 0 <= kStart <= |field| && kEnd < |field| == |t|
    ensures r >= 0.0
  {
    Power(ExcitationRe(m, field, t, w, kStart, kEnd), ExcitationIm(m, field, t, w, kStart, kEnd))
  }

  /** `excProfileRaw`: the power of the windowed field at every axis shift. */
  function ExcitationRaw(m: Transcendentals, field: seq<real>, t: seq<real>, axis: seq<real>, kStart: int, kEnd: int): (raw: seq<real>)
    requires 0 <= kStart <= |field| && kEnd < |field| == |t|
    ensures |raw| == |axis|
    ensures forall j :: 0 <= j < |raw| ==> raw[j] >= 0.0
  {
    seq(|axis|, j requires 0 <= j < |axis| => ExcitationPower(m, field, t, CmToRadS(m, axis[j]), kStart, kEnd))
  }

  /** The `map` callback of one excitation bin: the window loop, then
      `re**2 + im**2`. */
  method ExcitationBin(m: Transcendentals, field: seq<real>, t: seq<real>, w: real, kStart: int, kEnd: int)
    returns (val: real)
    requires 0 <= kStart <= |field| && kEnd < |field| == |t|
    ensures val == ExcitationPower(m, field, t, w, kStart, kEnd)
  {
    var re, im := 0.0, 0.0;
    var k := kStart;
    ghost var j := 0;
    while k <= kEnd
      invariant 0 <= j <= WindowCount(kStart, kEnd) && k == kStart + 2 * j
      invariant re == Projection(m, Cosine, field, t, w, kStart, j)
      invariant im == -Projection(m, Sine, field, t, w, kStart, j)
      decreases kEnd - k
    {
      var cosWt := m.cos(w * t[k]);
      var sinWt := m.sin(w * t[k]);
      ProjectionStep(m, Cosine, field, t, w, kStart, j, k, cosWt);
      ProjectionStep(m, Sine, field, t, w, kStart, j, k, sinWt);
      re := re + field[k] * cosWt;
      im := im - field[k] * sinWt;
      k := k + 2;
      j := j + 1;
    }
    assert j == WindowCount(kStart, kEnd);
    val := Power(re, im);
  }

  /** The `raman_cm1_axis.map` producing `excProfileRaw` while raising `maxExc`
      from 0. */
  method ExcitationProfile(m: Transcendentals, field: seq<real>, t: seq<real>, axis: seq<real>, kStart: int, kEnd: int)
    returns (raw: seq<real>, maxExc: real)
    requires 0 <= kStart <= |field| && kEnd < |field| == |t|
    ensures raw == ExcitationRaw(m, field, t, axis, kStart, kEnd)
    ensures maxExc == Peak(raw)
  {
    ghost var spec := ExcitationRaw(m, field, t, axis, kStart, kEnd);
    raw, maxExc := [], 0.0;
    for j := 0 to |axis|
      invariant raw == spec[..j]
      invariant maxExc == Peak(raw)
    {
      var w := CmToRadS(m, axis[j]);
      var val := ExcitationBin(m, field, t, w, kStart, kEnd);
      assert val == spec[j];
      PeakStep(spec, j);
      if val > maxExc {
        maxExc := val;
      }
      PrefixExtend(spec, j);
      raw := raw + [val];
    }
  }

  /** An empty window (`k_start > k_end`) gives an all-zero excitation profile. */
  lemma ExcitationEmptyWindow(m: Transcendentals, field: seq<real>, t: seq<real>, axis: seq<real>, kStart: int, kEnd: int)
    requires 0 <= kStart <= |field| && kEnd < |field| == |t| && kStart > kEnd
    ensures forall j :: 0 <= j < |axis| ==> ExcitationRaw(m, field, t, axis, kStart, kEnd)[j] == 0.0
  {
  }

  /** The profile only reads `F_eff` at `k_start, k_start + 2, ...` inside the
      window: fields that agree there give the same raw profile. */
  lemma ExcitationReadsWindow(m: Transcendentals, f: seq<real>, g: seq<real>, t: seq<real>, axis: seq<real>, kStart: int, kEnd: int)
    requires 0 <= kStart <= |f| && kEnd < |f| == |g| == |t|
    requires forall k :: kStart <= k <= kEnd && (k - kStart) % 2 == 0 ==> f[k] == g[k]
    ensures ExcitationRaw(m, f, t, axis, kStart, kEnd) == ExcitationRaw(m, g, t, axis, kStart, kEnd)
  {
    var c := WindowCount(kStart, kEnd);
    forall j | 0 <= j < c ensures f[kStart + 2 * j] == g[kStart + 2 * j] {
      var k := kStart + 2 * j;
      assert (k - kStart) % 2 == 0;
    }
    forall w: real
      ensures ExcitationRe(m, f, t, w, kStart, kEnd) == ExcitationRe(m, g, t, w, kStart, kEnd)
      ensures ExcitationIm(m, f, t, w, kStart, kEnd) == ExcitationIm(m, g, t, w, kStart, kEnd)
    {
      ProjectionReadsStride(m, Cosine, f, g, t, t, w, kStart, c);
      ProjectionReadsStride(m, Sine, f, g, t, t, w, kStart, c);
    }
  }

  // ---------------------------------------------------------------------------
  // FAST-CARS spectrum (src/App.jsx:183-210)

  /** `re` and `im` of one FAST-CARS bin: `phase = -w * delays_s[i]` over the
      even delay indices. */
  function FastRe(m: Transcendentals, sig: seq<real>, d: seq<real>, w: real): real
    requires |sig| == |d|
  {
    Projection(m, Cosine, sig, d, -w, 0, StrideCount(0, |sig|))
  }

  function FastIm(m: Transcendentals, sig: seq<real>, d: seq<real>, w: real): real
    requires |sig| == |d|
  {
    Projection(m, Sine, sig, d, -w, 0, StrideCount(0, |sig|))
  }

  /** One bin before the optional deconvolution: `Math.sqrt(re**2 + im**2)**2`. */
  function FastPower(m: Transcendentals, sig: seq<real>, d: seq<real>, w: real): (r: real)
    requires |sig| == |d|
    ensures r >= 0.0
  {
    Square(m.sqrt(Power(FastRe(m, sig, d, w), FastIm(m, sig, d, w))))
  }

  /** `fastCarsSpecRaw`: every bin's power, deconvolved by the excitation weight
      of the same bin when `normalize` is on. */
  function FastRaw(m: Transcendentals, sig: seq<real>, d: seq<real>, axis: seq<real>,
                   excRaw: seq<real>, maxExc: real, normalize: bool): (r: seq<real>)
    requires |sig| == |d| && |excRaw| == |axis|
    ensures |r| == |axis|
    ensures forall j :: 0 <= j < |r| && !normalize ==> r[j] == FastPower(m, sig, d, CmToRadS(m, axis[j]))
    ensures forall j :: 0 <= j < |r| && normalize && (maxExc == 0.0 || excRaw[j] / maxExc <= WeightFloor) ==> r[j] == 0.0
    ensures forall j :: 0 <= j < |r| && normalize && maxExc != 0.0 && excRaw[j] / maxExc > WeightFloor ==>
      r[j] * (excRaw[j] / maxExc) == FastPower(m, sig, d, CmToRadS(m, axis[j]))
  {
    seq(|axis|, j requires 0 <= j < |axis| =>
      Deconvolve(FastPower(m, sig, d, CmToRadS(m, axis[j])), excRaw[j], maxExc, normalize))
  }

  /** The delay loop of one FAST-CARS bin. */
  method FastQuadratures(m: Transcendentals, sig: seq<real>, d: seq<real>, w: real)
    returns (re: real, im: real)
    requires |sig| == |d|
    ensures re == FastRe(m, sig, d, w)
    ensures im == FastIm(m, sig, d, w)
  {
    re, im := 0.0, 0.0;
    var i := 0;
    ghost var j := 0;
    while i < |sig|
      invariant 0 <= j <= StrideCount(0, |sig|) && i == 2 * j
      invariant re == Projection(m, Cosine, sig, d, -w, 0, j)
      invariant im == Projection(m, Sine, sig, d, -w, 0, j)
    {
      var phase := -w * d[i];
      ghost var nw := -w;
      assert phase == nw * d[i];
      ProjectionStep(m, Cosine, sig, d, nw, 0, j, i, m.cos(phase));
      ProjectionStep(m, Sine, sig, d, nw, 0, j, i, m.sin(phase));
      re := re + sig[i] * m.cos(phase);
      im := im + sig[i] * m.sin(phase);
      i := i + 2;
      j := j + 1;
    }
  }

  /** The `map` callback of one FAST-CARS bin: the delay loop, the squared
      magnitude and the deconvolution guard. */
  method FastBin(m: Transcendentals, sig: seq<real>, d: seq<real>, w: real,
                 excRawAt: real, maxExc: real, normalize: bool)
    returns (val: real)
    requires |sig| == |d|
    ensures val == Deconvolve(FastPower(m, sig, d, w), excRawAt, maxExc, normalize)
  {
    var re, im := FastQuadratures(m, sig, d, w);
    val := Square(m.sqrt(Power(re, im)));
    if normalize {
      if maxExc == 0.0 {
        // `excProfileRaw[idx] / 0` is NaN or an infinity; the guard yields 0.
        val := 0.0;
      } else {
        var excWeight := excRawAt / maxExc;
        if excWeight > WeightFloor {
          val := val / excWeight;
        } else {
          val := 0.0;
        }
      }
    }
  }

  /** The `raman_cm1_axis.map((cm1, idx) => ...)` producing `fastCarsSpecRaw`
      while raising `maxBandVal` from 0. */
  method FastSpectrum(m: Transcendentals, sig: seq<real>, d: seq<real>, axis: seq<real>,
                      excRaw: seq<real>, maxExc: real, normalize: bool)
    returns (spec: seq<real>, maxBand: real)
    requires |sig| == |d| && |excRaw| == |axis|
    ensures spec == FastRaw(m, sig, d, axis, excRaw, maxExc, normalize)
    ensures maxBand == Peak(spec)
  {
    ghost var target := FastRaw(m, sig, d, axis, excRaw, maxExc, normalize);
    spec, maxBand := [], 0.0;
    for j := 0 to |axis|
      invariant spec == target[..j]
      invariant maxBand == Peak(spec)
    {
      var w := CmToRadS(m, axis[j]);
      var val := FastBin(m, sig, d, w, excRaw[j], maxExc, normalize);
      assert val == target[j];
      PeakStep(target, j);
      if val > maxBand {
        maxBand := val;
      }
      PrefixExtend(target, j);
      spec := spec + [val];
    }
  }

  /** With a non-negative excitation profile every FAST-CARS bin is
      non-negative, deconvolved or not. */
  lemma FastRawNonNegative(m: Transcendentals, sig: seq<real>, d: seq<real>, axis: seq<real>,
                           excRaw: seq<real>, maxExc: real, normalize: bool)
    requires |sig| == |d| && |excRaw| == |axis| && maxExc >= 0.0
    requires forall j :: 0 <= j < |excRaw| ==> excRaw[j] >= 0.0
    ensures forall j :: 0 <= j < |axis| ==> FastRaw(m, sig, d, axis, excRaw, maxExc, normalize)[j] >= 0.0
  {
    forall j | 0 <= j < |axis|
      ensures FastRaw(m, sig, d, axis, excRaw, maxExc, normalize)[j] >= 0.0
    {
      DeconvolveNonNegative(FastPower(m, sig, d, CmToRadS(m, axis[j])), excRaw[j], maxExc, normalize);
    }
  }

  /** An interferogram without beating (all zero after AC coupling) has an
      all-zero FAST-CARS spectrum, with or without deconvolution. */
  lemma FastSilentSignal(m: Transcendentals, sig: seq<real>, d: seq<real>, axis: seq<real>,
                         excRaw: seq<real>, maxExc: real, normalize: bool)
    requires |sig| == |d| && |excRaw| == |axis| && m.sqrt(0.0) == 0.0
    requires forall i :: 0 <= i < |sig| ==> sig[i] == 0.0
    ensures forall j :: 0 <= j < |axis| ==> FastRaw(m, sig, d, axis, excRaw, maxExc, normalize)[j] == 0.0
  {
    forall w: real ensures FastPower(m, sig, d, w) == 0.0 {
      assert Projection(m, Cosine, sig, d, -w, 0, StrideCount(0, |sig|)) == 0.0;
      assert Projection(m, Sine, sig, d, -w, 0, StrideCount(0, |sig|)) == 0.0;
    }
  }

  // ---------------------------------------------------------------------------
  // Conventional fs-CARS (src/App.jsx:213-232)

  /** `amp * cos(chirpPhase)` or `amp * sin(chirpPhase)` with
      `amp = rho * env` at one probe sample. */
  function Rotated(m: Transcendentals, q: Quadrature, rho: real, s: Sample): real
  {
    var amp := rho * s.env;
    if q == Cosine then amp * m.cos(s.chirpPhase) else amp * m.sin(s.chirpPhase)
  }

  /** `amp = rho[i] * env_pr[i].env`, rotated by the probe's chirp phase: zero
      where there is no coherence, the amplitude itself where the probe is
      unchirped (given `cos 0 = 1`). */
  function PolarizationRe(m: Transcendentals, rho: seq<real>, probe: seq<Sample>): (p: seq<real>)
    requires |rho| == |probe|
    ensures |p| == |rho|
    ensures forall i :: 0 <= i < |p| && rho[i] == 0.0 ==> p[i] == 0.0
    ensures m.cos(0.0) == 1.0 ==>
      forall i :: 0 <= i < |p| && probe[i].chirpPhase == 0.0 ==> p[i] == rho[i] * probe[i].env
  {
    seq(|rho|, i requires 0 <= i < |rho| => Rotated(m, Cosine, rho[i], probe[i]))
  }

  /** The quadrature part: zero where there is no coherence, and zero where
      the probe is unchirped (given `sin 0 = 0`). */
  function PolarizationIm(m: Transcendentals, rho: seq<real>, probe: seq<Sample>): (p: seq<real>)
    requires |rho| == |probe|
    ensures |p| == |rho|
    ensures forall i :: 0 <= i < |p| && rho[i] == 0.0 ==> p[i] == 0.0
    ensures m.sin(0.0) == 0.0 ==> forall i :: 0 <= i < |p| && probe[i].chirpPhase == 0.0 ==> p[i] == 0.0
  {
    seq(|rho|, i requires 0 <= i < |rho| => Rotated(m, Sine, rho[i], probe[i]))
  }

  /** The loop filling the two `Float64Array`s `P_re` and `P_im` in place. */
  method FillPolarization(m: Transcendentals, rho: seq<real>, probe: seq<Sample>, pRe: array<real>, pIm: array<real>)
    requires |rho| == |probe| == pRe.Length == pIm.Length && pRe != pIm
    modifies pRe, pIm
    ensures pRe[..] == PolarizationRe(m, rho, probe)
    ensures pIm[..] == PolarizationIm(m, rho, probe)
  {
    ghost var re, im := PolarizationRe(m, rho, probe), PolarizationIm(m, rho, probe);
    for i := 0 to pRe.Length
      invariant forall k :: 0 <= k < i ==> pRe[k] == re[k] && pIm[k] == im[k]
    {
      var amp := rho[i] * probe[i].env;
      pRe[i] := amp * m.cos(probe[i].chirpPhase);
      pIm[i] := amp * m.sin(probe[i].chirpPhase);
      assert pRe[i] == Rotated(m, Cosine, rho[i], probe[i]) == re[i];
      assert pIm[i] == Rotated(m, Sine, rho[i], probe[i]) == im[i];
    }
    assert pRe[..] == re;
    assert pIm[..] == im;
  }

  /** The trigonometric facts the polarization lemmas need. */
  ghost predicate Rotation(m: Transcendentals)
  {
    m.cos(0.0) == 1.0 && m.sin(0.0) == 0.0 &&
    forall x: real :: m.cos(x) * m.cos(x) + m.sin(x) * m.sin(x) == 1.0
  }

  /** The chirp phase only rotates the polarization: its squared magnitude is
      `(rho[i] * env_pr[i].env)^2`; an unchirped probe leaves it real. */
  lemma PolarizationRotates(m: Transcendentals, rho: seq<real>, probe: seq<Sample>, i: int)
    requires |rho| == |probe| && 0 <= i < |rho| && Rotation(m)
    ensures Square(PolarizationRe(m, rho, probe)[i]) + Square(PolarizationIm(m, rho, probe)[i])
         == Square(rho[i] * probe[i].env)
    ensures probe[i].chirpPhase == 0.0 ==>
      PolarizationRe(m, rho, probe)[i] == rho[i] * probe[i].env && PolarizationIm(m, rho, probe)[i] == 0.0
  {
    var a, c, s := rho[i] * probe[i].env, m.cos(probe[i].chirpPhase), m.sin(probe[i].chirpPhase);
    assert PolarizationRe(m, rho, probe)[i] == Rotated(m, Cosine, rho[i], probe[i]) == a * c;
    assert PolarizationIm(m, rho, probe)[i] == Rotated(m, Sine, rho[i], probe[i]) == a * s;
    assert c * c + s * s == 1.0;
    assert (a * c) * (a * c) + (a * s) * (a * s) == (a * a) * (c * c + s * s);
  }

  /** `sRe += P_re cos(wt) + P_im sin(wt)` and `sIm += P_im cos(wt) - P_re sin(wt)`
      over the even grid indices. */
  function CarsRe(m: Transcendentals, pRe: seq<real>, pIm: seq<real>, t: seq<real>, w: real): real
    requires |pRe| == |pIm| == |t|
  {
    var c := StrideCount(0, |t|);
    Projection(m, Cosine, pRe, t, w, 0, c) + Projection(m, Sine, pIm, t, w, 0, c)
  }

  function CarsIm(m: Transcendentals, pRe: seq<real>, pIm: seq<real>, t: seq<real>, w: real): real
    requires |pRe| == |pIm| == |t|
  {
    var c := StrideCount(0, |t|);
    Projection(m, Cosine, pIm, t, w, 0, c) - Projection(m, Sine, pRe, t, w, 0, c)
  }

  /** `carsIntensity`: `Math.sqrt(sRe**2 + sIm**2)` at every axis shift. */
  function CarsSpectrum(m: Transcendentals, pRe: seq<real>, pIm: seq<real>, t: seq<real>, axis: seq<real>): (r: seq<real>)
    requires |pRe| == |pIm| == |t|
    ensures |r| == |axis|
    ensures (forall x :: 0.0 <= x ==> 0.0 <= m.sqrt(x)) ==> forall j :: 0 <= j < |r| ==> 0.0 <= r[j]
  {
    seq(|axis|, j requires 0 <= j < |axis| => CarsMagnitude(m, pRe, pIm, t, CmToRadS(m, axis[j])))
  }

  /** One bin's `Math.sqrt(sRe**2 + sIm**2)`: the square root of a power. */
  function CarsMagnitude(m: Transcendentals, pRe: seq<real>, pIm: seq<real>, t: seq<real>, w: real): (r: real)
    requires |pRe| == |pIm| == |t|
    ensures (forall x :: 0.0 <= x ==> 0.0 <= m.sqrt(x)) ==> 0.0 <= r
  {
    m.sqrt(Power(CarsRe(m, pRe, pIm, t, w), CarsIm(m, pRe, pIm, t, w)))
  }

  /** The inner loop of one CARS bin. */
  method CarsBin(m: Transcendentals, pRe: seq<real>, pIm: seq<real>, t: seq<real>, w: real)
    returns (sRe: real, sIm: real)
    requires |pRe| == |pIm| == |t|
    ensures sRe == CarsRe(m, pRe, pIm, t, w)
    ensures sIm == CarsIm(m, pRe, pIm, t, w)
  {
    sRe, sIm := 0.0, 0.0;
    var i := 0;
    ghost var j := 0;
    while i < |t|
      invariant 0 <= j <= StrideCount(0, |t|) && i == 2 * j
      invariant sRe == Projection(m, Cosine, pRe, t, w, 0, j) + Projection(m, Sine, pIm, t, w, 0, j)
      invariant sIm == Projection(m, Cosine, pIm, t, w, 0, j) - Projection(m, Sine, pRe, t, w, 0, j)
    {
      var cosWt := m.cos(w * t[i]);
      var sinWt := m.sin(w * t[i]);
      ProjectionStep(m, Cosine, pRe, t, w, 0, j, i, cosWt);
      ProjectionStep(m, Sine, pRe, t, w, 0, j, i, sinWt);
      ProjectionStep(m, Cosine, pIm, t, w, 0, j, i, cosWt);
      ProjectionStep(m, Sine, pIm, t, w, 0, j, i, sinWt);
      sRe := sRe + (pRe[i] * cosWt + pIm[i] * sinWt);
      sIm := sIm + (pIm[i] * cosWt - pRe[i] * sinWt);
      i := i + 2;
      j := j + 1;
    }
  }

  /** The `raman_cm1_axis.map` producing `carsIntensity`. */
  method CarsIntensity(m: Transcendentals, pRe: seq<real>, pIm: seq<real>, t: seq<real>, axis: seq<real>)
    returns (cars: seq<real>)
    requires |pRe| == |pIm| == |t|
    ensures cars == CarsSpectrum(m, pRe, pIm, t, axis)
  {
    cars := [];
    for j := 0 to |axis|
      invariant cars == CarsSpectrum(m, pRe, pIm, t, axis)[..j]
    {
      var w := CmToRadS(m, axis[j]);
      var sRe, sIm := CarsBin(m, pRe, pIm, t, w);
      var val := m.sqrt(Power(sRe, sIm));
      assert val == CarsSpectrum(m, pRe, pIm, t, axis)[j];
      PrefixExtend(CarsSpectrum(m, pRe, pIm, t, axis), j);
      cars := cars + [val];
    }
  }

  /** With a real polarization (an unchirped probe), the CARS spectrum is the
      square root of the same projection the excitation profile computes, taken
      over the whole grid instead of the active window. */
  lemma CarsOfRealPolarization(m: Transcendentals, pRe: seq<real>, pIm: seq<real>, t: seq<real>, axis: seq<real>)
    requires 0 < |pRe| == |pIm| == |t|
    requires forall i :: 0 <= i < |pIm| ==> pIm[i] == 0.0
    ensures forall j :: 0 <= j < |axis| ==>
      CarsSpectrum(m, pRe, pIm, t, axis)[j] == m.sqrt(ExcitationRaw(m, pRe, t, axis, 0, |t| - 1)[j])
  {
    var c := StrideCount(0, |t|);
    assert WindowCount(0, |t| - 1) == c;
    forall w: real
      ensures CarsRe(m, pRe, pIm, t, w) == ExcitationRe(m, pRe, t, w, 0, |t| - 1)
      ensures CarsIm(m, pRe, pIm, t, w) == ExcitationIm(m, pRe, t, w, 0, |t| - 1)
    {
      assert Projection(m, Sine, pIm, t, w, 0, c) == 0.0;
      assert Projection(m, Cosine, pIm, t, w, 0, c) == 0.0;
    }
    forall j | 0 <= j < |axis|
      ensures CarsSpectrum(m, pRe, pIm, t, axis)[j] == m.sqrt(ExcitationRaw(m, pRe, t, axis, 0, |t| - 1)[j])
    {
      var w := CmToRadS(m, axis[j]);
      assert ExcitationRaw(m, pRe, t, axis, 0, |t| - 1)[j] == ExcitationPower(m, pRe, t, w, 0, |t| - 1);
      assert ExcitationPower(m, pRe, t, w, 0, |t| - 1)
          == Power(ExcitationRe(m, pRe, t, w, 0, |t| - 1), ExcitationIm(m, pRe, t, w, 0, |t| - 1));
      assert Power(CarsRe(m, pRe, pIm, t, w), CarsIm(m, pRe, pIm, t, w))
          == Power(ExcitationRe(m, pRe, t, w, 0, |t| - 1), ExcitationIm(m, pRe, t, w, 0, |t| - 1));
    }
  }

  /** Without coherence there is no CARS signal: every bin is `sqrt(0)`. */
  lemma CarsQuiet(m: Transcendentals, rho: seq<real>, probe: seq<Sample>, t: seq<real>, axis: seq<real>)
    requires |rho| == |probe| == |t|
    requires forall i :: 0 <= i < |rho| ==> rho[i] == 0.0
    ensures forall j :: 0 <= j < |axis| ==>
      CarsSpectrum(m, PolarizationRe(m, rho, probe), PolarizationIm(m, rho, probe), t, axis)[j] == m.sqrt(0.0)
  {
    var pRe, pIm := PolarizationRe(m, rho, probe), PolarizationIm(m, rho, probe);
    var c := StrideCount(0, |t|);
    forall i | 0 <= i < |rho| ensures pRe[i] == 0.0 && pIm[i] == 0.0 {
      assert rho[i] * probe[i].env == 0.0;
      assert pRe[i] == Rotated(m, Cosine, rho[i], probe[i]);
      assert pIm[i] == Rotated(m, Sine, rho[i], probe[i]);
    }
    forall w: real
      ensures CarsRe(m, pRe, pIm, t, w) == 0.0 && CarsIm(m, pRe, pIm, t, w) == 0.0
    {
      assert Projection(m, Cosine, pRe, t, w, 0, c) == 0.0;
      assert Projection(m, Sine, pRe, t, w, 0, c) == 0.0;
      assert Projection(m, Cosine, pIm, t, w, 0, c) == 0.0;
      assert Projection(m, Sine, pIm, t, w, 0, c) == 0.0;
    }
    forall j | 0 <= j < |axis|
      ensures CarsSpectrum(m, pRe, pIm, t, axis)[j] == m.sqrt(0.0)
    {
      var w := CmToRadS(m, axis[j]);
      assert Power(CarsRe(m, pRe, pIm, t, w), CarsIm(m, pRe, pIm, t, w)) == 0.0;
    }
  }
}
