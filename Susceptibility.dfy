/**
 * The time-domain nonlinear response (src/App.jsx:69-84): the resonant kernel
 * `chiR`, a causally gated superposition of damped oscillators, one per
 * vibrational mode; the non-resonant kernel `chiNR`, a zero-centred Gaussian
 * scaled by the NRB level; and their pointwise sum `chiTotal`.
 */
module Susceptibility {
  import opened Numerics
  import opened Grid

  /** A vibrational resonance: Raman shift (cm^-1), strength, dephasing time T2 (ps). */
  datatype Mode = Mode(id: int, shift: real, strength: real, t2: real)

  /** Every mode's T2 can be divided by (src/App.jsx:75 divides by `m.t2 * 1e-12`). */
  predicate Dephasing(modes: seq<Mode>)
  {
    forall j :: 0 <= j < |modes| ==> modes[j].t2 != 0.0
  }

  /** Width and scale of the non-resonant Gaussian. */
  const NrbSigma: real := 40e-15
  const NrbScale: real := 5e-13

  /** A unit-strength damped oscillation at `shift` cm^-1 with dephasing `t2` ps. */
  function Oscillation(m: Transcendentals, shift: real, t2: real, t: real): real
    requires t2 != 0.0
  {
    m.exp(-t / (t2 * 1e-12)) * m.sin(CmToRadS(m, shift) * t)
  }

  /** One mode's contribution `strength * exp(-t/T2) * sin(w t)` at time `t`. */
  function ModeTerm(m: Transcendentals, mode: Mode, t: real): real
    requires mode.t2 != 0.0
  {
    mode.strength * Oscillation(m, mode.shift, mode.t2, t)
  }

  /** The `forEach` over the modes: `val += ...` from `val = 0`, in list order. */
  function Resonance(m: Transcendentals, modes: seq<Mode>, t: real): (r: real)
    requires Dephasing(modes)
    ensures |modes| == 1 ==> r == ModeTerm(m, modes[0], t)
  {
    if |modes| == 0 then 0.0
    else Resonance(m, modes[..|modes| - 1], t) + ModeTerm(m, modes[|modes| - 1], t)
  }

  /** `chiR`: the resonant kernel on the grid `t`, zero at every negative time. */
  function ChiR(m: Transcendentals, modes: seq<Mode>, t: seq<real>): (r: seq<real>)
    requires Dephasing(modes)
    ensures |r| == |t|
    ensures forall i :: 0 <= i < |t| && t[i] < 0.0 ==> r[i] == 0.0
  {
    seq(|t|, i requires 0 <= i < |t| => if t[i] < 0.0 then 0.0 else Resonance(m, modes, t[i]))
  }

  /** `chiNR`: the non-resonant kernel, not causally gated, zero when `nrb = 0`. */
  function ChiNR(m: Transcendentals, nrb: real, t: seq<real>): (r: seq<real>)
    requires m.sqrt(2.0 * m.pi) != 0.0
    ensures |r| == |t|
    ensures nrb == 0.0 ==> forall i :: 0 <= i < |t| ==> r[i] == 0.0
  {
    var amplitude := (nrb * NrbScale) / (m.sqrt(2.0 * m.pi) * NrbSigma);
    seq(|t|, i requires 0 <= i < |t| =>
      amplitude * m.exp(-(t[i] * t[i]) / (2.0 * NrbSigma * NrbSigma)))
  }

  /** `chiTotal`: resonant plus non-resonant response at every sample. */
  function ChiTotal(m: Transcendentals, modes: seq<Mode>, nrb: real, t: seq<real>): (r: seq<real>)
    requires Dephasing(modes) && m.sqrt(2.0 * m.pi) != 0.0
    ensures |r| == |t|
    ensures forall i :: 0 <= i < |t| && t[i] < 0.0 ==> r[i] == ChiNR(m, nrb, t)[i]
    ensures nrb == 0.0 ==> forall i :: 0 <= i < |t| && t[i] < 0.0 ==> r[i] == 0.0
  {
    Pointwise(ChiR(m, modes, t), ChiNR(m, nrb, t))
  }

  /** The total kernel is the sum of its two parts: without background it is
      the resonant kernel, with silent modes the background alone, and it is
      zero at negative times exactly where the background is. */
  lemma ChiTotalParts(m: Transcendentals, modes: seq<Mode>, nrb: real, t: seq<real>)
    requires Dephasing(modes) && m.sqrt(2.0 * m.pi) != 0.0
    ensures forall i :: 0 <= i < |t| ==> ChiTotal(m, modes, nrb, t)[i] == ChiR(m, modes, t)[i] + ChiNR(m, nrb, t)[i]
    ensures nrb == 0.0 ==> ChiTotal(m, modes, nrb, t) == ChiR(m, modes, t)
    ensures (forall j :: 0 <= j < |modes| ==> modes[j].strength == 0.0) ==> ChiTotal(m, modes, nrb, t) == ChiNR(m, nrb, t)
    ensures forall i :: 0 <= i < |t| && t[i] < 0.0 ==> ChiTotal(m, modes, nrb, t)[i] == ChiNR(m, nrb, t)[i]
  {
    if forall j :: 0 <= j < |modes| ==> modes[j].strength == 0.0 {
      SilentModesKernel(m, modes, t);
    }
  }

  /** With no modes, or only modes of strength 0, there is no resonant response. */
  lemma {:induction false} SilentModes(m: Transcendentals, modes: seq<Mode>, t: real)
    requires Dephasing(modes)
    requires forall j :: 0 <= j < |modes| ==> modes[j].strength == 0.0
    ensures Resonance(m, modes, t) == 0.0
  {
    if |modes| > 0 {
      SilentModes(m, modes[..|modes| - 1], t);
    }
  }

  lemma SilentModesKernel(m: Transcendentals, modes: seq<Mode>, t: seq<real>)
    requires Dephasing(modes)
    requires forall j :: 0 <= j < |modes| ==> modes[j].strength == 0.0
    ensures forall i :: 0 <= i < |t| ==> ChiR(m, modes, t)[i] == 0.0
  {
    forall i | 0 <= i < |t| ensures ChiR(m, modes, t)[i] == 0.0 {
      SilentModes(m, modes, t[i]);
    }
  }

  /** Superposition: the response of two mode lists joined is the sum of their
      responses, so the order of the modes does not matter. */
  lemma {:induction false} ResonanceSplits(m: Transcendentals, a: seq<Mode>, b: seq<Mode>, t: real)
    requires Dephasing(a) && Dephasing(b)
    ensures Dephasing(a + b)
    ensures Resonance(m, a + b, t) == Resonance(m, a, t) + Resonance(m, b, t)
  {
    if |b| == 0 {
      assert a + b == a;
    } else {
      var b' := b[..|b| - 1];
      assert (a + b)[..|a + b| - 1] == a + b';
      ResonanceSplits(m, a, b', t);
    }
  }

  /** The order of the mode list does not matter: any permutation of the
      modes gives the same response. */
  lemma {:induction false} ResonanceOrderFree(m: Transcendentals, a: seq<Mode>, b: seq<Mode>, t: real)
    requires Dephasing(a) && multiset(a) == multiset(b)
    ensures Dephasing(b)
    ensures Resonance(m, a, t) == Resonance(m, b, t)
    decreases |a|
  {
    DephasingPermuted(a, b);
    if |a| == 0 {
      assert |multiset(b)| == 0;
    } else {
      var x, a' := a[|a| - 1], a[..|a| - 1];
      assert x in multiset(b);
      var k :| 0 <= k < |b| && b[k] == x;
      var front, back := b[..k], b[k + 1..];
      RemoveLast(a, b, k);
      ResonanceOrderFree(m, a', front + back, t);
      assert Resonance(m, [x], t) == ModeTerm(m, x, t);
      assert b == front + [x] + back;
      ResonanceSplits(m, front, [x], t);
      ResonanceSplits(m, front + [x], back, t);
      ResonanceSplits(m, front, back, t);
    }
  }

  lemma DephasingPermuted(a: seq<Mode>, b: seq<Mode>)
    requires Dephasing(a) && multiset(a) == multiset(b)
    ensures Dephasing(b)
  {
    forall j | 0 <= j < |b| ensures b[j].t2 != 0.0 {
      assert b[j] in multiset(b);
      assert b[j] in a;
    }
  }

  /** Taking the last mode of `a` out of both lists keeps them permutations. */
  lemma RemoveLast(a: seq<Mode>, b: seq<Mode>, k: int)
    requires |a| > 0 && multiset(a) == multiset(b)
    requires 0 <= k < |b| && b[k] == a[|a| - 1]
    ensures multiset(a[..|a| - 1]) == multiset(b[..k] + b[k + 1..])
  {
    var x, a', front, back := a[|a| - 1], a[..|a| - 1], b[..k], b[k + 1..];
    assert a == a' + [x];
    assert b == front + [x] + back;
    assert multiset(b) == multiset(front + [x]) + multiset(back);
    assert multiset(front + [x]) == multiset(front) + multiset{x};
    assert multiset(front + back) == multiset(front) + multiset(back);
    assert multiset(a) == multiset(a') + multiset{x};
    assert multiset(front + back) == multiset(b) - multiset{x};
    assert multiset(a') == multiset(a) - multiset{x};
  }

  /** Every strength multiplied by `c`. */
  function ScaleStrengths(modes: seq<Mode>, c: real): (r: seq<Mode>)
    ensures |r| == |modes|
    ensures forall j :: 0 <= j < |r| ==> r[j] == modes[j].(strength := c * modes[j].strength)
  {
    seq(|modes|, j requires 0 <= j < |modes| => modes[j].(strength := c * modes[j].strength))
  }

  /** The resonant response is linear in the mode strengths. */
  lemma ResonanceScales(m: Transcendentals, modes: seq<Mode>, c: real, t: real)
    requires Dephasing(modes)
    ensures Dephasing(ScaleStrengths(modes, c))
    ensures Resonance(m, ScaleStrengths(modes, c), t) == c * Resonance(m, modes, t)
  {
    RescaledResonance(m, modes, ScaleStrengths(modes, c), c, t);
  }

  lemma {:induction false} RescaledResonance(m: Transcendentals, modes: seq<Mode>, s: seq<Mode>, c: real, t: real)
    requires Dephasing(modes) && |s| == |modes|
    requires forall j :: 0 <= j < |s| ==> s[j].t2 == modes[j].t2 && s[j].shift == modes[j].shift
    requires forall j :: 0 <= j < |s| ==> s[j].strength == c * modes[j].strength
    ensures Dephasing(s)
    ensures Resonance(m, s, t) == c * Resonance(m, modes, t)
  {
    if |modes| > 0 {
      var k := |modes| - 1;
      RescaledResonance(m, modes[..k], s[..k], c, t);
      var before, o := Resonance(m, modes[..k], t), Oscillation(m, modes[k].shift, modes[k].t2, t);
      assert ModeTerm(m, s[k], t) == (c * modes[k].strength) * o;
      Distributes(c, before, modes[k].strength * o);
    }
  }

  lemma ChiRScales(m: Transcendentals, modes: seq<Mode>, c: real, t: seq<real>)
    requires Dephasing(modes)
    ensures Dephasing(ScaleStrengths(modes, c))
    ensures ChiR(m, ScaleStrengths(modes, c), t) == Scaled(ChiR(m, modes, t), c)
  {
    ResonanceScales(m, modes, c, 0.0);
    forall i | 0 <= i < |t|
      ensures ChiR(m, ScaleStrengths(modes, c), t)[i] == Scaled(ChiR(m, modes, t), c)[i]
    {
      ResonanceScales(m, modes, c, t[i]);
    }
  }
}
