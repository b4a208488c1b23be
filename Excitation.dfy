/**
 * The effective driving field and its active window (src/App.jsx:117-135):
 * `F_eff[i] = env_p * env_s * cos(phase_p - phase_s)` filled into a
 * `Float64Array` while tracking `maxF = max |F_eff|`, then a second scan that
 * sets `[k_start, k_end]` to the first and last index whose envelope product
 * `env_p * env_s` exceeds `thresh = maxF * 1e-5`, starting from the
 * sentinels `k_start = n`, `k_end = 0`.
 */
module Excitation {
  import opened Numerics
  import opened Pulse

  /** Relative threshold of the active window. */
  const WindowRatio: real := 1e-5

  /** The pump-Stokes field at one sample. With non-negative envelopes and
      `|cos| <= 1` it never exceeds the envelope product in magnitude. */
  function FieldAt(m: Transcendentals, p: Sample, s: Sample): (r: real)
    ensures p.env >= 0.0 && s.env >= 0.0 && -1.0 <= m.cos(p.phase - s.phase) <= 1.0 ==>
      Abs(r) <= p.env * s.env
  {
    CosineBelowEnvelope(p.env, s.env, m.cos(p.phase - s.phase));
    p.env * s.env * m.cos(p.phase - s.phase)
  }

  lemma CosineBelowEnvelope(x: real, y: real, c: real)
    ensures x >= 0.0 && y >= 0.0 && -1.0 <= c <= 1.0 ==> Abs(x * y * c) <= x * y
  {
    if x >= 0.0 && y >= 0.0 && -1.0 <= c <= 1.0 {
      var a := x * y;
      ProductNonNegative(x, y);
      ProductNonNegative(a, 1.0 - c);
      ProductNonNegative(a, 1.0 + c);
      assert x * y * c == a * c;
    }
  }

  /** `F_eff` over the grid: where the envelopes are non-negative and
      `|cos| <= 1`, bounded in magnitude by the envelope product. */
  function Drive(m: Transcendentals, envP: seq<Sample>, envS: seq<Sample>): (f: seq<real>)
    requires |envP| == |envS|
    ensures |f| == |envP|
    ensures forall i :: 0 <= i < |f| && envP[i].env >= 0.0 && envS[i].env >= 0.0 &&
                        -1.0 <= m.cos(envP[i].phase - envS[i].phase) <= 1.0 ==>
                          Abs(f[i]) <= EnvProduct(envP, envS)[i]
  {
    seq(|envP|, i requires 0 <= i < |envP| => FieldAt(m, envP[i], envS[i]))
  }

  /** `env_p[i].env * env_s[i].env` over the grid: positive wherever both
      envelopes are. */
  function EnvProduct(envP: seq<Sample>, envS: seq<Sample>): (r: seq<real>)
    requires |envP| == |envS|
    ensures |r| == |envP|
    ensures forall i :: 0 <= i < |r| && envP[i].env > 0.0 && envS[i].env > 0.0 ==> r[i] > 0.0
  {
    seq(|envP|, i requires 0 <= i < |envP| => envP[i].env * envS[i].env)
  }

  /** The first loop: fills `F_eff` in place and returns `maxF`, the largest
      `|F_eff[i]|` (0 for an empty grid). */
  method FillDrive(m: Transcendentals, envP: seq<Sample>, envS: seq<Sample>, field: array<real>)
    returns (maxF: real)
    requires |envP| == |envS| == field.Length
    modifies field
    ensures field[..] == Drive(m, envP, envS)
    ensures maxF == Peak(Magnitudes(field[..]))
  {
    var n := field.Length;
    maxF := 0.0;
    for i := 0 to n
      invariant field[..i] == Drive(m, envP, envS)[..i]
      invariant maxF == Peak(Magnitudes(Drive(m, envP, envS))[..i])
    {
      var f := FieldAt(m, envP[i], envS[i]);
      field[i] := f;
      var absF := Abs(f);
      PeakStep(Magnitudes(Drive(m, envP, envS)), i);
      if absF > maxF {
        maxF := absF;
      }
      assert field[..i + 1] == field[..i] + [f];
    }
    assert field[..] == field[..n];
    assert Magnitudes(Drive(m, envP, envS))[..n] == Magnitudes(Drive(m, envP, envS));
  }

  /** `k_start` after the second loop has visited indices `0 .. i-1`. */
  function StartAfter(prod: seq<real>, thresh: real, i: nat): (r: int)
    requires i <= |prod|
    ensures r == |prod| || (0 <= r < i && prod[r] > thresh)
  {
    if i == 0 then |prod|
    else
      var s := StartAfter(prod, thresh, i - 1);
      if prod[i - 1] > thresh && i - 1 < s then i - 1 else s
  }

  /** `k_end` after the second loop has visited indices `0 .. i-1`. */
  function EndAfter(prod: seq<real>, thresh: real, i: nat): (r: int)
    requires i <= |prod|
    ensures 0 <= r && (i == 0 ==> r == 0) && (i > 0 ==> r < i)
    ensures r > 0 ==> prod[r] > thresh
  {
    if i == 0 then 0
    else
      var e := EndAfter(prod, thresh, i - 1);
      if prod[i - 1] > thresh && i - 1 > e then i - 1 else e
  }

  /** Indices of the prefix `[0, i)` whose product exceeds the threshold. */
  predicate AnyAbove(prod: seq<real>, thresh: real, i: nat)
    requires i <= |prod|
  {
    exists k :: 0 <= k < i && prod[k] > thresh
  }

  /** `k_start` is the least qualifying index, or the sentinel `n` if none. */
  lemma {:induction false} StartIsLeast(prod: seq<real>, thresh: real, i: nat)
    requires i <= |prod|
    ensures AnyAbove(prod, thresh, i) ==>
      0 <= StartAfter(prod, thresh, i) < i && prod[StartAfter(prod, thresh, i)] > thresh &&
      forall k :: 0 <= k < StartAfter(prod, thresh, i) ==> prod[k] <= thresh
    ensures !AnyAbove(prod, thresh, i) ==> StartAfter(prod, thresh, i) == |prod|
  {
    if i > 0 {
      StartIsLeast(prod, thresh, i - 1);
      if AnyAbove(prod, thresh, i - 1) {
        var w :| 0 <= w < i - 1 && prod[w] > thresh;
        assert AnyAbove(prod, thresh, i);
      } else if prod[i - 1] > thresh {
        assert AnyAbove(prod, thresh, i);
      } else {
        assert forall k :: 0 <= k < i ==> prod[k] <= thresh;
      }
    }
  }

  /** `k_end` is the greatest qualifying index, or the sentinel 0 if none. */
  lemma {:induction false} EndIsGreatest(prod: seq<real>, thresh: real, i: nat)
    requires i <= |prod|
    ensures AnyAbove(prod, thresh, i) ==>
      0 <= EndAfter(prod, thresh, i) < i && prod[EndAfter(prod, thresh, i)] > thresh &&
      forall k :: EndAfter(prod, thresh, i) < k < i ==> prod[k] <= thresh
    ensures !AnyAbove(prod, thresh, i) ==> EndAfter(prod, thresh, i) == 0
  {
    if i > 0 {
      EndIsGreatest(prod, thresh, i - 1);
      if prod[i - 1] > thresh {
        assert AnyAbove(prod, thresh, i);
      } else if AnyAbove(prod, thresh, i - 1) {
        var w :| 0 <= w < i - 1 && prod[w] > thresh;
        assert AnyAbove(prod, thresh, i);
      } else {
        assert forall k :: 0 <= k < i ==> prod[k] <= thresh;
      }
    }
  }

  /** The second loop: the active window `[k_start, k_end]`. */
  method ActiveWindow(envP: seq<Sample>, envS: seq<Sample>, thresh: real)
    returns (kStart: int, kEnd: int)
    requires |envP| == |envS|
    ensures kStart == StartAfter(EnvProduct(envP, envS), thresh, |envP|)
    ensures kEnd == EndAfter(EnvProduct(envP, envS), thresh, |envP|)
  {
    var n := |envP|;
    ghost var prod := EnvProduct(envP, envS);
    kStart, kEnd := n, 0;
    for i := 0 to n
      invariant kStart == StartAfter(prod, thresh, i)
      invariant kEnd == EndAfter(prod, thresh, i)
    {
      var envProd := envP[i].env * envS[i].env;
      assert envProd == prod[i];
      assert StartAfter(prod, thresh, i + 1) == if envProd > thresh && i < kStart then i else kStart;
      assert EndAfter(prod, thresh, i + 1) == if envProd > thresh && i > kEnd then i else kEnd;
      if envProd > thresh {
        if i < kStart {
          kStart := i;
        }
        if i > kEnd {
          kEnd := i;
        }
      }
    }
  }

  /** The window in terms of the envelope product alone: the least and the
      greatest index above the threshold when there is one, and the empty
      window `k_start = n > 0 = k_end` when there is none. */
  lemma WindowCharacterized(prod: seq<real>, thresh: real)
    requires |prod| > 0
    ensures var kStart, kEnd := StartAfter(prod, thresh, |prod|), EndAfter(prod, thresh, |prod|);
      0 <= kStart <= |prod| && 0 <= kEnd < |prod| &&
      (kStart <= kEnd <==> AnyAbove(prod, thresh, |prod|)) &&
      (AnyAbove(prod, thresh, |prod|) ==>
        prod[kStart] > thresh && prod[kEnd] > thresh &&
        (forall k :: 0 <= k < kStart ==> prod[k] <= thresh) &&
        (forall k :: kEnd < k < |prod| ==> prod[k] <= thresh)) &&
      (!AnyAbove(prod, thresh, |prod|) ==> kStart == |prod| && kEnd == 0)
  {
    StartIsLeast(prod, thresh, |prod|);
    EndIsGreatest(prod, thresh, |prod|);
    if AnyAbove(prod, thresh, |prod|) {
      var kStart, kEnd := StartAfter(prod, thresh, |prod|), EndAfter(prod, thresh, |prod|);
      assert prod[kEnd] > thresh;
      assert !(kEnd < kStart);
    }
  }

  /** A sample with positive envelopes whose field magnitude is the
      (non-negative) peak, or any such sample when the peak is 0, has an
      envelope product above the peak's window fraction. */
  lemma SampleExceeds(m: Transcendentals, p: Sample, s: Sample, maxF: real, product: real)
    requires p.env > 0.0 && s.env > 0.0 && -1.0 <= m.cos(p.phase - s.phase) <= 1.0 && maxF >= 0.0
    requires maxF == 0.0 || Abs(FieldAt(m, p, s)) == maxF
    requires product == p.env * s.env
    ensures product > maxF * WindowRatio
  {
    assert 0.0 < product;
    assert Abs(FieldAt(m, p, s)) <= product;
  }

  /** Over the reals, with positive exponentials and |cos| <= 1, the window is
      never empty: either `maxF > 0` and the sample attaining it has an
      envelope product at least `maxF > maxF * 1e-5`, or `maxF = 0` and every
      (positive) envelope product exceeds the threshold 0. An empty window
      needs an envelope that underflows to 0. */
  lemma WindowNeverEmpty(m: Transcendentals, envP: seq<Sample>, envS: seq<Sample>)
    requires Sound(m) && 0 < |envP| == |envS|
    requires forall i :: 0 <= i < |envP| ==> envP[i].env > 0.0 && envS[i].env > 0.0
    ensures AnyAbove(EnvProduct(envP, envS), Peak(Magnitudes(Drive(m, envP, envS))) * WindowRatio, |envP|)
  {
    var i := PeakIndex(Magnitudes(Drive(m, envP, envS)));
    assert -1.0 <= m.cos(envP[i].phase - envS[i].phase) <= 1.0;
    PeakSampleAbove(m, envP, envS, i, Peak(Magnitudes(Drive(m, envP, envS))));
    AboveAt(EnvProduct(envP, envS), Peak(Magnitudes(Drive(m, envP, envS))) * WindowRatio, i);
  }

  /** The sample attaining the peak field magnitude `maxF` (any sample when
      `maxF` is 0) has an envelope product above the threshold. */
  lemma PeakSampleAbove(m: Transcendentals, envP: seq<Sample>, envS: seq<Sample>, i: nat, maxF: real)
    requires i < |envP| == |envS| && maxF >= 0.0
    requires envP[i].env > 0.0 && envS[i].env > 0.0 && -1.0 <= m.cos(envP[i].phase - envS[i].phase) <= 1.0
    requires maxF == 0.0 || Magnitudes(Drive(m, envP, envS))[i] == maxF
    ensures EnvProduct(envP, envS)[i] > maxF * WindowRatio
  {
    var p, s := envP[i], envS[i];
    assert Magnitudes(Drive(m, envP, envS))[i] == Abs(FieldAt(m, p, s));
    assert EnvProduct(envP, envS)[i] == p.env * s.env;
    SampleExceeds(m, p, s, maxF, EnvProduct(envP, envS)[i]);
  }

  /** One sample above the threshold makes the window non-empty. */
  lemma AboveAt(prod: seq<real>, thresh: real, i: nat)
    requires i < |prod| && prod[i] > thresh
    ensures AnyAbove(prod, thresh, |prod|)
  {
  }

  /** An index where a non-empty sequence attains its peak, or any index when
      the peak is 0. */
  lemma PeakIndex(s: seq<real>) returns (i: nat)
    requires |s| > 0
    ensures i < |s| && (Peak(s) == 0.0 || s[i] == Peak(s))
  {
    i := 0;
    if Peak(s) != 0.0 {
      i :| 0 <= i < |s| && s[i] == Peak(s);
    }
  }
}
