/**
 * The excited coherence `rho` (src/App.jsx:138-148): for every grid index `i`
 * the sum over the active window `k_start <= k <= k_end` of
 * `chiTotal[i - k + half] * F_eff[k]`, skipping any kernel index outside
 * `[0, n)`.
 */
module Convolution {
  import opened Numerics

  /** One term of the window sum; an out-of-range kernel index contributes 0. */
  function Term(chi: seq<real>, field: seq<real>, i: int, k: int, half: int): real
    requires 0 <= k < |field|
  {
    var c := i - k + half;
    if 0 <= c < |chi| then chi[c] * field[k] else 0.0
  }

  /** No field anywhere in `[lo, hi)`. */
  predicate QuietField(field: seq<real>, lo: int, hi: int)
    requires 0 <= lo && hi <= |field|
  {
    forall k :: lo <= k < hi ==> field[k] == 0.0
  }

  /** The inner loop's `sum` after visiting `k = lo .. hi-1`; no field in
      the window means no coherence. */
  function WindowSum(chi: seq<real>, field: seq<real>, i: int, half: int, lo: int, hi: int): (r: real)
    requires 0 <= lo && hi <= |field|
    ensures QuietField(field, lo, hi) ==> r == 0.0
    decreases hi - lo
  {
    if hi <= lo then 0.0
    else WindowSum(chi, field, i, half, lo, hi - 1) + Term(chi, field, i, hi - 1, half)
  }

  /** `rho` over the grid for the window `[kStart, kEnd]`. */
  function Coherence(chi: seq<real>, field: seq<real>, kStart: int, kEnd: int, half: int): (rho: seq<real>)
    requires 0 <= kStart && kEnd < |field|
    ensures |rho| == |field|
    ensures kStart > kEnd ==> forall i :: 0 <= i < |rho| ==> rho[i] == 0.0
  {
    seq(|field|, i requires 0 <= i < |field| => WindowSum(chi, field, i, half, kStart, kEnd + 1))
  }

  /** The nested loop filling `rho` in place. Every kernel index it reads is
      inside `chi` (the bounds guard) and every field index inside the window. */
  method Convolve(chi: seq<real>, field: seq<real>, kStart: int, kEnd: int, half: int, rho: array<real>)
    requires 0 <= kStart <= |field| && kEnd < |field| == rho.Length
    modifies rho
    ensures rho[..] == Coherence(chi, field, kStart, kEnd, half)
  {
    var n := rho.Length;
    for i := 0 to n
      invariant forall j :: 0 <= j < i ==> rho[j] == WindowSum(chi, field, j, half, kStart, kEnd + 1)
    {
      var sum := 0.0;
      var k := kStart;
      while k <= kEnd
        invariant kStart <= k <= if kStart <= kEnd + 1 then kEnd + 1 else kStart
        invariant sum == WindowSum(chi, field, i, half, kStart, k)
        decreases kEnd - k
      {
        var chiIdx := i - k + half;
        if chiIdx >= 0 && chiIdx < |chi| {
          sum := sum + chi[chiIdx] * field[k];
        }
        k := k + 1;
      }
      assert kStart <= kEnd ==> k == kEnd + 1;
      rho[i] := sum;
    }
  }

  /** The window sum is linear in the kernel: the sum of two kernels gives the
      sum of their window sums. */
  lemma {:induction false} WindowSumSplits(a: seq<real>, b: seq<real>, field: seq<real>, i: int, half: int, lo: int, hi: int)
    requires |a| == |b| && 0 <= lo && hi <= |field|
    ensures WindowSum(Pointwise(a, b), field, i, half, lo, hi)
         == WindowSum(a, field, i, half, lo, hi) + WindowSum(b, field, i, half, lo, hi)
    decreases hi - lo
  {
    if lo < hi {
      WindowSumSplits(a, b, field, i, half, lo, hi - 1);
      var c := i - (hi - 1) + half;
      if 0 <= c < |a| {
        assert Pointwise(a, b)[c] == a[c] + b[c];
        assert (a[c] + b[c]) * field[hi - 1] == a[c] * field[hi - 1] + b[c] * field[hi - 1];
      }
    }
  }

  /** The coherence of a sum of kernels is the sum of the coherences, so the
      resonant and non-resonant parts of `chiTotal` drive `rho` independently. */
  lemma CoherenceSplits(a: seq<real>, b: seq<real>, field: seq<real>, kStart: int, kEnd: int, half: int)
    requires |a| == |b| && 0 <= kStart && kEnd < |field|
    ensures Coherence(Pointwise(a, b), field, kStart, kEnd, half)
         == Pointwise(Coherence(a, field, kStart, kEnd, half), Coherence(b, field, kStart, kEnd, half))
  {
    forall i | 0 <= i < |field|
      ensures Coherence(Pointwise(a, b), field, kStart, kEnd, half)[i]
           == Pointwise(Coherence(a, field, kStart, kEnd, half), Coherence(b, field, kStart, kEnd, half))[i]
    {
      WindowSumSplits(a, b, field, i, half, kStart, kEnd + 1);
    }
  }

  /** Scaling the kernel scales the window sum. */
  lemma {:induction false} WindowSumScales(chi: seq<real>, c: real, field: seq<real>, i: int, half: int, lo: int, hi: int)
    requires 0 <= lo && hi <= |field|
    ensures WindowSum(Scaled(chi, c), field, i, half, lo, hi) == c * WindowSum(chi, field, i, half, lo, hi)
    decreases hi - lo
  {
    if lo < hi {
      WindowSumScales(chi, c, field, i, half, lo, hi - 1);
      var before, term := WindowSum(chi, field, i, half, lo, hi - 1), Term(chi, field, i, hi - 1, half);
      var scaledBefore, scaledTerm := WindowSum(Scaled(chi, c), field, i, half, lo, hi - 1), Term(Scaled(chi, c), field, i, hi - 1, half);
      TermScales(chi, c, field, i, hi - 1, half);
      assert WindowSum(Scaled(chi, c), field, i, half, lo, hi) == scaledBefore + scaledTerm;
      assert WindowSum(chi, field, i, half, lo, hi) == before + term;
      Distributes(c, before, term);
    }
  }

  lemma TermScales(chi: seq<real>, c: real, field: seq<real>, i: int, k: int, half: int)
    requires 0 <= k < |field|
    ensures Term(Scaled(chi, c), field, i, k, half) == c * Term(chi, field, i, k, half)
  {
    var j := i - k + half;
    if 0 <= j < |chi| {
      assert Scaled(chi, c)[j] == chi[j] * c;
      assert (chi[j] * c) * field[k] == c * (chi[j] * field[k]);
    }
  }

  lemma CoherenceScales(chi: seq<real>, c: real, field: seq<real>, kStart: int, kEnd: int, half: int)
    requires 0 <= kStart && kEnd < |field|
    ensures Coherence(Scaled(chi, c), field, kStart, kEnd, half) == Scaled(Coherence(chi, field, kStart, kEnd, half), c)
  {
    forall i | 0 <= i < |field|
      ensures Coherence(Scaled(chi, c), field, kStart, kEnd, half)[i] == Scaled(Coherence(chi, field, kStart, kEnd, half), c)[i]
    {
      WindowSumScales(chi, c, field, i, half, kStart, kEnd + 1);
    }
  }

  /** A kernel that is zero everywhere gives no coherence at all. */
  lemma {:induction false} WindowSumOfQuietKernel(chi: seq<real>, field: seq<real>, i: int, half: int, lo: int, hi: int)
    requires 0 <= lo && hi <= |field|
    requires forall c :: 0 <= c < |chi| ==> chi[c] == 0.0
    ensures WindowSum(chi, field, i, half, lo, hi) == 0.0
    decreases hi - lo
  {
    if lo < hi {
      WindowSumOfQuietKernel(chi, field, i, half, lo, hi - 1);
      var c := i - (hi - 1) + half;
      if 0 <= c < |chi| {
        assert chi[c] == 0.0;
      }
    }
  }

  lemma CoherenceOfQuietKernel(chi: seq<real>, field: seq<real>, kStart: int, kEnd: int, half: int)
    requires 0 <= kStart && kEnd < |field|
    requires forall c :: 0 <= c < |chi| ==> chi[c] == 0.0
    ensures forall i :: 0 <= i < |field| ==> Coherence(chi, field, kStart, kEnd, half)[i] == 0.0
  {
    forall i | 0 <= i < |field| ensures Coherence(chi, field, kStart, kEnd, half)[i] == 0.0 {
      WindowSumOfQuietKernel(chi, field, i, half, kStart, kEnd + 1);
    }
  }

  /** With a causal kernel (zero below the zero-time index `half`), every term
      with `k > i` vanishes, so the window sum only sees the field up to `i`. */
  lemma {:induction false} CausalWindowSum(chi: seq<real>, field: seq<real>, i: int, half: int, lo: int, hi: int)
    requires 0 <= lo && hi <= |field|
    requires forall c :: 0 <= c < |chi| && c < half ==> chi[c] == 0.0
    ensures i < lo ==> WindowSum(chi, field, i, half, lo, hi) == 0.0
    ensures lo <= i < hi ==> WindowSum(chi, field, i, half, lo, hi) == WindowSum(chi, field, i, half, lo, i + 1)
    decreases hi - lo
  {
    if lo < hi {
      CausalWindowSum(chi, field, i, half, lo, hi - 1);
      var c := i - (hi - 1) + half;
      if i < hi - 1 && 0 <= c < |chi| {
        assert chi[c] == 0.0;
      }
    }
  }

  /** With a causal kernel, the coherence is zero at every grid time before the
      active window opens. */
  lemma CausalCoherenceQuietBeforeWindow(chi: seq<real>, field: seq<real>, kStart: int, kEnd: int, half: int)
    requires 0 <= kStart && kEnd < |field|
    requires forall c :: 0 <= c < |chi| && c < half ==> chi[c] == 0.0
    ensures forall i :: 0 <= i < kStart && i < |field| ==> Coherence(chi, field, kStart, kEnd, half)[i] == 0.0
  {
    forall i | 0 <= i < kStart && i < |field|
      ensures Coherence(chi, field, kStart, kEnd, half)[i] == 0.0
    {
      CausalWindowSum(chi, field, i, half, kStart, kEnd + 1);
    }
  }
}
