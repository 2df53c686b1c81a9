/**
 * Romberg integration (src/calculus/integrals/romberg/romberg.c).
 *
 * The integrator keeps two rows of a Richardson extrapolation table. Row 0 is
 * the single-panel trapezoid; each refinement level halves the panel width,
 * samples the integrand at the new midpoints, and extrapolates. The loop stops
 * as soon as two consecutive diagonal entries agree to within `eps`, and
 * otherwise returns the last diagonal entry without signalling anything.
 *
 * Doubles are modelled as reals, so every statement here is about exact
 * arithmetic: rounding is not part of the model.
 */
module Romberg {

  import opened RealSeqs

  /** Largest refinement level admitted. With `kMax <= 30` the C `int`
      expressions `1 << i` and `2 * j - 1` never overflow (see SampleIndexFitsInt). */
  const MaxLevel: nat := 30

  /** C's `fabs`. */
  function Abs(x: real): real {
    if x < 0.0 then -x else x
  }

  /** `1 << i`: the number of new midpoints sampled at level `i`. */
  function Pow2(i: nat): (p: nat)
    ensures p >= 1
  {
    if i == 0 then 1 else 2 * Pow2(i - 1)
  }

  /** The Richardson weight `4^m`, built like `pow4 *= 4.0`. */
  function Pow4(m: nat): (p: real)
    ensures p >= 1.0
    ensures m > 0 ==> p >= 4.0
  {
    if m == 0 then 1.0 else 4.0 * Pow4(m - 1)
  }

  /** The signed panel width after `k` halvings of `b - a`. */
  function Width(a: real, b: real, k: nat): real {
    if k == 0 then b - a else Width(a, b, k - 1) / 2.0
  }

  /** The seed: the single-panel trapezoid `(h/2)(f(b) + f(a))` with `h = b - a`. */
  function Trapezoid(f: real -> real, a: real, b: real): real {
    ((b - a) / 2.0) * (f(b) + f(a))
  }

  /** The `j`-th sample point `a + (2j - 1)h` of a level whose width is `h`. */
  function Midpoint(a: real, h: real, j: nat): real {
    a + ((2 * j - 1) as real) * h
  }

  /** The sum of `f` at the `n` midpoints `j = 1..n`, accumulated in that order. */
  function MidpointSum(f: real -> real, a: real, h: real, n: nat): real {
    if n == 0 then 0.0 else MidpointSum(f, a, h, n - 1) + f(Midpoint(a, h, n))
  }

  /** The refined level-0 estimate: half the previous one plus the new midpoints weighted by `h`. */
  function Refined(p0: real, h: real, c: real): real {
    0.5 * p0 + h * c
  }

  /** One Richardson step with weight `w = 4^m`. */
  function Extrapolated(w: real, hi: real, lo: real): real
    requires w != 1.0
  {
    (w * hi - lo) / (w - 1.0)
  }

  /** Entries `0..m` of a new row whose entry 0 is `t0`, each entry `m` being
      `(4^m new[m-1] - old[m-1]) / (4^m - 1)`. */
  function Richardson(prev: seq<real>, t0: real, m: nat): (row: seq<real>)
    requires m <= |prev|
    ensures |row| == m + 1 && row[0] == t0
  {
    if m == 0 then [t0]
    else
      var r := Richardson(prev, t0, m - 1);
      r + [Extrapolated(Pow4(m), r[m - 1], prev[m - 1])]
  }

  /** The meaningful prefix (entries `0..k`) of the row computed after `k`
      refinement levels; level `k - 1` of the C loop produces `Row(k)`. */
  function Row(f: real -> real, a: real, b: real, k: nat): (row: seq<real>)
    ensures |row| == k + 1
  {
    if k == 0 then [Trapezoid(f, a, b)]
    else
      var prev := Row(f, a, b, k - 1);
      var h := Width(a, b, k);
      Richardson(prev, Refined(prev[0], h, MidpointSum(f, a, h, Pow2(k - 1))), k)
  }

  /** The diagonal entry of `Row(k)`: the estimate after `k` refinement levels. */
  function Diagonal(f: real -> real, a: real, b: real, k: nat): real {
    Row(f, a, b, k)[k]
  }

  /** The exit test after building `Row(k)`: its diagonal entry against the previous row's. */
  predicate Converged(f: real -> real, a: real, b: real, eps: real, k: nat)
    requires k >= 1
  {
    Abs(Diagonal(f, a, b, k) - Diagonal(f, a, b, k - 1)) < eps
  }

  /** What the refinement loop returns when entered at level `i`. */
  function Run(f: real -> real, a: real, b: real, eps: real, kMax: nat, i: nat): real
    requires i <= kMax
    decreases kMax - i
  {
    if i == kMax then Diagonal(f, a, b, kMax)
    else if Converged(f, a, b, eps, i + 1) then Diagonal(f, a, b, i + 1)
    else Run(f, a, b, eps, kMax, i + 1)
  }

  /** The value `romberg_integrate(f, a, b, eps, kMax)` computes. */
  function Integrate(f: real -> real, a: real, b: real, eps: real, kMax: nat): real {
    Run(f, a, b, eps, kMax, 0)
  }

  /** `romberg_integrate`: two zero-filled rows, a seed, `kMax` refinement
      levels with an early exit, and a row swap after every level. */
  method RombergIntegrate(f: real -> real, a: real, b: real, eps: real, kMax: int) returns (result: real)
    requires 0 <= kMax <= MaxLevel
    ensures result == Integrate(f, a, b, eps, kMax)
  {
    var h := b - a;
    var rPrev := new real[kMax + 1];
    var rCurr := new real[kMax + 1];
    rPrev[0] := Trapezoid(f, a, b);
    assert rPrev[..1] == Row(f, a, b, 0);
    var i := 0;
    while i < kMax
      invariant 0 <= i <= kMax
      invariant fresh(rPrev) && fresh(rCurr) && rPrev != rCurr
      invariant rPrev.Length == kMax + 1 && rCurr.Length == kMax + 1
      invariant h == Width(a, b, i)
      invariant rPrev[..i + 1] == Row(f, a, b, i)
      invariant Run(f, a, b, eps, kMax, i) == Integrate(f, a, b, eps, kMax)
    {
      h := h / 2.0;
      NextLevel(f, a, b, h, i, rPrev, rCurr);
      if Abs(rCurr[i + 1] - rPrev[i]) < eps {
        result := rCurr[i + 1];
        return;
      }
      rPrev, rCurr := rCurr, rPrev;
      i := i + 1;
    }
    result := rPrev[kMax];
  }

  /** One refinement level of `romberg_integrate`: the trapezoid step
      on the halved width `h` into `rCurr[0]`, then the extrapolations
      `rCurr[1..i + 1]`, leaving `rPrev` as it was. */
  method NextLevel(f: real -> real, a: real, b: real, h: real, i: nat, rPrev: array<real>, rCurr: array<real>)
    requires i < MaxLevel && rPrev != rCurr
    requires i + 2 <= rPrev.Length && i + 2 <= rCurr.Length
    requires h == Width(a, b, i + 1) && rPrev[..i + 1] == Row(f, a, b, i)
    modifies rCurr
    ensures rCurr[..i + 2] == Row(f, a, b, i + 1)
    ensures rCurr[i + 2..] == old(rCurr[i + 2..])
  {
    var c := MidpointTotal(f, a, h, i);
    rCurr[0] := Refined(rPrev[0], h, c);
    ExtrapolateRow(rPrev, rCurr, i + 1);
    NextRow(f, a, b, i + 1, rPrev[..i + 1], h, c);
  }

  /** The extrapolation loop of one level: entries `1..k` of `rCurr` from
      its entry 0 and entries `0..k - 1` of `rPrev`. */
  method ExtrapolateRow(rPrev: array<real>, rCurr: array<real>, k: nat)
    requires rPrev != rCurr && k + 1 <= rPrev.Length && k + 1 <= rCurr.Length
    modifies rCurr
    ensures rCurr[..k + 1] == Richardson(rPrev[..k], old(rCurr[0]), k)
    ensures rCurr[k + 1..] == old(rCurr[k + 1..])
  {
    ghost var prev := rPrev[..k];
    var pow4 := 1.0;
    var m := 1;
    while m <= k
      invariant 1 <= m <= k + 1
      invariant pow4 == Pow4(m - 1)
      invariant rCurr[..m] == Richardson(prev, old(rCurr[0]), m - 1)
      invariant rCurr[k + 1..] == old(rCurr[k + 1..])
    {
      ghost var done := rCurr[..m];
      pow4 := pow4 * 4.0;
      rCurr[m] := Extrapolated(pow4, rCurr[m - 1], rPrev[m - 1]);
      assert rCurr[..m + 1] == done + [rCurr[m]];
      m := m + 1;
    }
  }

  /** The midpoint loop of one level: the sum of `f` over the `1 << i`
      new sample points `a + (2j - 1) h`. */
  method MidpointTotal(f: real -> real, a: real, h: real, i: nat) returns (c: real)
    requires i < MaxLevel
    ensures c == MidpointSum(f, a, h, Pow2(i))
  {
    SampleIndexFitsInt(i);
    c := 0.0;
    var j := 1;
    while j <= Pow2(i)
      invariant 1 <= j <= Pow2(i) + 1
      invariant c == MidpointSum(f, a, h, j - 1)
    {
      c := c + f(Midpoint(a, h, j));
      j := j + 1;
    }
  }

  /** How `Row(k)` is built from `Row(k - 1)`. */
  lemma NextRow(f: real -> real, a: real, b: real, k: nat, prev: seq<real>, h: real, c: real)
    requires k >= 1 && prev == Row(f, a, b, k - 1)
    requires h == Width(a, b, k) && c == MidpointSum(f, a, h, Pow2(k - 1))
    ensures Row(f, a, b, k) == Richardson(prev, Refined(prev[0], h, c), k)
  {
  }

  /** Under `kMax <= MaxLevel`, every sample index `2 * j - 1` with
      `j <= 1 << i`, `i < kMax`, and the computation `2 * j`, fit in a C `int`. */
  lemma SampleIndexFitsInt(i: nat)
    requires i < MaxLevel
    ensures 2 * Pow2(i) <= 0x7FFF_FFFF
  {
    Pow2Monotone(i, MaxLevel - 1);
    Pow2Sum(12, 17);
    Pow2Sum(12, 5);
    assert Pow2(12) == 0x1000 && Pow2(5) == 0x20;
  }

  lemma {:induction false} Pow2Sum(i: nat, j: nat)
    ensures Pow2(i + j) == Pow2(i) * Pow2(j)
  {
    if i > 0 {
      Pow2Sum(i - 1, j);
    }
  }

  lemma {:induction false} Pow2Monotone(i: nat, j: nat)
    requires i <= j
    ensures Pow2(i) <= Pow2(j)
    decreases j - i
  {
    if i < j {
      Pow2Monotone(i + 1, j);
    }
  }

  // ----- k_max = 0 -----

  /** With no refinement levels the result is the single-panel trapezoid. */
  lemma NoRefinementIsTrapezoid(f: real -> real, a: real, b: real, eps: real)
    ensures Integrate(f, a, b, eps, 0) == ((b - a) / 2.0) * (f(b) + f(a))
  {
  }

  // ----- Exit level -----

  /** The result is the diagonal entry of the first level whose diagonal moved
      by less than `eps`, or of the last level when none did. */
  lemma {:induction false} IntegrateIsFirstConvergedDiagonal(f: real -> real, a: real, b: real, eps: real, kMax: nat, k: nat)
    requires k <= kMax && (k >= 1 || kMax == 0)
    requires forall j :: 1 <= j < k ==> !Converged(f, a, b, eps, j)
    requires k == kMax || Converged(f, a, b, eps, k)
    ensures Integrate(f, a, b, eps, kMax) == Diagonal(f, a, b, k)
  {
    RunFromEarlierLevel(f, a, b, eps, kMax, k, 0);
  }

  lemma {:induction false} RunFromEarlierLevel(f: real -> real, a: real, b: real, eps: real, kMax: nat, k: nat, i: nat)
    requires i < k <= kMax || i == k == kMax
    requires forall j :: i < j < k ==> !Converged(f, a, b, eps, j)
    requires k == kMax || Converged(f, a, b, eps, k)
    ensures Run(f, a, b, eps, kMax, i) == Diagonal(f, a, b, k)
    decreases kMax - i
  {
    if i < kMax && i + 1 < k {
      RunFromEarlierLevel(f, a, b, eps, kMax, k, i + 1);
    }
  }

  /** Conversely, the result is always some diagonal entry at a level no deeper than `kMax`. */
  lemma {:induction false} IntegrateIsDiagonal(f: real -> real, a: real, b: real, eps: real, kMax: nat)
    ensures exists k :: 0 <= k <= kMax && Integrate(f, a, b, eps, kMax) == Diagonal(f, a, b, k)
  {
    var k := RunLevel(f, a, b, eps, kMax, 0);
  }

  lemma {:induction false} RunLevel(f: real -> real, a: real, b: real, eps: real, kMax: nat, i: nat) returns (k: nat)
    requires i <= kMax
    ensures i <= k <= kMax && Run(f, a, b, eps, kMax, i) == Diagonal(f, a, b, k)
    decreases kMax - i
  {
    if i == kMax {
      k := kMax;
    } else if Converged(f, a, b, eps, i + 1) {
      k := i + 1;
    } else {
      k := RunLevel(f, a, b, eps, kMax, i + 1);
    }
  }

  // ----- Degenerate interval -----

  /** Every entry of a row is 0 when the interval is empty. */
  lemma {:induction false} EmptyIntervalRowIsZero(f: real -> real, a: real, k: nat)
    ensures forall m :: 0 <= m <= k ==> Row(f, a, a, k)[m] == 0.0
  {
    if k > 0 {
      EmptyIntervalRowIsZero(f, a, k - 1);
      var prev := Row(f, a, a, k - 1);
      var h := Width(a, a, k);
      EmptyIntervalWidthIsZero(a, k);
      var c := MidpointSum(f, a, h, Pow2(k - 1));
      assert Refined(prev[0], h, c) == 0.0;
      RichardsonOfZeros(prev, Refined(prev[0], h, c), k);
    }
  }

  lemma {:induction false} EmptyIntervalWidthIsZero(a: real, k: nat)
    ensures Width(a, a, k) == 0.0
  {
    if k > 0 {
      EmptyIntervalWidthIsZero(a, k - 1);
    }
  }

  lemma {:induction false} RichardsonOfZeros(prev: seq<real>, t0: real, m: nat)
    requires m <= |prev| && t0 == 0.0
    requires forall j :: 0 <= j < |prev| ==> prev[j] == 0.0
    ensures forall j :: 0 <= j <= m ==> Richardson(prev, t0, m)[j] == 0.0
  {
    if m > 0 {
      RichardsonOfZeros(prev, t0, m - 1);
    }
  }

  /** Integrating over `[a, a]` gives exactly 0, for every integrand and tolerance. */
  lemma EmptyIntervalIsZero(f: real -> real, a: real, eps: real, kMax: nat)
    ensures Integrate(f, a, a, eps, kMax) == 0.0
  {
    var k := RunLevel(f, a, a, eps, kMax, 0);
    EmptyIntervalRowIsZero(f, a, k);
  }

  // ----- Reversed bounds -----

  // A row is negated entry by entry with `RealSeqs.Neg`.

  /** The sum at `n` midpoints starting at `p`, split into its first term and the rest. */
  lemma {:induction false} MidpointSumPeel(f: real -> real, p: real, h: real, n: nat)
    requires n >= 1
    ensures MidpointSum(f, p, h, n) == f(Midpoint(p, h, 1)) + MidpointSum(f, p + 2.0 * h, h, n - 1)
  {
    if n > 1 {
      MidpointSumPeel(f, p, h, n - 1);
      MidpointShift(p, h, n - 1);
    }
  }

  lemma MidpointShift(p: real, h: real, j: nat)
    requires j >= 1
    ensures Midpoint(p + 2.0 * h, h, j) == Midpoint(p, h, j + 1)
  {
  }

  /** Walking `n` midpoints backwards from `q` with step `-h` visits the same
      points as walking forwards from `p` with step `h`, when `q = p + 2nh`. */
  lemma {:induction false} MidpointSumMirror(f: real -> real, q: real, p: real, h: real, n: nat)
    requires q == p + (2 * n) as real * h
    ensures MidpointSum(f, q, -h, n) == MidpointSum(f, p, h, n)
    decreases n
  {
    if n > 0 {
      MirrorPoints(q, p, h, n);
      MidpointSumMirror(f, q, p + 2.0 * h, h, n - 1);
      MidpointSumPeel(f, p, h, n);
    }
  }

  lemma MirrorPoints(q: real, p: real, h: real, n: nat)
    requires n >= 1 && q == p + (2 * n) as real * h
    ensures Midpoint(q, -h, n) == Midpoint(p, h, 1)
    ensures q == p + 2.0 * h + (2 * (n - 1)) as real * h
  {
  }

  /** One Richardson step commutes with negating both rows. */
  lemma RichardsonStepNegated(w: real, x: real, y: real)
    requires w >= 4.0
    ensures Extrapolated(w, -x, -y) == -Extrapolated(w, x, y)
  {
  }

  lemma {:induction false} RichardsonNegated(prev: seq<real>, t0: real, m: nat)
    requires m <= |prev|
    ensures Richardson(Neg(prev), -t0, m) == Neg(Richardson(prev, t0, m))
  {
    if m > 0 {
      RichardsonNegated(prev, t0, m - 1);
      var r := Richardson(prev, t0, m - 1);
      var r' := Richardson(Neg(prev), -t0, m - 1);
      var w := Pow4(m);
      var e := Extrapolated(w, r[m - 1], prev[m - 1]);
      var e' := Extrapolated(w, r'[m - 1], Neg(prev)[m - 1]);
      assert Richardson(prev, t0, m) == r + [e];
      assert Richardson(Neg(prev), -t0, m) == r' + [e'];
      assert r'[m - 1] == -r[m - 1];
      RichardsonStepNegated(w, r[m - 1], prev[m - 1]);
      assert e' == -e;
      NegAppend(r, e);
    }
  }

  lemma NegAppend(s: seq<real>, x: real)
    ensures Neg(s + [x]) == Neg(s) + [-x]
  {
  }

  lemma {:induction false} WidthReversed(a: real, b: real, k: nat)
    ensures Width(b, a, k) == -Width(a, b, k)
  {
    if k > 0 {
      WidthReversed(a, b, k - 1);
    }
  }

  /** `2^k` panels of width `Width(a, b, k)` span `[a, b]`. */
  lemma {:induction false} WidthSpan(a: real, b: real, k: nat)
    ensures b == a + (Pow2(k) as real) * Width(a, b, k)
  {
    if k > 0 {
      WidthSpan(a, b, k - 1);
      var w := Width(a, b, k - 1);
      var p := Pow2(k - 1) as real;
      assert Pow2(k) as real == 2.0 * p;
      assert (2.0 * p) * (w / 2.0) == p * w;
    }
  }

  /** The refined entry 0 commutes with negation once the midpoint sum is shared. */
  lemma TrapezoidStepNegated(p0: real, h: real, c: real)
    ensures Refined(-p0, -h, c) == -Refined(p0, h, c)
  {
  }

  /** Entry 0 of a level's row changes sign with the bounds: the width does,
      and the same midpoints are sampled in the opposite order. */
  lemma ReversedSeed(f: real -> real, a: real, b: real, k: nat, p0: real, p0': real)
    requires k >= 1 && p0' == -p0
    ensures Refined(p0', Width(b, a, k), MidpointSum(f, b, Width(b, a, k), Pow2(k - 1)))
         == -Refined(p0, Width(a, b, k), MidpointSum(f, a, Width(a, b, k), Pow2(k - 1)))
  {
    var h, n := Width(a, b, k), Pow2(k - 1);
    WidthReversed(a, b, k);
    WidthSpan(a, b, k);
    assert Pow2(k) == 2 * n;
    MidpointSumMirror(f, b, a, h, n);
    TrapezoidStepNegated(p0, h, MidpointSum(f, a, h, n));
  }

  /** Swapping the bounds negates every row: the width changes sign, the same
      midpoints are sampled, and the recurrence is linear. */
  lemma {:induction false} ReversedRowIsNegated(f: real -> real, a: real, b: real, k: nat)
    ensures Row(f, b, a, k) == Neg(Row(f, a, b, k))
  {
    if k == 0 {
      var t := Trapezoid(f, a, b);
      assert Trapezoid(f, b, a) == -t;
      assert Neg([t]) == [-t];
    } else {
      ReversedRowIsNegated(f, a, b, k - 1);
      var prev, prev' := Row(f, a, b, k - 1), Row(f, b, a, k - 1);
      var h, h' := Width(a, b, k), Width(b, a, k);
      var n := Pow2(k - 1);
      var t0 := Refined(prev[0], h, MidpointSum(f, a, h, n));
      var t0' := Refined(prev'[0], h', MidpointSum(f, b, h', n));
      ReversedSeed(f, a, b, k, prev[0], prev'[0]);
      assert Row(f, a, b, k) == Richardson(prev, t0, k);
      assert Row(f, b, a, k) == Richardson(prev', t0', k);
      RichardsonNegated(prev, t0, k);
    }
  }

  lemma ReversedDiagonal(f: real -> real, a: real, b: real, k: nat)
    ensures Diagonal(f, b, a, k) == -Diagonal(f, a, b, k)
  {
    ReversedRowIsNegated(f, a, b, k);
  }

  lemma ReversedConverged(f: real -> real, a: real, b: real, eps: real, k: nat)
    requires k >= 1
    ensures Converged(f, b, a, eps, k) == Converged(f, a, b, eps, k)
  {
    ReversedDiagonal(f, a, b, k);
    ReversedDiagonal(f, a, b, k - 1);
    var x, y := Diagonal(f, a, b, k), Diagonal(f, a, b, k - 1);
    assert Abs(-x - -y) == Abs(x - y);
  }

  lemma {:induction false} ReversedRunIsNegated(f: real -> real, a: real, b: real, eps: real, kMax: nat, i: nat)
    requires i <= kMax
    ensures Run(f, b, a, eps, kMax, i) == -Run(f, a, b, eps, kMax, i)
    decreases kMax - i
  {
    if i == kMax {
      ReversedDiagonal(f, a, b, kMax);
    } else {
      ReversedConverged(f, a, b, eps, i + 1);
      ReversedDiagonal(f, a, b, i + 1);
      ReversedRunIsNegated(f, a, b, eps, kMax, i + 1);
    }
  }

  /** Swapping the bounds negates the result, for every integrand, tolerance and level count. */
  lemma ReversedBoundsNegate(f: real -> real, a: real, b: real, eps: real, kMax: nat)
    ensures Integrate(f, b, a, eps, kMax) == -Integrate(f, a, b, eps, kMax)
  {
    ReversedRunIsNegated(f, a, b, eps, kMax, 0);
  }
}
