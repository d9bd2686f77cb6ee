/**
 What the converter of core/audio/Resampler.h computes, without its tap loop: it is linear in the
 signal, and its response to a single sample is that sample's weight over the sum of the sixteen.
*/
module ResamplerResponse {
  import opened Resampling

  // ---------------------------------------------------------------- the response to one sample

  /** The weights at distances x + 7, x + 6, ..., x - 8. */
  function SixteenFrom(w: real -> real, x: real): real {
    w(x + 7.0) + w(x + 6.0) + w(x + 5.0) + w(x + 4.0) + w(x + 3.0) + w(x + 2.0) + w(x + 1.0) + w(x) +
    w(x - 1.0) + w(x - 2.0) + w(x - 3.0) + w(x - 4.0) + w(x - 5.0) + w(x - 6.0) + w(x - 7.0) + w(x - 8.0)
  }

  /** The weights of the sixteen samples around position p, from floor(p) - 7 to floor(p) + 8. */
  function SixteenWeights(w: real -> real, p: real): real {
    SixteenFrom(w, p - p.Floor as real)
  }

  /** What a unit sample at i contributes to the output at p; a sum of weights near zero or below is not divided by. */
  function Response(w: real -> real, p: real, i: int): real {
    if p.Floor - 7 <= i <= p.Floor + 8
    then if SixteenWeights(w, p) > 0.000000001 then w(p - i as real) / SixteenWeights(w, p) else w(p - i as real)
    else 0.0
  }

  lemma WSumStep(w: real -> real, p: real, lo: int, hi: int)
    requires lo < hi
    ensures WSum(w, p, lo, hi) == WSum(w, p, lo, hi - 1) + w(p - (hi - 1) as real)
  {
  }

  lemma {:induction false} WSumFrom(w: real -> real, p: real, lo: int, k: nat)
    requires k <= 16 && lo == p.Floor - 7
    ensures var f := p.Floor as real;
            WSum(w, p, lo, lo + k) ==
              (if k > 0 then w(p - f + 7.0) else 0.0) + (if k > 1 then w(p - f + 6.0) else 0.0) +
              (if k > 2 then w(p - f + 5.0) else 0.0) + (if k > 3 then w(p - f + 4.0) else 0.0) +
              (if k > 4 then w(p - f + 3.0) else 0.0) + (if k > 5 then w(p - f + 2.0) else 0.0) +
              (if k > 6 then w(p - f + 1.0) else 0.0) + (if k > 7 then w(p - f) else 0.0) +
              (if k > 8 then w(p - f - 1.0) else 0.0) + (if k > 9 then w(p - f - 2.0) else 0.0) +
              (if k > 10 then w(p - f - 3.0) else 0.0) + (if k > 11 then w(p - f - 4.0) else 0.0) +
              (if k > 12 then w(p - f - 5.0) else 0.0) + (if k > 13 then w(p - f - 6.0) else 0.0) +
              (if k > 14 then w(p - f - 7.0) else 0.0) + (if k > 15 then w(p - f - 8.0) else 0.0)
    decreases k
  {
    if k > 0 {
      WSumFrom(w, p, lo, k - 1);
      WSumStep(w, p, lo, lo + k);
      hide WSum;
      assert p - (lo + k - 1) as real == p - p.Floor as real + (8 - k) as real;
    }
  }

  lemma WSumIsSixteen(w: real -> real, p: real)
    ensures WSum(w, p, p.Floor - HALF + 1, p.Floor + HALF + 1) == SixteenWeights(w, p)
  {
    WSumFrom(w, p, p.Floor - 7, 16);
    hide WSum;
  }

  // ---------------------------------------------------------------- superposition

  /** The signal's samples below n, each times its response. */
  function Superposed(w: real -> real, z: seq<real>, p: real, n: nat): real
    requires n <= |z|
  {
    if n == 0 then 0.0 else Superposed(w, z, p, n - 1) + z[n - 1] * Response(w, p, n - 1)
  }

  function Over(a: real, d: real): real
    requires d > 0.0
  {
    a / d
  }

  /** What the weighted sum is divided by. */
  function Divisor(w: real -> real, p: real): (d: real)
    ensures d > 0.0
  {
    if SixteenWeights(w, p) > 0.000000001 then SixteenWeights(w, p) else 1.0
  }

  lemma ResponseIs(w: real -> real, p: real, i: int)
    ensures Response(w, p, i) == if p.Floor - 7 <= i <= p.Floor + 8 then Over(w(p - i as real), Divisor(w, p)) else 0.0
  {
    hide SixteenWeights;
  }

  lemma InterpolateIs(w: real -> real, z: seq<real>, p: real)
    requires InRange(z, p)
    ensures Interpolate(w, z, p) == Over(Acc(w, z, p, p.Floor - 7, p.Floor + 9), Divisor(w, p))
  {
    WSumIsSixteen(w, p);
    hide SixteenWeights, WSum, Acc;
  }

  lemma Share(acc: real, weight: real, x: real, d: real)
    requires d > 0.0
    ensures Over(acc + Times(weight, x), d) == Over(acc, d) + x * Over(weight, d)
  {
  }

  /** The taps a window's end n has passed. */
  function Passed(p: real, n: int): (hi: int)
    ensures p.Floor - 7 <= hi
  {
    if n < p.Floor - 7 then p.Floor - 7 else if n > p.Floor + 9 then p.Floor + 9 else n
  }

  /** The next sample's share, inside the window and outside. */
  lemma OneMoreSample(w: real -> real, z: seq<real>, p: real, n: nat)
    requires InRange(z, p) && n < |z|
    ensures Over(Acc(w, z, p, p.Floor - 7, Passed(p, n + 1)), Divisor(w, p)) ==
            Over(Acc(w, z, p, p.Floor - 7, Passed(p, n)), Divisor(w, p)) + z[n] * Response(w, p, n)
  {
    hide Divisor, Response, Acc, Over;
    ResponseIs(w, p, n);
    if p.Floor - 7 <= n <= p.Floor + 8 {
      OneMoreTap(w, z, p, n);
      assert Passed(p, n + 1) == n + 1 && Passed(p, n) == n;
    } else {
      assert Passed(p, n + 1) == Passed(p, n) && z[n] * 0.0 == 0.0;
    }
  }

  lemma AccStep(w: real -> real, z: seq<real>, p: real, lo: int, n: int)
    requires 0 <= lo <= n < |z|
    ensures Acc(w, z, p, lo, n + 1) == Acc(w, z, p, lo, n) + Times(w(p - n as real), z[n])
  {
  }

  lemma OneMoreTap(w: real -> real, z: seq<real>, p: real, n: nat)
    requires 0 <= p.Floor - 7 <= n <= p.Floor + 8 && n < |z|
    ensures Over(Acc(w, z, p, p.Floor - 7, n + 1), Divisor(w, p)) ==
            Over(Acc(w, z, p, p.Floor - 7, n), Divisor(w, p)) + z[n] * Over(w(p - n as real), Divisor(w, p))
  {
    hide *;
    AccStep(w, z, p, p.Floor - 7, n);
    Share(Acc(w, z, p, p.Floor - 7, n), w(p - n as real), z[n], Divisor(w, p));
  }

  lemma NoSample(w: real -> real, z: seq<real>, p: real)
    requires InRange(z, p)
    ensures Over(Acc(w, z, p, p.Floor - 7, Passed(p, 0)), Divisor(w, p)) == 0.0
  {
    hide Divisor;
  }

  lemma TapsFit(z: seq<real>, p: real, n: nat)
    requires InRange(z, p) && n <= |z|
    ensures 0 <= p.Floor - 7 <= Passed(p, n) <= |z|
    ensures n == |z| ==> Passed(p, n) == p.Floor + 9
  {
  }

  lemma {:induction false} AccIsSuperposed(w: real -> real, z: seq<real>, p: real, n: nat)
    requires InRange(z, p) && n <= |z|
    ensures 0 <= p.Floor - 7 <= Passed(p, n) <= |z|
    ensures Superposed(w, z, p, n) == Over(Acc(w, z, p, p.Floor - 7, Passed(p, n)), Divisor(w, p))
    decreases n
  {
    hide InRange, Passed, Acc, Divisor, Response, Over;
    TapsFit(z, p, n);
    if n == 0 {
      NoSample(w, z, p);
    } else {
      var m: nat := n - 1;
      AccIsSuperposed(w, z, p, m);
      OneMoreSample(w, z, p, m);
      assert m + 1 == n && Superposed(w, z, p, n) == Superposed(w, z, p, m) + z[m] * Response(w, p, m);
    }
  }

  /** Every output is the sum over the whole signal of each sample times its response. */
  lemma OutputIsSuperposition(w: real -> real, z: seq<real>, p: real)
    requires InRange(z, p)
    ensures Interpolate(w, z, p) == Superposed(w, z, p, |z|)
  {
    hide *;
    TapsFit(z, p, |z|);
    InterpolateIs(w, z, p);
    AccIsSuperposed(w, z, p, |z|);
  }

  // ---------------------------------------------------------------- impulse response and linearity

  /** One at i, zero elsewhere. */
  ghost predicate Impulse(z: seq<real>, i: nat) {
    i < |z| && z[i] == 1.0 && forall j :: 0 <= j < |z| && j != i ==> z[j] == 0.0
  }

  lemma {:induction false} OnlyOne(w: real -> real, z: seq<real>, p: real, i: nat, n: nat)
    requires Impulse(z, i) && n <= |z|
    ensures Superposed(w, z, p, n) == if i < n then Response(w, p, i) else 0.0
    decreases n
  {
    hide Response;
    if n > 0 { OnlyOne(w, z, p, i, n - 1); }
  }

  lemma ImpulseResponse(w: real -> real, z: seq<real>, p: real, i: nat)
    requires InRange(z, p) && Impulse(z, i)
    ensures Interpolate(w, z, p) ==
            if i < p.Floor - 7 || i > p.Floor + 8 then 0.0
            else if SixteenWeights(w, p) > 0.000000001 then w(p - i as real) / SixteenWeights(w, p)
            else w(p - i as real)
  {
    OutputIsSuperposition(w, z, p);
    OnlyOne(w, z, p, i, |z|);
    hide Interpolate, SixteenWeights;
  }

  function Plus(x: seq<real>, y: seq<real>): (z: seq<real>)
    requires |x| == |y|
    ensures |z| == |x|
  {
    seq(|x|, i requires 0 <= i < |x| => x[i] + y[i])
  }

  function Multiplied(c: real, x: seq<real>): (z: seq<real>)
    ensures |z| == |x|
  {
    seq(|x|, i requires 0 <= i < |x| => c * x[i])
  }

  lemma {:induction false} SuperposedIsLinear(w: real -> real, c: real, x: seq<real>, y: seq<real>, p: real, n: nat)
    requires |x| == |y| && n <= |x|
    ensures Superposed(w, Plus(Multiplied(c, x), y), p, n) == c * Superposed(w, x, p, n) + Superposed(w, y, p, n)
    decreases n
  {
    hide Response;
    if n > 0 {
      SuperposedIsLinear(w, c, x, y, p, n - 1);
      Distribute(c, x[n - 1], y[n - 1], Response(w, p, n - 1), Superposed(w, x, p, n - 1));
    }
  }

  lemma Distribute(c: real, x: real, y: real, r: real, s: real)
    ensures (c * x + y) * r == c * (x * r) + y * r && c * (s + x * r) == c * s + c * (x * r)
  {
  }

  lemma SameRange(x: seq<real>, y: seq<real>, p: real)
    requires |x| == |y| && InRange(x, p)
    ensures InRange(y, p)
  {
  }

  /** Outputs are linear in the signal. */
  lemma OutputIsLinear(w: real -> real, c: real, x: seq<real>, y: seq<real>, p: real)
    requires |x| == |y| && InRange(x, p)
    ensures InRange(Plus(Multiplied(c, x), y), p)
    ensures Interpolate(w, Plus(Multiplied(c, x), y), p) == c * Interpolate(w, x, p) + Interpolate(w, y, p)
  {
    hide *;
    SameRange(x, y, p);
    SameRange(x, Plus(Multiplied(c, x), y), p);
    OutputIsSuperposition(w, x, p);
    OutputIsSuperposition(w, y, p);
    OutputIsSuperposition(w, Plus(Multiplied(c, x), y), p);
    SuperposedIsLinear(w, c, x, y, p, |x|);
  }

  // ---------------------------------------------------------------- along a run

  /** Shifting signal and position together changes no response. */
  lemma ResponseShifts(w: real -> real, p: real, i: int)
    ensures Response(w, p + TAPS as real, i + TAPS) == Response(w, p, i)
  {
    hide SixteenFrom;
    var q := p + TAPS as real;
    assert q.Floor == p.Floor + TAPS && q - q.Floor as real == p - p.Floor as real;
    assert q - (i + TAPS) as real == p - i as real;
  }

  lemma {:induction false} ZerosAddNothing(w: real -> real, fed: seq<real>, p: real, n: nat)
    requires n <= TAPS
    ensures Superposed(w, Padded(fed), p, n) == 0.0
    decreases n
  {
    hide Response;
    if n > 0 {
      ZerosAddNothing(w, fed, p, n - 1);
      assert Padded(fed)[n - 1] == ZEROS[n - 1] == 0.0;
    }
  }

  lemma {:induction false} PaddingAddsNothing(w: real -> real, fed: seq<real>, p: real, n: nat)
    requires n <= |fed|
    ensures Superposed(w, Padded(fed), p + TAPS as real, TAPS + n) == Superposed(w, fed, p, n)
    decreases n
  {
    hide Response;
    if n == 0 {
      ZerosAddNothing(w, fed, p + TAPS as real, TAPS);
    } else {
      PaddingAddsNothing(w, fed, p, n - 1);
      ResponseShifts(w, p, n - 1);
      assert Padded(fed)[TAPS + n - 1] == fed[n - 1];
    }
  }

  /** Where output k is taken, counted from the signal's first sample. */
  function Place(rates: Rates, k: nat): real
    requires rates.Valid()
  {
    k as real * (rates.inRate as real / rates.outRate as real)
  }

  lemma PositionIs(rates: Rates, k: nat)
    requires rates.Valid()
    ensures Position(rates, k) == Place(rates, k) + TAPS as real
  {
  }

  lemma CorrectMeans(rates: Rates, w: real -> real, z: seq<real>, k: nat, y: real)
    requires rates.Valid() && Correct(rates, w, z, k, y)
    ensures InRange(z, Position(rates, k)) && y == Interpolate(w, z, Position(rates, k))
  {
  }

  lemma CorrectIsSuperposed(rates: Rates, w: real -> real, fed: seq<real>, k: nat, y: real)
    requires rates.Valid() && Correct(rates, w, Padded(fed), k, y)
    ensures y == Superposed(w, fed, Place(rates, k), |fed|)
  {
    hide *;
    PositionIs(rates, k);
    CorrectMeans(rates, w, Padded(fed), k, y);
    PaddedGrows(fed, []);
    OutputIsSuperposition(w, Padded(fed), Position(rates, k));
    PaddingAddsNothing(w, fed, Place(rates, k), |fed|);
  }

  lemma OutputIsCorrect(rates: Rates, w: real -> real, z: seq<real>, out: seq<real>, k: nat)
    requires rates.Valid() && IsIdeal(rates, w, z, 0, out) && k < |out|
    ensures Correct(rates, w, z, k, out[k])
  {
    hide Correct;
    assert Correct(rates, w, z, 0 + k, out[k]);
  }

  /** For any blocks and capacities, output k is the sum over all samples fed of each one times its response at Place(k). */
  lemma RunIsSuperposition(rates: Rates, w: real -> real, calls: seq<Call>, k: nat)
    requires rates.Valid() && k < |Emitted(rates, w, calls)|
    ensures Emitted(rates, w, calls)[k] == Superposed(w, Fed(calls), Place(rates, k), |Fed(calls)|)
  {
    hide *;
    OutputsAreIdeal(rates, w, calls);
    OutputIsCorrect(rates, w, Padded(Fed(calls)), Emitted(rates, w, calls), k);
    CorrectIsSuperposed(rates, w, Fed(calls), k, Emitted(rates, w, calls)[k]);
  }
}
