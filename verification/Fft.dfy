/**
 The in-place radix-2 transform of core/features/Fft.h, and the proof that it computes the
 discrete Fourier transform.

 Samples are exact reals. The pair (cos(-2*pi/len), sin(-2*pi/len)) is a parameter `tw(len)`
 constrained only by the two facts in `TwiddleLaw`.
*/
module Fft {
  import opened ComplexNumbers

  // ---------------------------------------------------------------- powers of two

  function Exp2(e: nat): (n: nat)
    ensures n >= 1
  {
    if e == 0 then 1 else 2 * Exp2(e - 1)
  }

  lemma {:induction false} Exp2Monotone(d: nat, e: nat)
    requires d < e
    ensures Exp2(d) < Exp2(e)
  {
    if d + 1 < e { Exp2Monotone(d, e - 1); }
  }

  /** n samples split into whole blocks of (even) length len. */
  predicate Whole(n: nat, len: nat) {
    len > 0 && len % 2 == 0 && n % len == 0
  }

  lemma {:induction false} Exp2Whole(d: nat, e: nat)
    requires 1 <= d <= e
    ensures Whole(Exp2(e), Exp2(d))
    decreases e - d
  {
    hide Whole;
    if d == e {
      WholeSelf(Exp2(d - 1));
    } else {
      Exp2Whole(d, e - 1);
      SumOfMultiples(Exp2(e - 1), Exp2(e - 1), Exp2(d));
    }
  }

  lemma WholeSelf(half: nat)
    requires half > 0
    ensures Whole(2 * half, 2 * half)
  {
  }

  lemma MultipleHasNoRemainder(d: int, q: int)
    requires d > 0
    ensures (d * q) % d == 0
  {
    var k := q - (d * q) / d;
    assert (d * q) % d == d * k;
    if k >= 1 {
      ScaledUp(d, k);
    } else if k <= -1 {
      ScaledUp(d, -k);
    }
  }

  lemma ScaledUp(d: int, k: int)
    requires d > 0 && k >= 1
    ensures d * k >= d
  {
  }

  lemma Peel(n: nat, len: nat)
    requires n > 0 && Whole(n, len)
    ensures n >= len && Whole(n - len, len)
  {
    assert n == len * (n / len);
    MultipleHasNoRemainder(len, n / len - 1);
    assert n - len == len * (n / len - 1);
  }

  lemma SumOfMultiples(m: nat, n: nat, len: nat)
    requires Whole(m, len) && Whole(n, len)
    ensures Whole(m + n, len)
  {
    assert m + n == len * (m / len + n / len);
    MultipleHasNoRemainder(len, m / len + n / len);
  }

  // ---------------------------------------------------------------- the transform being computed

  /** tw(2) is a half turn, and doubling the length halves the angle. */
  ghost predicate TwiddleLaw(tw: nat -> Complex) {
    && tw(2) == MINUS_ONE
    && forall m: nat :: m >= 2 ==> Mul(tw(2 * m), tw(2 * m)) == tw(m)
  }

  /** The root of unity used for a transform of length n; length 1 needs none. */
  function Root(tw: nat -> Complex, n: nat): Complex {
    if n <= 1 then ONE else tw(n)
  }

  /** x[0] + x[1]*z + x[2]*z^2 + ... */
  function Eval(x: seq<Complex>, z: Complex): Complex {
    if x == [] then ZERO else Add(x[0], Mul(z, Eval(x[1..], z)))
  }

  function Dft(x: seq<Complex>, w: Complex): (d: seq<Complex>)
    ensures |d| == |x|
  {
    seq(|x|, k requires 0 <= k => Eval(x, Pow(w, k)))
  }

  /** The textbook sum over j < n of x[j] * w^(j*k). */
  function DftSum(x: seq<Complex>, w: Complex, k: nat, n: nat): Complex
    requires n <= |x|
  {
    if n == 0 then ZERO else Add(DftSum(x, w, k, n - 1), Mul(x[n - 1], Pow(w, (n - 1) * k)))
  }

  function Evens<T>(x: seq<T>): (r: seq<T>)
    ensures |r| == (|x| + 1) / 2
    ensures forall i :: 0 <= i < |r| ==> r[i] == x[2 * i]
  {
    seq((|x| + 1) / 2, i requires 0 <= i < (|x| + 1) / 2 => x[2 * i])
  }

  function Odds<T>(x: seq<T>): (r: seq<T>)
    ensures |r| == |x| / 2
    ensures forall i :: 0 <= i < |r| ==> r[i] == x[2 * i + 1]
  {
    seq(|x| / 2, i requires 0 <= i < |x| / 2 => x[2 * i + 1])
  }

  /** One block of the inner loop: u holds the two half transforms side by side. */
  function Butterfly(u: seq<Complex>, w: Complex): (r: seq<Complex>)
    requires |u| % 2 == 0
    ensures |r| == |u|
  {
    var h := |u| / 2;
    seq(|u|, k requires 0 <= k < |u| =>
      if k < h then Add(u[k], Mul(u[k + h], Pow(w, k)))
      else Sub(u[k - h], Mul(u[k], Pow(w, k - h))))
  }

  lemma ButterflyGet(u: seq<Complex>, w: Complex, k: nat)
    requires |u| % 2 == 0 && k < |u| / 2
    ensures Butterfly(u, w)[k] == Add(u[k], Mul(u[k + |u| / 2], Pow(w, k)))
    ensures Butterfly(u, w)[k + |u| / 2] == Sub(u[k], Mul(u[k + |u| / 2], Pow(w, k)))
  {
    hide Mul, Add, Sub;
  }

  /** One iteration of the outer loop: butterflies on consecutive blocks of length len. */
  function Pass(a: seq<Complex>, len: nat, w: Complex): (r: seq<Complex>)
    requires Whole(|a|, len)
    ensures |r| == |a|
    decreases |a|
  {
    if a == [] then []
    else
      Peel(|a|, len);
      Butterfly(a[..len], w) + Pass(a[len..], len, w)
  }

  lemma {:induction false} PassConcat(a: seq<Complex>, b: seq<Complex>, len: nat, w: Complex)
    requires Whole(|a|, len) && Whole(|b|, len)
    ensures Whole(|a| + |b|, len)
    ensures Pass(a + b, len, w) == Pass(a, len, w) + Pass(b, len, w)
    decreases |a|
  {
    hide Mul, Add, Sub, Butterfly, Whole;
    SumOfMultiples(|a|, |b|, len);
    if a == [] {
      assert a + b == b;
    } else {
      Peel(|a|, len);
      PassConcat(a[len..], b, len, w);
      assert (a + b)[..len] == a[..len];
      assert (a + b)[len..] == a[len..] + b;
    }
  }

  lemma PassOneBlock(a: seq<Complex>, w: Complex)
    requires a != [] && Whole(|a|, |a|)
    ensures |a| % 2 == 0 && Pass(a, |a|, w) == Butterfly(a, w)
  {
    hide Mul, Add, Sub, Butterfly;
    assert a[..|a|] == a && a[|a|..] == [];
  }

  // ---------------------------------------------------------------- why a pass is correct

  lemma Regroup(x0: Complex, x1: Complex, e: Complex, o: Complex, z: Complex)
    ensures Add(x0, Mul(z, Add(x1, Mul(z, Add(e, Mul(z, o))))))
         == Add(Add(x0, Mul(Mul(z, z), e)), Mul(z, Add(x1, Mul(Mul(z, z), o))))
  {
    hide Mul, Add;
    MulAdd(z, e, Mul(z, o));
    MulAssoc(z, z, o);
    var z2 := Mul(z, z);
    AddSwap(x1, Mul(z, e), Mul(z2, o));
    MulAdd(z, Mul(z, e), Add(x1, Mul(z2, o)));
    MulAssoc(z, z, e);
    AddAssoc(x0, Mul(z2, e), Mul(z, Add(x1, Mul(z2, o))));
  }

  lemma AddSwap(a: Complex, b: Complex, c: Complex)
    ensures Add(a, Add(b, c)) == Add(b, Add(a, c))
  {
  }

  /** Danielson-Lanczos at one point: split a polynomial into its even and odd part. */
  lemma {:induction false} EvalSplit(x: seq<Complex>, z: Complex)
    ensures Eval(x, z) == Add(Eval(Evens(x), Mul(z, z)), Mul(z, Eval(Odds(x), Mul(z, z))))
    decreases |x|
  {
    hide Mul, Add;
    var z2 := Mul(z, z);
    if |x| == 0 {
      MulZero(z);
      AddZero(ZERO);
    } else if |x| == 1 {
      assert Evens(x) == x && Odds(x) == [] && x[1..] == [];
      MulZero(z);
      MulZero(z2);
      AddZero(x[0]);
    } else {
      EvalSplit(x[2..], z);
      assert Evens(x)[1..] == Evens(x[2..]);
      assert Odds(x)[1..] == Odds(x[2..]);
      assert x[1..][1..] == x[2..];
      Regroup(x[0], x[1], Eval(Evens(x[2..]), z2), Eval(Odds(x[2..]), z2), z);
    }
  }

  lemma RootSquared(tw: nat -> Complex, n: nat)
    requires TwiddleLaw(tw) && n >= 1
    ensures Mul(Root(tw, 2 * n), Root(tw, 2 * n)) == Root(tw, n)
  {
  }

  /** w^(n/2) == -1 for the length-n root w. */
  lemma {:induction false} HalfTurn(tw: nat -> Complex, e: nat)
    requires TwiddleLaw(tw) && e >= 1
    ensures Pow(Root(tw, Exp2(e)), Exp2(e - 1)) == MINUS_ONE
  {
    hide Mul;
    var w := Root(tw, Exp2(e));
    if e == 1 {
      PowOne(w);
    } else {
      HalfTurn(tw, e - 1);
      RootSquared(tw, Exp2(e - 1));
      var h := Exp2(e - 2);
      PowSquare(w, h);
      PowAdd(w, h, h);
      assert h + h == Exp2(e - 1);
    }
  }

  /** The two outputs of one butterfly. */
  lemma ButterflyAt(x: seq<Complex>, tw: nat -> Complex, e: nat, k: nat)
    requires TwiddleLaw(tw) && e >= 1 && |x| == Exp2(e) && k < Exp2(e - 1)
    ensures var h, w, w2 := Exp2(e - 1), Root(tw, Exp2(e)), Root(tw, Exp2(e - 1));
            var ev, od := Dft(Evens(x), w2), Dft(Odds(x), w2);
            && Dft(x, w)[k] == Add(ev[k], Mul(od[k], Pow(w, k)))
            && Dft(x, w)[k + h] == Sub(ev[k], Mul(od[k], Pow(w, k)))
  {
    hide Mul, Add, Sub;
    var h, w, w2 := Exp2(e - 1), Root(tw, Exp2(e)), Root(tw, Exp2(e - 1));
    var ev, od, z := Dft(Evens(x), w2)[k], Dft(Odds(x), w2)[k], Pow(w, k);
    RootSquared(tw, h);
    PowSquare(w, k);
    EvalSplit(x, z);
    MulComm(z, od);
    HalfTurn(tw, e);
    PowAdd(w, k, h);
    MulMinusOne(z, od);
    EvalSplit(x, Pow(w, k + h));
    AddOpposite(ev, Mul(z, od));
  }

  lemma AddOpposite(a: Complex, b: Complex)
    ensures Add(a, Sub(ZERO, b)) == Sub(a, b)
  {
  }

  /** The transforms of the even and of the odd samples, side by side. */
  function HalfTransforms(x: seq<Complex>, w: Complex): (u: seq<Complex>)
    ensures |u| == |x|
  {
    Dft(Evens(x), w) + Dft(Odds(x), w)
  }

  lemma AssembleButterfly(ev: seq<Complex>, od: seq<Complex>, w: Complex, y: seq<Complex>)
    requires |ev| == |od| && |y| == 2 * |ev|
    requires forall k :: 0 <= k < |ev| ==> y[k] == Add(ev[k], Mul(od[k], Pow(w, k)))
    requires forall k :: |ev| <= k < |y| ==> y[k] == Sub(ev[k - |ev|], Mul(od[k - |ev|], Pow(w, k - |ev|)))
    ensures |ev + od| % 2 == 0 && Butterfly(ev + od, w) == y
  {
    hide Mul, Add, Sub, Pow, Butterfly;
    var u := ev + od;
    forall k | 0 <= k < |y|
      ensures Butterfly(u, w)[k] == y[k]
    {
      ButterflyGet(u, w, if k < |ev| then k else k - |ev|);
    }
  }

  /** A butterfly over the half transforms is the whole transform. */
  lemma DanielsonLanczos(x: seq<Complex>, tw: nat -> Complex, e: nat)
    requires TwiddleLaw(tw) && e >= 1 && |x| == Exp2(e)
    ensures |x| % 2 == 0
    ensures Butterfly(HalfTransforms(x, Root(tw, Exp2(e - 1))), Root(tw, Exp2(e))) == Dft(x, Root(tw, Exp2(e)))
  {
    hide Mul, Add, Sub, Pow, Butterfly, TwiddleLaw, Root, Evens, Odds;
    var h, w, w2 := Exp2(e - 1), Root(tw, Exp2(e)), Root(tw, Exp2(e - 1));
    var ev, od, y := Dft(Evens(x), w2), Dft(Odds(x), w2), Dft(x, w);
    forall k | 0 <= k < h
      ensures y[k] == Add(ev[k], Mul(od[k], Pow(w, k)))
    {
      ButterflyAt(x, tw, e, k);
    }
    forall k | h <= k < 2 * h
      ensures y[k] == Sub(ev[k - h], Mul(od[k - h], Pow(w, k - h)))
    {
      ButterflyAt(x, tw, e, k - h);
    }
    AssembleButterfly(ev, od, w, y);
  }

  /** What the buffer holds once every block of length 2^l has been transformed. */
  function Stage(x: seq<Complex>, tw: nat -> Complex, e: nat, l: nat): (s: seq<Complex>)
    requires l <= e && |x| == Exp2(e)
    ensures |s| == |x|
    decreases e
  {
    if l == e then Dft(x, Root(tw, Exp2(e)))
    else Stage(Evens(x), tw, e - 1, l) + Stage(Odds(x), tw, e - 1, l)
  }

  lemma LastPass(x: seq<Complex>, tw: nat -> Complex, e: nat)
    requires TwiddleLaw(tw) && 1 <= e && |x| == Exp2(e)
    ensures Whole(Exp2(e), Exp2(e))
    ensures Pass(Stage(x, tw, e, e - 1), Exp2(e), Root(tw, Exp2(e))) == Dft(x, Root(tw, Exp2(e)))
  {
    hide Mul, Add, Sub, Butterfly, Dft, Whole, Root, Eval, Pow, Pass, TwiddleLaw;
    Exp2Whole(e, e);
    var u := HalfTransforms(x, Root(tw, Exp2(e - 1)));
    assert Stage(Evens(x), tw, e - 1, e - 1) == Dft(Evens(x), Root(tw, Exp2(e - 1)));
    assert Stage(Odds(x), tw, e - 1, e - 1) == Dft(Odds(x), Root(tw, Exp2(e - 1)));
    assert Stage(x, tw, e, e - 1) == u;
    DanielsonLanczos(x, tw, e);
    PassOneBlock(u, Root(tw, Exp2(e)));
  }

  /** One pass of the outer loop doubles the length of the transformed blocks. */
  lemma {:induction false} PassAdvancesStage(x: seq<Complex>, tw: nat -> Complex, e: nat, l: nat)
    requires TwiddleLaw(tw) && 1 <= l <= e && |x| == Exp2(e)
    ensures Whole(Exp2(e), Exp2(l))
    ensures Pass(Stage(x, tw, e, l - 1), Exp2(l), Root(tw, Exp2(l))) == Stage(x, tw, e, l)
    decreases e
  {
    hide Mul, Add, Sub, Butterfly, Dft, Whole, Root, Eval, Pow, Pass, TwiddleLaw;
    Exp2Whole(l, e);
    if l == e {
      LastPass(x, tw, e);
    } else {
      PassAdvancesStage(Evens(x), tw, e - 1, l);
      PassAdvancesStage(Odds(x), tw, e - 1, l);
      var ev, od := Stage(Evens(x), tw, e - 1, l - 1), Stage(Odds(x), tw, e - 1, l - 1);
      assert Stage(x, tw, e, l - 1) == ev + od;
      PassConcat(ev, od, Exp2(l), Root(tw, Exp2(l)));
    }
  }

  // ---------------------------------------------------------------- bit reversal

  /** i with its low `bits` bits reversed. */
  function Rev(i: nat, bits: nat): (r: nat)
    ensures r < Exp2(bits)
  {
    if bits == 0 then 0 else (if i % 2 == 1 then Exp2(bits - 1) else 0) + Rev(i / 2, bits - 1)
  }

  /** The sample that bit-reversed loading puts into slot p. */
  function Unrev(p: nat, bits: nat): (i: nat)
    requires p < Exp2(bits)
    ensures i < Exp2(bits)
  {
    if bits == 0 then 0
    else if p < Exp2(bits - 1) then 2 * Unrev(p, bits - 1)
    else 2 * Unrev(p - Exp2(bits - 1), bits - 1) + 1
  }

  lemma {:induction false} RevOfUnrev(p: nat, bits: nat)
    requires p < Exp2(bits)
    ensures Rev(Unrev(p, bits), bits) == p
  {
    if bits > 0 {
      var low := if p < Exp2(bits - 1) then p else p - Exp2(bits - 1);
      RevOfUnrev(low, bits - 1);
      assert Unrev(p, bits) / 2 == Unrev(low, bits - 1);
    }
  }

  lemma {:induction false} UnrevOfRev(i: nat, bits: nat)
    requires i < Exp2(bits)
    ensures Unrev(Rev(i, bits), bits) == i
  {
    if bits > 0 {
      UnrevOfRev(i / 2, bits - 1);
    }
  }

  lemma DftOfOne(x: seq<Complex>, w: Complex)
    requires |x| == 1
    ensures Dft(x, w)[0] == x[0]
  {
    hide Mul, Add;
    assert x[1..] == [];
    assert Eval(x, ONE) == Add(x[0], Mul(ONE, ZERO));
    MulZero(ONE);
    AddZero(x[0]);
  }

  /** Bit-reversed loading is exactly stage 0: all blocks have length 1. */
  lemma {:induction false} BitReversalIsStageZero(x: seq<Complex>, tw: nat -> Complex, bits: nat, i: nat)
    requires |x| == Exp2(bits) && i < |x|
    ensures Stage(x, tw, bits, 0)[Rev(i, bits)] == x[i]
    decreases bits
  {
    if bits == 0 {
      StageOfOne(x, tw, i);
    } else {
      HalfAt(x, i);
      StageZeroAt(x, tw, bits, i);
      hide Stage, Rev;
      var half := if i % 2 == 0 then Evens(x) else Odds(x);
      hide Evens, Odds;
      BitReversalIsStageZero(half, tw, bits - 1, i / 2);
    }
  }

  lemma StageOfOne(x: seq<Complex>, tw: nat -> Complex, i: nat)
    requires |x| == Exp2(0) && i < |x|
    ensures Stage(x, tw, 0, 0)[Rev(i, 0)] == x[i]
  {
    hide Dft, Root;
    DftOfOne(x, Root(tw, 1));
  }

  lemma HalfAt(x: seq<Complex>, i: nat)
    requires |x| % 2 == 0 && i < |x|
    ensures (if i % 2 == 0 then Evens(x) else Odds(x))[i / 2] == x[i]
  {
  }

  /** The even samples' stage fills the lower half, the odd ones' the upper. */
  lemma StageZeroAt(x: seq<Complex>, tw: nat -> Complex, bits: nat, i: nat)
    requires bits > 0 && |x| == Exp2(bits) && i < |x|
    ensures var half := if i % 2 == 0 then Evens(x) else Odds(x);
            Stage(x, tw, bits, 0)[Rev(i, bits)] == Stage(half, tw, bits - 1, 0)[Rev(i / 2, bits - 1)]
  {
    hide Evens, Odds, Dft, Root;
    var e, o := Stage(Evens(x), tw, bits - 1, 0), Stage(Odds(x), tw, bits - 1, 0);
    assert Stage(x, tw, bits, 0) == e + o;
    hide Stage;
  }

  // ---------------------------------------------------------------- the transform as a sum

  lemma {:induction false} SumIsEval(x: seq<Complex>, w: Complex, k: nat, n: nat)
    requires n <= |x|
    ensures Eval(x, Pow(w, k)) == Add(DftSum(x, w, k, n), Mul(Pow(w, n * k), Eval(x[n..], Pow(w, k))))
  {
    hide Mul, Add;
    var z := Pow(w, k);
    if n == 0 {
      assert x[0..] == x;
      assert n * k == 0;
      MulOne(Eval(x, z));
      AddZero(Eval(x, z));
    } else {
      SumIsEval(x, w, k, n - 1);
      var p, q := Pow(w, (n - 1) * k), Eval(x[n..], z);
      assert x[n - 1..][1..] == x[n..];
      MulAdd(p, x[n - 1], Mul(z, q));
      MulAssoc(p, z, q);
      MulComm(p, x[n - 1]);
      AddAssoc(DftSum(x, w, k, n - 1), Mul(x[n - 1], p), Mul(Mul(p, z), q));
      PowAdd(w, (n - 1) * k, k);
      assert (n - 1) * k + k == n * k;
    }
  }

  /** Every bin of Dft is the textbook sum. */
  lemma DftIsSum(x: seq<Complex>, w: Complex, k: nat)
    requires k < |x|
    ensures Dft(x, w)[k] == DftSum(x, w, k, |x|)
  {
    hide Mul, Add;
    SumIsEval(x, w, k, |x|);
    assert x[|x|..] == [];
    MulZero(Pow(w, |x| * k));
    AddZero(DftSum(x, w, k, |x|));
  }

  // ---------------------------------------------------------------- real input

  function FromReals(x: seq<real>): (c: seq<Complex>)
    ensures |c| == |x|
  {
    seq(|x|, i requires 0 <= i < |x| => Complex(x[i], 0.0))
  }

  lemma {:induction false} UnitRoot(tw: nat -> Complex, e: nat)
    requires TwiddleLaw(tw)
    ensures Norm(Root(tw, Exp2(e))) == 1.0
  {
    hide Mul, Norm;
    NormOne();
    if e > 1 {
      UnitRoot(tw, e - 1);
      var w := Root(tw, Exp2(e));
      RootSquared(tw, Exp2(e - 1));
      NormMul(w, w);
      SquareIsOne(Norm(w));
    } else if e == 1 {
      assert Exp2(1) == 2 * Exp2(0) == 2;
    }
  }

  lemma SquareIsOne(m: real)
    requires m >= 0.0 && m * m == 1.0
    ensures m == 1.0
  {
    assert m * m - 1.0 == (m - 1.0) * (m + 1.0);
    NoZeroDivisor(m - 1.0, m + 1.0);
  }

  lemma NoZeroDivisor(a: real, b: real)
    requires b > 0.0 && a * b == 0.0
    ensures a == 0.0
  {
  }

  lemma FullTurn(tw: nat -> Complex, e: nat)
    requires TwiddleLaw(tw)
    ensures Pow(Root(tw, Exp2(e)), Exp2(e)) == ONE
  {
    hide Mul;
    var w := Root(tw, Exp2(e));
    if e == 0 {
      PowOne(w);
    } else {
      HalfTurn(tw, e);
      MulMinusOne(MINUS_ONE, ONE);
      PowAdd(w, Exp2(e - 1), Exp2(e - 1));
    }
  }

  lemma {:induction false} EvalConj(x: seq<real>, z: Complex)
    ensures Eval(FromReals(x), Conj(z)) == Conj(Eval(FromReals(x), z))
  {
    hide Mul;
    if x != [] {
      EvalConj(x[1..], z);
      assert FromReals(x)[1..] == FromReals(x[1..]);
      ConjMul(z, Eval(FromReals(x[1..]), z));
    }
  }

  /**
   Real input: bin n-k is the conjugate of bin k, so the n/2+1 powers that powerSpectrum keeps
   determine all n of them.
  */
  lemma ConjugateSymmetry(x: seq<real>, tw: nat -> Complex, e: nat, k: nat)
    requires TwiddleLaw(tw) && |x| == Exp2(e) && 0 < k < |x|
    ensures var d := Dft(FromReals(x), Root(tw, Exp2(e)));
            d[|x| - k] == Conj(d[k]) && Norm(d[|x| - k]) == Norm(d[k])
  {
    hide Mul;
    var w, n := Root(tw, Exp2(e)), |x|;
    UnitRoot(tw, e);
    NormPow(w, k);
    FullTurn(tw, e);
    PowAdd(w, n - k, k);
    UnitInverse(Pow(w, n - k), Pow(w, k));
    EvalConj(x, Pow(w, k));
  }

  // ---------------------------------------------------------------- the class

  /** A block after j butterflies: j finished outputs at the front of each half. */
  ghost function HalfDone(done: seq<Complex>, block: seq<Complex>, half: nat, j: nat): (r: seq<Complex>)
    requires |done| == |block| == 2 * half && j <= half
    ensures |r| == 2 * half
  {
    done[..j] + block[j..half] + done[half..half + j] + block[half + j..]
  }

  lemma HalfDoneEnds(done: seq<Complex>, block: seq<Complex>, half: nat)
    requires |done| == |block| == 2 * half
    ensures HalfDone(done, block, half, 0) == block && HalfDone(done, block, half, half) == done
  {
  }

  lemma HalfDoneStep(done: seq<Complex>, block: seq<Complex>, half: nat, j: nat)
    requires |done| == |block| == 2 * half && j < half
    ensures var r := HalfDone(done, block, half, j);
            && r[j] == block[j] && r[j + half] == block[j + half]
            && r[j := done[j]][j + half := done[j + half]] == HalfDone(done, block, half, j + 1)
  {
  }

  ghost function Framed(front: seq<Complex>, mid: seq<Complex>, back: seq<Complex>): seq<Complex> {
    front + mid + back
  }

  /** Two updates inside the middle of three stretches. */
  lemma InMiddle(front: seq<Complex>, mid: seq<Complex>, back: seq<Complex>, a: nat, b: nat, x: Complex, y: Complex)
    requires a < b < |mid|
    ensures var i, s := |front|, Framed(front, mid, back);
            && |s| >= i + |mid| && s[i + a] == mid[a] && s[i + b] == mid[b]
            && s[i + a := x][i + b := y] == Framed(front, mid[a := x][b := y], back)
  {
  }

  lemma ThreeParts(s: seq<Complex>, i: nat, j: nat)
    requires i <= j <= |s|
    ensures s == s[..i] + s[i..j] + s[j..]
  {
  }

  /** The buffer after j butterflies of the block between front and back, w being the running twiddle. */
  ghost predicate Halfway(s: seq<Complex>, front: seq<Complex>, block: seq<Complex>, back: seq<Complex>,
                          wlen: Complex, w: Complex, j: nat)
  {
    && |block| % 2 == 0 && j <= |block| / 2 && w == Pow(wlen, j)
    && s == Framed(front, HalfDone(Butterfly(block, wlen), block, |block| / 2, j), back)
  }

  lemma HalfwayBegins(front: seq<Complex>, block: seq<Complex>, back: seq<Complex>, wlen: Complex)
    requires |block| % 2 == 0
    ensures Halfway(front + block + back, front, block, back, wlen, ONE, 0)
  {
    hide Butterfly;
    PowZero(wlen);
    HalfDoneEnds(Butterfly(block, wlen), block, |block| / 2);
  }

  lemma HalfwaySteps(s: seq<Complex>, front: seq<Complex>, block: seq<Complex>, back: seq<Complex>,
                     wlen: Complex, w: Complex, j: nat)
    requires Halfway(s, front, block, back, wlen, w, j) && j < |block| / 2
    ensures var a, b := |front| + j, |front| + j + |block| / 2;
            && a < b < |s|
            && Halfway(s[a := Add(s[a], Mul(s[b], w))][b := Sub(s[a], Mul(s[b], w))], front, block, back, wlen, Mul(w, wlen), j + 1)
  {
    var half, done := |block| / 2, Butterfly(block, wlen);
    PowSnoc(wlen, j);
    ButterflyGet(block, wlen, j);
    HalfDoneStep(done, block, half, j);
    InMiddle(front, HalfDone(done, block, half, j), back, j, j + half, done[j], done[j + half]);
    hide Mul, Add, Sub, Butterfly, HalfDone, Pow, Framed;
  }

  lemma HalfwayEnds(s: seq<Complex>, front: seq<Complex>, block: seq<Complex>, back: seq<Complex>, wlen: Complex, w: Complex)
    requires Halfway(s, front, block, back, wlen, w, |block| / 2)
    ensures s == front + Butterfly(block, wlen) + back
  {
    hide Butterfly;
    HalfDoneEnds(Butterfly(block, wlen), block, |block| / 2);
  }

  /** Of the pass over was, front is finished and back still to come. */
  ghost predicate Passed(was: seq<Complex>, front: seq<Complex>, back: seq<Complex>, len: nat, w: Complex) {
    Whole(|was|, len) && Whole(|back|, len) && front + Pass(back, len, w) == Pass(was, len, w)
  }

  lemma PassSteps(was: seq<Complex>, front: seq<Complex>, back: seq<Complex>, len: nat, w: Complex)
    requires Passed(was, front, back, len, w) && back != []
    ensures len > 0 && len % 2 == 0 && len <= |back|
    ensures Passed(was, front + Butterfly(back[..len], w), back[len..], len, w)
  {
    Peel(|back|, len);
    hide Butterfly, Whole;
    assert (front + Butterfly(back[..len], w)) + Pass(back[len..], len, w)
        == front + (Butterfly(back[..len], w) + Pass(back[len..], len, w));
  }

  /** Before the first block and after the last one, buf being the whole buffer cut at i. */
  lemma PassEnds(was: seq<Complex>, buf: seq<Complex>, len: nat, w: Complex)
    requires Whole(|was|, len)
    ensures Passed(was, was[..0], was[0..], len, w)
    ensures Passed(was, buf[..|buf|], buf[|buf|..], len, w) ==> buf == Pass(was, len, w)
  {
    hide Butterfly, Whole;
    assert was[0..] == was && was[..0] + Pass(was, len, w) == Pass(was, len, w);
    assert buf[..|buf|] + [] == buf && buf[|buf|..] == [];
  }

  /** Replacing the stretch between i and j of a buffer, seen from either side of the cut. */
  lemma Rewritten(buf: seq<Complex>, done: seq<Complex>, i: nat, j: nat)
    requires i <= j <= |buf| && |done| == j - i
    ensures buf[i..][..j - i] == buf[i..j]
    ensures var next := buf[..i] + done + buf[j..];
            |next| == |buf| && next[..j] == buf[..i] + done && next[j..] == buf[i..][j - i..]
  {
  }

  lemma ShiftLeft(r: nat, bit: nat, p: nat)
    ensures (2 * r + bit) * p == r * (2 * p) + bit * p
  {
  }

  method ReverseBits(i: nat, bits: nat) returns (r: nat)
    requires i < Exp2(bits)
    ensures r == Rev(i, bits)
  {
    var x: nat := i;
    r := 0;
    for b := 0 to bits
      invariant r * Exp2(bits - b) + Rev(x, bits - b) == Rev(i, bits)
    {
      ShiftLeft(r, x % 2, Exp2(bits - b - 1));
      r := 2 * r + x % 2;
      x := x / 2;
    }
    assert Rev(x, 0) == 0 && r * 1 == r;
  }

  class RealFft {
    const n: nat
    const tw: nat -> Complex  // len -> (cos(-2*pi/len), sin(-2*pi/len))
    const bitrev: array<nat>
    const re: array<real>
    const im: array<real>
    ghost const bits: nat

    ghost predicate Valid()
      reads this, bitrev
    {
      && TwiddleLaw(tw)
      && n == Exp2(bits)
      && bitrev.Length == re.Length == im.Length == n
      && re != im
      && (forall i :: 0 <= i < n ==> bitrev[i] == Rev(i, bits))
    }

    /** The two float buffers read as one complex sequence. */
    ghost function Buffer(): (s: seq<Complex>)
      requires re.Length == im.Length == n
      reads re, im
      ensures |s| == n
    {
      seq(n, i requires 0 <= i < n reads re, im requires re.Length == im.Length == n => Complex(re[i], im[i]))
    }

    constructor (size: nat, tw: nat -> Complex, ghost log2: nat)
      requires size == Exp2(log2) && TwiddleLaw(tw)
      ensures Valid() && n == size && this.tw == tw && bits == log2
      ensures fresh(bitrev) && fresh(re) && fresh(im)
    {
      var table := new nat[size];
      var nbits: nat := 0;
      var reach: nat := 1;  // 1 << nbits
      while reach < size
        invariant nbits <= log2 && reach == Exp2(nbits)
        decreases log2 - nbits
      {
        nbits := nbits + 1;
        reach := 2 * reach;
      }
      if nbits < log2 { Exp2Monotone(nbits, log2); }
      for i := 0 to size
        invariant forall j :: 0 <= j < i ==> table[j] == Rev(j, log2)
      {
        var r := ReverseBits(i, nbits);
        table[i] := r;
      }
      n, this.tw, bits := size, tw, log2;
      bitrev := table;
      re := new real[size](_ => 0.0);
      im := new real[size](_ => 0.0);
    }

    /** Loads the samples in bit-reversed order: the buffer becomes stage 0. */
    method Load(input: array<real>)
      requires Valid() && input.Length == n && input != re && input != im
      modifies re, im
      ensures Valid()
      ensures Buffer() == Stage(FromReals(input[..]), tw, bits, 0)
    {
      for i := 0 to n
        invariant Valid()
        invariant forall j :: 0 <= j < i ==> re[bitrev[j]] == input[j] && im[bitrev[j]] == 0.0
      {
        forall j | 0 <= j < i ensures bitrev[j] != bitrev[i] {
          UnrevOfRev(j, bits);
          UnrevOfRev(i, bits);
        }
        re[bitrev[i]] := input[i];
        im[bitrev[i]] := 0.0;
      }
      var x := FromReals(input[..]);
      forall p | 0 <= p < n
        ensures Buffer()[p] == Stage(x, tw, bits, 0)[p]
      {
        var i := Unrev(p, bits);
        RevOfUnrev(p, bits);
        BitReversalIsStageZero(x, tw, bits, i);
        assert re[bitrev[i]] == input[i];
      }
    }

    /** One butterfly: slots a and b in place, twiddle w. */
    method Combine(a: nat, b: nat, w: Complex)
      requires Valid() && a < b < n
      modifies re, im
      ensures Valid()
      ensures var was := old(Buffer());
              Buffer() == was[a := Add(was[a], Mul(was[b], w))][b := Sub(was[a], Mul(was[b], w))]
    {
      hide Mul, Add, Sub, TwiddleLaw, Exp2, Rev;
      var u, v := Complex(re[a], im[a]), Mul(Complex(re[b], im[b]), w);
      var sum, diff := Add(u, v), Sub(u, v);
      re[a], im[a] := sum.re, sum.im;
      re[b], im[b] := diff.re, diff.im;
    }

    /** The innermost loop: one block in place, the twiddle as a running product. */
    method Block(i: nat, len: nat)
      requires Valid() && len > 0 && len % 2 == 0 && i + len <= n
      modifies re, im
      ensures Valid()
      ensures Buffer() == old(Buffer()[..i]) + Butterfly(old(Buffer()[i..i + len]), tw(len)) + old(Buffer()[i + len..])
    {
      hide Mul, Add, Sub, Butterfly, TwiddleLaw, Exp2, Rev, Halfway;
      var half := len / 2;
      ghost var front, block, back := Buffer()[..i], Buffer()[i..i + len], Buffer()[i + len..];
      var w, wlen := ONE, tw(len);
      ThreeParts(Buffer(), i, i + len);
      HalfwayBegins(front, block, back, wlen);
      for j := 0 to half
        invariant Valid() && Halfway(Buffer(), front, block, back, wlen, w, j)
      {
        HalfwaySteps(Buffer(), front, block, back, wlen, w, j);
        Combine(i + j, i + j + half, w);
        w := Mul(w, wlen);
      }
      HalfwayEnds(Buffer(), front, block, back, wlen, w);
    }

    /** The middle loop: all blocks of one length. */
    method Blocks(len: nat)
      requires Valid() && Whole(n, len)
      modifies re, im
      ensures Valid()
      ensures Buffer() == Pass(old(Buffer()), len, tw(len))
    {
      hide Mul, Add, Sub, Butterfly, Whole, TwiddleLaw, Exp2, Rev, Passed, Pass;
      ghost var was := Buffer();
      var i := 0;
      PassEnds(was, was, len, tw(len));
      while i < n
        invariant Valid() && i <= n && Passed(was, Buffer()[..i], Buffer()[i..], len, tw(len))
      {
        ghost var buf := Buffer();
        PassSteps(was, buf[..i], buf[i..], len, tw(len));
        Rewritten(buf, Butterfly(buf[i..i + len], tw(len)), i, i + len);
        Block(i, len);
        i := i + len;
      }
      PassEnds(was, Buffer(), len, tw(len));
    }

    /** powerSpectrum: |X[k]|^2 for k <= n/2, X the discrete Fourier transform of the input. */
    method PowerSpectrum(input: array<real>, powerOut: array<real>)
      requires Valid() && input.Length == n && powerOut.Length == n / 2 + 1
      requires input != re && input != im && powerOut != re && powerOut != im && powerOut != input
      modifies re, im, powerOut
      ensures Valid()
      ensures forall k :: 0 <= k <= n / 2 ==>
                powerOut[k] == Norm(DftSum(FromReals(input[..]), Root(tw, n), k, n))
    {
      hide Mul, Add, Sub, Norm, Whole, Pass, Eval, Pow, Rev, DftSum, TwiddleLaw;
      ghost var x := FromReals(input[..]);
      Load(input);
      var len := 2;
      ghost var l := 0;
      while len <= n
        invariant Valid() && l <= bits && len == 2 * Exp2(l)
        invariant Buffer() == Stage(x, tw, bits, l)
        decreases bits - l
      {
        if l == bits { assert false; }
        PassAdvancesStage(x, tw, bits, l + 1);
        Blocks(len);
        l := l + 1;
        len := 2 * len;
      }
      if l < bits {
        if l + 1 < bits { Exp2Monotone(l + 1, bits); }
        assert false;
      }
      for k := 0 to n / 2 + 1
        invariant Valid() && Buffer() == Dft(x, Root(tw, n))
        invariant forall j :: 0 <= j < k ==> powerOut[j] == Norm(DftSum(x, Root(tw, n), j, n))
      {
        DftIsSum(x, Root(tw, n), k);
        assert Buffer()[k] == Complex(re[k], im[k]);
        powerOut[k] := Norm(Complex(re[k], im[k]));
      }
    }
  }
}
