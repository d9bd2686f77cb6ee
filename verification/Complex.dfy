/** Exact complex arithmetic for the spectrum code: a float pair (re, im) becomes a pair of reals. */
module ComplexNumbers {

  datatype Complex = Complex(re: real, im: real)

  const ZERO := Complex(0.0, 0.0)
  const ONE := Complex(1.0, 0.0)
  const MINUS_ONE := Complex(-1.0, 0.0)

  function Add(a: Complex, b: Complex): Complex {
    Complex(a.re + b.re, a.im + b.im)
  }

  function Sub(a: Complex, b: Complex): Complex {
    Complex(a.re - b.re, a.im - b.im)
  }

  function Mul(a: Complex, b: Complex): Complex {
    Complex(a.re * b.re - a.im * b.im, a.re * b.im + a.im * b.re)
  }

  function Conj(a: Complex): Complex {
    Complex(a.re, -a.im)
  }

  /** Squared magnitude. */
  function Norm(a: Complex): real {
    a.re * a.re + a.im * a.im
  }

  function Pow(w: Complex, e: nat): Complex {
    if e == 0 then ONE else Mul(Pow(w, e - 1), w)
  }

  lemma MulAssoc(a: Complex, b: Complex, c: Complex)
    ensures Mul(Mul(a, b), c) == Mul(a, Mul(b, c))
  {
    var x, y := Mul(Mul(a, b), c), Mul(a, Mul(b, c));
    assert x.re == (a.re * b.re - a.im * b.im) * c.re - (a.re * b.im + a.im * b.re) * c.im;
    assert y.re == a.re * (b.re * c.re - b.im * c.im) - a.im * (b.re * c.im + b.im * c.re);
    assert x.re == y.re;
    assert x.im == y.im;
  }

  lemma MulOne(a: Complex)
    ensures Mul(a, ONE) == a && Mul(ONE, a) == a
  {
  }

  lemma MulZero(a: Complex)
    ensures Mul(a, ZERO) == ZERO && Mul(ZERO, a) == ZERO
  {
  }

  lemma MulMinusOne(a: Complex, b: Complex)
    ensures Mul(a, MINUS_ONE) == Sub(ZERO, a)
    ensures Mul(Sub(ZERO, a), b) == Sub(ZERO, Mul(a, b))
    ensures Mul(Sub(ZERO, a), Sub(ZERO, a)) == Mul(a, a)
  {
  }

  lemma AddZero(a: Complex)
    ensures Add(a, ZERO) == a && Add(ZERO, a) == a
  {
  }

  lemma AddAssoc(a: Complex, b: Complex, c: Complex)
    ensures Add(Add(a, b), c) == Add(a, Add(b, c))
  {
  }

  lemma MulComm(a: Complex, b: Complex)
    ensures Mul(a, b) == Mul(b, a)
  {
  }

  lemma MulAdd(a: Complex, b: Complex, c: Complex)
    ensures Mul(a, Add(b, c)) == Add(Mul(a, b), Mul(a, c))
  {
  }

  lemma PowZero(z: Complex)
    ensures Pow(z, 0) == ONE
  {
  }

  lemma PowSnoc(z: Complex, k: nat)
    ensures Pow(z, k + 1) == Mul(Pow(z, k), z)
  {
  }

  lemma PowOne(w: Complex)
    ensures Pow(w, 1) == w
  {
    hide Mul;
    assert Pow(w, 1) == Mul(Pow(w, 0), w);
    MulOne(w);
  }

  lemma {:induction false} PowAdd(w: Complex, d: nat, e: nat)
    ensures Pow(w, d + e) == Mul(Pow(w, d), Pow(w, e))
  {
    hide Mul;
    if e == 0 {
      MulOne(Pow(w, d));
    } else {
      PowAdd(w, d, e - 1);
      MulAssoc(Pow(w, d), Pow(w, e - 1), w);
    }
  }

  lemma {:induction false} PowMul(w: Complex, d: nat, e: nat)
    ensures Pow(w, d * e) == Pow(Pow(w, d), e)
  {
    hide Mul;
    if e > 0 {
      PowMul(w, d, e - 1);
      assert d * e == d * (e - 1) + d;
      PowAdd(w, d * (e - 1), d);
    } else {
      assert d * e == 0;
    }
  }

  /** (w^e)^2 == (w^2)^e. */
  lemma PowSquare(w: Complex, e: nat)
    ensures Mul(Pow(w, e), Pow(w, e)) == Pow(Mul(w, w), e)
  {
    hide Mul;
    PowAdd(w, e, e);
    PowMul(w, 2, e);
    assert Pow(w, 2) == Mul(w, w) by {
      PowOne(w);
    }
    assert 2 * e == e + e;
  }

  lemma NormMul(a: Complex, b: Complex)
    ensures Norm(Mul(a, b)) == Norm(a) * Norm(b)
  {
    var p, q, r, s := a.re, a.im, b.re, b.im;
    assert (p * r - q * s) * (p * r - q * s) + (p * s + q * r) * (p * s + q * r)
        == (p * p + q * q) * (r * r + s * s);
  }

  lemma NormOne()
    ensures Norm(ONE) == 1.0 && Norm(MINUS_ONE) == 1.0
    ensures forall w {:trigger Norm(w)} :: Norm(w) >= 0.0
  {
  }

  lemma {:induction false} NormPow(w: Complex, e: nat)
    requires Norm(w) == 1.0
    ensures Norm(Pow(w, e)) == 1.0
  {
    hide Mul, Norm;
    if e == 0 {
      NormOne();
    } else {
      NormPow(w, e - 1);
      NormMul(Pow(w, e - 1), w);
    }
  }

  lemma ConjMul(a: Complex, b: Complex)
    ensures Conj(Mul(a, b)) == Mul(Conj(a), Conj(b))
  {
  }

  lemma MulConj(b: Complex)
    ensures Mul(b, Conj(b)) == Complex(Norm(b), 0.0)
  {
  }

  /** On the unit circle the conjugate is the inverse, and inverses are unique. */
  lemma UnitInverse(a: Complex, b: Complex)
    requires Norm(b) == 1.0
    requires Mul(a, b) == ONE
    ensures a == Conj(b)
  {
    hide Mul;
    var c := Conj(b);
    MulConj(b);
    MulAssoc(a, b, c);
    MulOne(a);
    MulOne(c);
  }
}
