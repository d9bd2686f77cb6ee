/** Facts about products and quotients that several modules need. */
module Arithmetic {

  lemma Scale(a: int, b: int, c: nat)
    requires a <= b
    ensures a * c <= b * c && c * a <= c * b
  {
    assert (b - a) * c >= 0;
  }

  lemma Cancel(a: int, b: int, c: nat)
    requires a * c > b * c
    ensures a > b
  {
    if a <= b { Scale(a, b, c); }
  }

  /** A non-zero multiple of b is at least b away from zero. */
  lemma MultipleIsFar(d: int, b: nat)
    ensures d >= 1 ==> d * b >= b
    ensures d <= 0 ==> d * b <= 0
    ensures d <= -1 ==> d * b + b <= 0
  {
    if d >= 1 {
      assert (d - 1) * b >= 0;
    } else {
      assert (-d) * b >= 0;
      if d <= -1 { assert (-1 - d) * b >= 0; }
    }
  }

  /** Division with remainder is unique. */
  lemma DivIs(a: nat, b: nat, q: nat, r: nat)
    requires b >= 1 && a == q * b + r && r < b
    ensures a / b == q
  {
    var q': int, r': int := a / b, a % b;
    assert a == q' * b + r';
    assert (q' - q) * b == q' * b - q * b;
    MultipleIsFar(q' - q, b);
  }
}
