/**
 The rank formula for the area under the ROC curve in tools/calibrate.py, against its meaning: how
 often a positive scores above a negative, ties counting one half. Scores are exact reals.
*/
module Auroc {
  import opened Wrappers

  // ---------------------------------------------------------------- the formula

  /** The scores whose label is c. */
  function With(p: seq<real>, y: seq<int>, c: int): seq<real>
    requires |p| == |y|
  {
    if p == [] then []
    else
      var n := |p| - 1;
      With(p[..n], y[..n], c) + if y[n] == c then [p[n]] else []
  }

  /** How many scores are below a. */
  function Below(p: seq<real>, a: real): nat {
    if p == [] then 0 else Below(p[..|p| - 1], a) + if p[|p| - 1] < a then 1 else 0
  }

  /** How many scores equal a. */
  function Ties(p: seq<real>, a: real): nat {
    if p == [] then 0 else Ties(p[..|p| - 1], a) + if p[|p| - 1] == a then 1 else 0
  }

  /** rankdata's average rank of the score a among p: the mean of the places its ties occupy. */
  function Rank(p: seq<real>, a: real): real {
    Below(p, a) as real + (Ties(p, a) as real + 1.0) / 2.0
  }

  function RankSum(p: seq<real>, of: seq<real>): real {
    if of == [] then 0.0 else RankSum(p, of[..|of| - 1]) + Rank(p, of[|of| - 1])
  }

  /** 1 + 2 + ... + n, the least rank sum of n scores. */
  function Least(n: nat): real {
    n as real * (n as real + 1.0) / 2.0
  }

  /** n * m */
  function Pairs(n: nat, m: nat): (r: real)
    ensures n > 0 && m > 0 ==> r > 0.0
  {
    n as real * m as real
  }

  function Over(a: real, b: real): real
    requires b > 0.0
  {
    a / b
  }

  /** None stands for NaN. */
  function Score(p: seq<real>, y: seq<int>): Option<real>
    requires |p| == |y|
  {
    var pos, neg := With(p, y, 1), With(p, y, 0);
    if pos == [] || neg == [] then None
    else Some(Over(RankSum(p, pos) - Least(|pos|), Pairs(|pos|, |neg|)))
  }

  // ---------------------------------------------------------------- its meaning

  function Beats(a: real, b: real): real {
    if a > b then 1.0 else if a == b then 0.5 else 0.0
  }

  /** How many of q the score a beats, ties counting one half. */
  function Wins(a: real, q: seq<real>): real {
    if q == [] then 0.0 else Wins(a, q[..|q| - 1]) + Beats(a, q[|q| - 1])
  }

  /** Over all pairs. */
  function AllWins(p: seq<real>, q: seq<real>): real {
    if p == [] then 0.0 else AllWins(p[..|p| - 1], q) + Wins(p[|p| - 1], q)
  }

  /** The fraction of (positive, negative) pairs ordered correctly. */
  function Fraction(p: seq<real>, y: seq<int>): real
    requires |p| == |y| && With(p, y, 1) != [] && With(p, y, 0) != []
  {
    var pos, neg := With(p, y, 1), With(p, y, 0);
    Over(AllWins(pos, neg), Pairs(|pos|, |neg|))
  }

  /** The scores whose label is neither 0 nor 1. */
  function Others(p: seq<real>, y: seq<int>): seq<real>
    requires |p| == |y|
  {
    if p == [] then []
    else
      var n := |p| - 1;
      Others(p[..n], y[..n]) + if y[n] != 0 && y[n] != 1 then [p[n]] else []
  }

  // ---------------------------------------------------------------- the proof

  lemma {:induction false} RankIsWins(p: seq<real>, a: real)
    ensures Below(p, a) as real + Ties(p, a) as real / 2.0 == Wins(a, p)
  {
    if p != [] { RankIsWins(p[..|p| - 1], a); }
  }

  lemma WinsSnoc(a: real, q: seq<real>, b: real)
    ensures Wins(a, q + [b]) == Wins(a, q) + Beats(a, b)
  {
    assert (q + [b])[..|q|] == q;
  }

  /** Every score is a positive, a negative or neither. */
  lemma {:induction false} WinsSplit(p: seq<real>, y: seq<int>, a: real)
    requires |p| == |y|
    ensures Wins(a, p) == Wins(a, With(p, y, 1)) + Wins(a, With(p, y, 0)) + Wins(a, Others(p, y))
  {
    if p != [] {
      var n := |p| - 1;
      WinsSplit(p[..n], y[..n], a);
      WinsSnoc(a, With(p[..n], y[..n], 1), p[n]);
      WinsSnoc(a, With(p[..n], y[..n], 0), p[n]);
      WinsSnoc(a, Others(p[..n], y[..n]), p[n]);
      assert forall s: seq<real> :: s + [] == s;
    }
  }

  lemma {:induction false} RankSumSplit(p: seq<real>, y: seq<int>, of: seq<real>)
    requires |p| == |y|
    ensures RankSum(p, of) == AllWins(of, With(p, y, 1)) + AllWins(of, With(p, y, 0)) + AllWins(of, Others(p, y)) + |of| as real / 2.0
    decreases |of|
  {
    if of != [] {
      var front, a := of[..|of| - 1], of[|of| - 1];
      RankSumSplit(p, y, front);
      RankIsWins(p, a);
      WinsSplit(p, y, a);
      hide Wins, With, Others, Below, Ties;
    }
  }

  /** Adding an opponent adds one column. */
  lemma {:induction false} AllWinsSnoc(p: seq<real>, q: seq<real>, b: real)
    ensures AllWins(p, q + [b]) + Wins(b, p) == AllWins(p, q) + |p| as real
  {
    if p != [] {
      var front, a := p[..|p| - 1], p[|p| - 1];
      AllWinsSnoc(front, q, b);
      WinsSnoc(a, q, b);
      assert Beats(a, b) + Beats(b, a) == 1.0;
    }
  }

  /** Among themselves the scores win half of all pairs. */
  lemma {:induction false} AmongThemselves(p: seq<real>)
    ensures AllWins(p, p) == Pairs(|p|, |p|) / 2.0
  {
    if p != [] {
      var front, a := p[..|p| - 1], p[|p| - 1];
      AmongThemselves(front);
      AllWinsSnoc(front, front, a);
      WinsSnoc(a, front, a);
      assert p == front + [a];
      var n := |front| as real;
      assert (n + 1.0) * (n + 1.0) == n * n + 2.0 * n + 1.0;
    }
  }

  /** The formula counts the pairs with negatives, and with every score that is neither. */
  lemma FormulaIs(p: seq<real>, y: seq<int>)
    requires |p| == |y| && With(p, y, 1) != [] && With(p, y, 0) != []
    ensures var pos, neg := With(p, y, 1), With(p, y, 0);
            Score(p, y) == Some(Over(AllWins(pos, neg) + AllWins(pos, Others(p, y)), Pairs(|pos|, |neg|)))
  {
    var pos := With(p, y, 1);
    RankSumSplit(p, y, pos);
    AmongThemselves(pos);
    LeastIs(|pos|);
    hide RankSum, AllWins, With, Others, Over, Pairs, Least;
    assert RankSum(p, pos) - Least(|pos|) == AllWins(pos, With(p, y, 0)) + AllWins(pos, Others(p, y));
  }

  lemma LeastIs(n: nat)
    ensures Least(n) == Pairs(n, n) / 2.0 + n as real / 2.0
  {
    var x := n as real;
    assert x * (x + 1.0) == x * x + x;
  }

  /** No score of p reaches any of q. */
  ghost predicate NoneReaches(p: seq<real>, q: seq<real>) {
    forall i, j :: 0 <= i < |p| && 0 <= j < |q| ==> p[i] < q[j]
  }

  /** The score a is below all of q. */
  ghost predicate BelowAll(a: real, q: seq<real>) {
    forall j :: 0 <= j < |q| ==> a < q[j]
  }

  lemma {:induction false} WinsZeroIff(a: real, q: seq<real>)
    ensures 0.0 <= Wins(a, q) <= |q| as real
    ensures Wins(a, q) == 0.0 <==> BelowAll(a, q)
  {
    if q != [] { WinsZeroIff(a, q[..|q| - 1]); }
  }

  lemma PairsSnoc(n: nat, m: nat)
    ensures Pairs(n + 1, m) == Pairs(n, m) + m as real
  {
    assert (n as real + 1.0) * m as real == n as real * m as real + m as real;
  }

  lemma {:induction false} AllWinsBounded(p: seq<real>, q: seq<real>)
    ensures 0.0 <= AllWins(p, q) <= Pairs(|p|, |q|)
  {
    if p != [] {
      var front := p[..|p| - 1];
      AllWinsBounded(front, q);
      WinsZeroIff(p[|p| - 1], q);
      PairsSnoc(|front|, |q|);
      hide Wins, Pairs, BelowAll;
    }
  }

  lemma NoneReachesSnoc(p: seq<real>, q: seq<real>)
    requires p != []
    ensures NoneReaches(p, q) <==> NoneReaches(p[..|p| - 1], q) && BelowAll(p[|p| - 1], q)
  {
    var front, last := p[..|p| - 1], p[|p| - 1];
    if NoneReaches(front, q) && BelowAll(last, q) {
      forall i, j | 0 <= i < |p| && 0 <= j < |q|
        ensures p[i] < q[j]
      {
        if i < |front| { assert front[i] < q[j]; }
      }
    }
    if NoneReaches(p, q) {
      assert forall j :: 0 <= j < |q| ==> p[|p| - 1] < q[j];
      assert forall i, j :: 0 <= i < |front| && 0 <= j < |q| ==> p[i] < q[j];
    }
  }

  lemma {:induction false} AllWinsZeroIff(p: seq<real>, q: seq<real>)
    ensures AllWins(p, q) == 0.0 <==> NoneReaches(p, q)
  {
    if p != [] {
      var front := p[..|p| - 1];
      AllWinsZeroIff(front, q);
      AllWinsBounded(front, q);
      WinsZeroIff(p[|p| - 1], q);
      NoneReachesSnoc(p, q);
      hide Wins, Pairs, NoneReaches, BelowAll;
    }
  }

  lemma OverInjective(a: real, b: real, d: real)
    requires d > 0.0
    ensures Over(a, d) == Over(b, d) <==> a == b
  {
    assert Over(a, d) * d == a && Over(b, d) * d == b;
  }

  lemma OverInUnit(a: real, d: real)
    requires d > 0.0 && 0.0 <= a <= d
    ensures 0.0 <= Over(a, d) <= 1.0
  {
    var x := Over(a, d);
    assert x * d == a;
    assert x < 0.0 ==> x * d < 0.0;
    assert x > 1.0 ==> (x - 1.0) * d > 0.0;
  }

  /** The formula is the fraction of correctly ordered pairs exactly when no positive reaches a score labelled neither 0 nor 1. */
  lemma FormulaIsFractionIff(p: seq<real>, y: seq<int>)
    requires |p| == |y| && With(p, y, 1) != [] && With(p, y, 0) != []
    ensures Score(p, y) == Some(Fraction(p, y)) <==> NoneReaches(With(p, y, 1), Others(p, y))
  {
    FractionIs(p, y);
    hide *;
    var pos, neg := With(p, y, 1), With(p, y, 0);
    FormulaIs(p, y);
    AllWinsZeroIff(pos, Others(p, y));
    var w, o := AllWins(pos, neg), AllWins(pos, Others(p, y));
    OverInjective(w + o, w, Pairs(|pos|, |neg|));
  }

  lemma FractionIs(p: seq<real>, y: seq<int>)
    requires |p| == |y| && With(p, y, 1) != [] && With(p, y, 0) != []
    ensures var pos, neg := With(p, y, 1), With(p, y, 0);
            Fraction(p, y) == Over(AllWins(pos, neg), Pairs(|pos|, |neg|))
  {
    hide With, AllWins, Over, Pairs;
  }

  lemma Snoc(p: seq<real>, y: seq<int>, a: real, c: int)
    requires |p| == |y|
    ensures With(p + [a], y + [c], 1) == With(p, y, 1) + if c == 1 then [a] else []
    ensures With(p + [a], y + [c], 0) == With(p, y, 0) + if c == 0 then [a] else []
    ensures Others(p + [a], y + [c]) == Others(p, y) + if c != 0 && c != 1 then [a] else []
  {
    assert (p + [a])[..|p|] == p && (y + [c])[..|y|] == y;
  }

  /** A failing input: one positive above one negative and above one score labelled 2 scores 2, outside [0, 1]. */
  lemma OtherLabelsBreakIt()
    ensures var p, y := [2.0, 1.0, 0.0], [1, 0, 2];
            && With(p, y, 1) == [2.0] && With(p, y, 0) == [1.0] && Others(p, y) == [0.0]
            && Score(p, y) == Some(2.0) && Fraction(p, y) == 1.0
  {
    OtherLabelsParts();
    var p, y := [2.0, 1.0, 0.0], [1, 0, 2];
    FormulaIs(p, y);
    FractionIs(p, y);
    OneWin(2.0, 1.0);
    OneWin(2.0, 0.0);
    assert Pairs(1, 1) == 1.0 && Over(2.0, 1.0) == 2.0 && Over(1.0, 1.0) == 1.0;
    hide *;
  }

  lemma OtherLabelsParts()
    ensures var p, y := [2.0, 1.0, 0.0], [1, 0, 2];
            With(p, y, 1) == [2.0] && With(p, y, 0) == [1.0] && Others(p, y) == [0.0]
  {
    Snoc([], [], 2.0, 1);
    Snoc([2.0], [1], 1.0, 0);
    Snoc([2.0, 1.0], [1, 0], 0.0, 2);
    hide With, Others;
    assert [] + [2.0] == [2.0] && [2.0] + [1.0] == [2.0, 1.0] && [2.0, 1.0] + [0.0] == [2.0, 1.0, 0.0];
    assert [] + [1] == [1] && [1] + [0] == [1, 0] && [1, 0] + [2] == [1, 0, 2];
  }

  lemma OneWin(a: real, b: real)
    requires a > b
    ensures AllWins([a], [b]) == 1.0
  {
    assert [] + [b] == [b] && [a][..0] == [];
    WinsSnoc(a, [], b);
    assert Wins(a, [b]) == 1.0;
    assert AllWins([a], [b]) == AllWins([], [b]) + Wins(a, [b]);
  }

  lemma {:induction false} NoOthers(p: seq<real>, y: seq<int>)
    requires |p| == |y| && forall i :: 0 <= i < |y| ==> y[i] == 0 || y[i] == 1
    ensures Others(p, y) == []
  {
    if p != [] { NoOthers(p[..|p| - 1], y[..|p| - 1]); }
  }

  /** With labels 0 and 1 the rank formula is the pair fraction, and lies in [0, 1]. */
  lemma BinaryLabels(p: seq<real>, y: seq<int>)
    requires |p| == |y| && forall i :: 0 <= i < |y| ==> y[i] == 0 || y[i] == 1
    requires With(p, y, 1) != [] && With(p, y, 0) != []
    ensures Score(p, y) == Some(Fraction(p, y)) && 0.0 <= Fraction(p, y) <= 1.0
  {
    NoOthers(p, y);
    FormulaIsFractionIff(p, y);
    var pos, neg := With(p, y, 1), With(p, y, 0);
    AllWinsBounded(pos, neg);
    hide Score, AllWins, With, Others, Over, Pairs;
    OverInUnit(AllWins(pos, neg), Pairs(|pos|, |neg|));
  }

  // ---------------------------------------------------------------- rescoring

  ghost predicate StrictlyIncreasing(g: real -> real) {
    forall a, b :: a < b ==> g(a) < g(b)
  }

  function Rescored(g: real -> real, p: seq<real>): (r: seq<real>)
    ensures |r| == |p|
  {
    seq(|p|, i requires 0 <= i < |p| => g(p[i]))
  }

  lemma RescoredSnoc(g: real -> real, p: seq<real>)
    requires p != []
    ensures Rescored(g, p)[..|p| - 1] == Rescored(g, p[..|p| - 1])
  {
  }

  lemma {:induction false} RankKept(g: real -> real, p: seq<real>, a: real)
    requires StrictlyIncreasing(g)
    ensures Below(Rescored(g, p), g(a)) == Below(p, a) && Ties(Rescored(g, p), g(a)) == Ties(p, a)
  {
    if p != [] {
      RankKept(g, p[..|p| - 1], a);
      RescoredSnoc(g, p);
      var b := p[|p| - 1];
      assert b < a ==> g(b) < g(a);
      assert a < b ==> g(a) < g(b);
    }
  }

  lemma {:induction false} RankSumKept(g: real -> real, p: seq<real>, of: seq<real>)
    requires StrictlyIncreasing(g)
    ensures RankSum(Rescored(g, p), Rescored(g, of)) == RankSum(p, of)
    decreases |of|
  {
    if of != [] {
      RankSumKept(g, p, of[..|of| - 1]);
      RescoredSnoc(g, of);
      RankKept(g, p, of[|of| - 1]);
      hide Below, Ties, StrictlyIncreasing;
    }
  }

  lemma {:induction false} WithRescored(g: real -> real, p: seq<real>, y: seq<int>, c: int)
    requires |p| == |y|
    ensures With(Rescored(g, p), y, c) == Rescored(g, With(p, y, c))
  {
    if p != [] {
      WithRescored(g, p[..|p| - 1], y[..|p| - 1], c);
      RescoredSnoc(g, p);
    }
  }

  /** Any strictly increasing rescoring leaves the result unchanged, whatever the labels. */
  lemma RescoringIsInvisible(g: real -> real, p: seq<real>, y: seq<int>)
    requires |p| == |y| && StrictlyIncreasing(g)
    ensures Score(Rescored(g, p), y) == Score(p, y)
  {
    WithRescored(g, p, y, 1);
    WithRescored(g, p, y, 0);
    RankSumKept(g, p, With(p, y, 1));
    hide RankSum, With, StrictlyIncreasing, Over, Pairs, Least;
    assert |Rescored(g, With(p, y, 1))| == |With(p, y, 1)|;
  }

  /** Platt scaling with a positive slope is one. */
  lemma PlattIsInvisible(sigmoid: real -> real, a: real, b: real, p: seq<real>, y: seq<int>)
    requires |p| == |y| && StrictlyIncreasing(sigmoid) && a > 0.0
    ensures Score(Rescored(Platt(sigmoid, a, b), p), y) == Score(p, y)
  {
    var g := Platt(sigmoid, a, b);
    forall u, v | u < v
      ensures g(u) < g(v)
    {
      Slope(a, b, u, v);
      assert sigmoid(a * u + b) < sigmoid(a * v + b);
    }
    RescoringIsInvisible(g, p, y);
  }

  function Platt(sigmoid: real -> real, a: real, b: real): real -> real {
    z => sigmoid(a * z + b)
  }

  lemma Slope(a: real, b: real, u: real, v: real)
    requires a > 0.0 && u < v
    ensures a * u + b < a * v + b
  {
    assert a * (v - u) > 0.0;
    assert a * (v - u) == a * v - a * u;
  }
}
