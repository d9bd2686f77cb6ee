/**
 What the stages of core/dsp/DspChain.cpp do to a signal, in the terms of their descriptions: levels that
 are root mean squares, a gain that approaches its target, a filter that rejects a constant, and a gate that
 halves exactly the quiet blocks.
*/
module DspLaws {
  import opened Dsp

  // ---------------------------------------------------------------- the level of a block

  /** Squares add up over any split of a block, and a single sample contributes its square. */
  lemma {:induction false} SquaresAdd(a: Block, b: Block)
    ensures SumSq(a + b) == SumSq(a) + SumSq(b)
    ensures forall x: real :: SumSq([x]) == x * x
    decreases |b|
  {
    forall x: real
      ensures SumSq([x]) == x * x
    {
      assert [x][..0] == [];
    }
    if b == [] {
      assert a + b == a;
    } else {
      var front := b[..|b| - 1];
      SquaresAdd(a, front);
      assert (a + b)[..|a + b| - 1] == a + front;
    }
  }

  /** If sqrt is a square root there, the level squared times the length is the sum of squares. */
  lemma LevelIsRms(sqrt: Root, s: Block)
    requires s != []
    requires var m := SumSq(s) / |s| as real; sqrt(m) * sqrt(m) == m
    ensures Rms(sqrt, s) * Rms(sqrt, s) * |s| as real == SumSq(s)
  {
    var m := SumSq(s) / |s| as real;
    assert m * |s| as real == SumSq(s);
  }

  // ---------------------------------------------------------------- the gain

  /**
   The gain closes a twentieth of its distance to target / level, unless that would leave [0.1, 20]: then
   it stops at the bound it would cross, and the target lies beyond it. A silent block leaves it alone.
  */
  lemma GainApproaches(sqrt: Root, target: real, gain: real, s: Block)
    requires s != [] && 0.1 <= gain <= 20.0
    ensures var rms, next := Rms(sqrt, s), NextGain(sqrt, target, gain, s);
            if rms <= 0.00001 then next == gain
            else
              var want := target / rms;
              || (0.1 <= next <= 20.0 && want - next == 0.95 * (want - gain))
              || (next == 0.1 && want < 0.1 && want - 0.1 < 0.95 * (want - gain))
              || (next == 20.0 && want > 20.0 && want - 20.0 > 0.95 * (want - gain))
  {
    hide Rms;
    var rms := Rms(sqrt, s);
    if rms > 0.00001 {
      var want := target / rms;
      assert gain + 0.05 * (want - gain) == 0.95 * gain + 0.05 * want;
    }
  }

  /** A sample times the gain, as long as that is within [-1, 1], and the nearer end otherwise. */
  lemma ScaledIs(s: Block, gain: real, i: nat)
    requires i < |s|
    ensures var v, y := s[i] * gain, Scaled(s, gain)[i];
            && (-1.0 <= v <= 1.0 ==> y == v) && (v > 1.0 ==> y == 1.0) && (v < -1.0 ==> y == -1.0)
  {
  }

  // ---------------------------------------------------------------- the filter

  /** The difference equation of a filter with coefficients [0.97, -0.97] over [1, -0.97]. */
  lemma {:induction false} FilterEquation(s: Block, x0: real, y0: real, n: nat)
    requires n < |s|
    ensures var y := HighPass(s, x0, y0);
            y[n] - 0.97 * (if n == 0 then y0 else y[n - 1]) == 0.97 * s[n] - 0.97 * (if n == 0 then x0 else s[n - 1])
    decreases |s|
  {
    var front := s[..|s| - 1];
    if n < |s| - 1 { FilterEquation(front, x0, y0, n); }
  }

  function Power(a: real, n: nat): real {
    if n == 0 then 1.0 else a * Power(a, n - 1)
  }

  /** From rest, a constant decays by 0.97 a sample: the filter rejects it. */
  lemma {:induction false} ConstantDecays(s: Block, c: real, n: nat)
    requires n < |s| && forall i :: 0 <= i < |s| ==> s[i] == c
    ensures HighPass(s, 0.0, 0.0)[n] == Power(0.97, n + 1) * c
  {
    FilterEquation(s, 0.0, 0.0, n);
    if n > 0 {
      ConstantDecays(s, c, n - 1);
      assert 0.97 * (Power(0.97, n) * c) == Power(0.97, n + 1) * c;
    } else {
      assert Power(0.97, 0) == 1.0;
    }
  }

  // ---------------------------------------------------------------- the gate

  /** The floor closes a hundredth of its distance to the block's level. */
  lemma FloorApproaches(sqrt: Root, floor: real, s: Block)
    requires s != []
    ensures var rms := Rms(sqrt, s); rms - NextFloor(sqrt, floor, s) == 0.99 * (rms - floor)
  {
    hide Rms;
  }

  /** A block is halved exactly when its level is below one and a half times the floor it has just updated. */
  lemma GateIff(sqrt: Root, floor: real, s: Block)
    requires s != []
    ensures var rms, y := Rms(sqrt, s), Gated(sqrt, floor, s);
            if rms < 1.5 * (0.99 * floor + 0.01 * rms)
            then forall i :: 0 <= i < |s| ==> y[i] + y[i] == s[i]
            else y == s
  {
    hide Rms;
  }

  // ---------------------------------------------------------------- one block through the chain

  /** AGC, then filter, then gate: every output sample is the filtered one or half of it, by the block's level against the floor. */
  lemma ChainIs(sqrt: Root, s: State, b: Block)
    requires b != []
    ensures var n, y := Processed(sqrt, s, b).0, Processed(sqrt, s, b).1;
            var hp := HighPass(Scaled(b, n.gain), s.hpIn, s.hpOut);
            && (forall i :: 0 <= i < |b| ==>
                  if Rms(sqrt, hp) < 1.5 * n.noiseFloor then y[i] + y[i] == hp[i] else y[i] == hp[i])
            && n.hpOut == hp[|b| - 1] && n.hpIn == Scaled(b, n.gain)[|b| - 1]
            && Rms(sqrt, hp) - n.noiseFloor == 0.99 * (Rms(sqrt, hp) - s.noiseFloor)
            && n.gain == NextGain(sqrt, TARGET_RMS, s.gain, b)
  {
    var hp := HighPass(Scaled(b, NextGain(sqrt, TARGET_RMS, s.gain, b)), s.hpIn, s.hpOut);
    FloorApproaches(sqrt, s.noiseFloor, hp);
    GateIff(sqrt, s.noiseFloor, hp);
    hide Rms, HighPass, Scaled, NextGain;
  }
}
