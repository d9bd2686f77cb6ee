/**
 The signal chain of core/dsp/DspChain.cpp, block by block in place with carried state. Samples are
 exact reals; the square root is a parameter.
*/
module Dsp {

  type Block = seq<real>

  type Root = real -> real

  const BLOCK := 160
  const TARGET_RMS := 0.1

  function SumSq(s: Block): real {
    if s == [] then 0.0 else SumSq(s[..|s| - 1]) + s[|s| - 1] * s[|s| - 1]
  }

  function Rms(sqrt: Root, s: Block): real
    requires s != []
  {
    sqrt(SumSq(s) / |s| as real)
  }

  function Clamp(v: real, lo: real, hi: real): real {
    if v < lo then lo else if v > hi then hi else v
  }

  // ---------------------------------------------------------------- the three stages on one block

  function NextGain(sqrt: Root, target: real, gain: real, s: Block): real
    requires s != []
  {
    var rms := Rms(sqrt, s);
    if rms > 0.00001 then Clamp(gain + 0.05 * (target / rms - gain), 0.1, 20.0) else gain
  }

  function Amplified(x: real, gain: real): real {
    Clamp(x * gain, -1.0, 1.0)
  }

  function Scaled(s: Block, gain: real): (r: Block)
    ensures |r| == |s|
  {
    seq(|s|, i requires 0 <= i < |s| => Amplified(s[i], gain))
  }

  function LastOr(s: Block, x: real): real {
    if s == [] then x else s[|s| - 1]
  }

  function HighPassStep(yPrev: real, x: real, xPrev: real): real {
    0.97 * (yPrev + x - xPrev)
  }

  /** y[n] = 0.97 * (y[n-1] + x[n] - x[n-1]) from x[-1] = x0, y[-1] = y0. */
  function HighPass(s: Block, x0: real, y0: real): (r: Block)
    ensures |r| == |s|
  {
    if s == [] then []
    else
      var front := s[..|s| - 1];
      var before := HighPass(front, x0, y0);
      before + [HighPassStep(LastOr(before, y0), s[|s| - 1], LastOr(front, x0))]
  }

  function NextFloor(sqrt: Root, floor: real, s: Block): real
    requires s != []
  {
    floor + 0.01 * (Rms(sqrt, s) - floor)
  }

  function Halved(s: Block): (r: Block)
    ensures |r| == |s|
  {
    seq(|s|, i requires 0 <= i < |s| => s[i] * 0.5)
  }

  function Gated(sqrt: Root, floor: real, s: Block): (r: Block)
    requires s != []
    ensures |r| == |s|
  {
    if Rms(sqrt, s) < NextFloor(sqrt, floor, s) * 1.5 then Halved(s) else s
  }

  // ---------------------------------------------------------------- the engine: one block through all stages

  datatype State = State(gain: real, hpIn: real, hpOut: real, noiseFloor: real)

  const START := State(1.0, 0.0, 0.0, 0.0001)

  function Processed(sqrt: Root, s: State, b: Block): (r: (State, Block))
    ensures |r.1| == |b|
  {
    if b == [] then (s, b)
    else
      var gain := NextGain(sqrt, TARGET_RMS, s.gain, b);
      var agc := Scaled(b, gain);
      var hp := HighPass(agc, s.hpIn, s.hpOut);
      (State(gain, LastOr(agc, s.hpIn), LastOr(hp, s.hpOut), NextFloor(sqrt, s.noiseFloor, hp)),
       Gated(sqrt, s.noiseFloor, hp))
  }

  class AgcStage {
    const sqrt: Root
    const targetRms: real
    var gain: real

    constructor (sqrt: Root, targetRms: real)
      ensures this.sqrt == sqrt && this.targetRms == targetRms && gain == 1.0
    {
      this.sqrt, this.targetRms, gain := sqrt, targetRms, 1.0;
    }

    method Process(samples: array<real>)
      modifies this`gain, samples
      ensures if samples.Length == 0 then gain == old(gain)
              else gain == NextGain(sqrt, targetRms, old(gain), old(samples[..])) && samples[..] == Scaled(old(samples[..]), gain)
    {
      if samples.Length == 0 {
        return;
      }
      var sumSq := SumOfSquares(samples);
      var rms := sqrt(sumSq / samples.Length as real);
      assert rms == Rms(sqrt, samples[..]);
      hide Rms, SumSq;
      if rms > 0.00001 {
        var desired := targetRms / rms;
        gain := gain + 0.05 * (desired - gain);
        if gain < 0.1 { gain := 0.1; }
        if gain > 20.0 { gain := 20.0; }
      }
      Scale(samples);
    }

    /** The scaling loop of process. */
    method Scale(samples: array<real>)
      modifies samples
      ensures samples[..] == Scaled(old(samples[..]), gain)
    {
      ghost var was := samples[..];
      for i := 0 to samples.Length
        invariant forall k :: 0 <= k < i ==> samples[k] == Amplified(was[k], gain)
        invariant forall k :: i <= k < samples.Length ==> samples[k] == was[k]
      {
        var v := samples[i] * gain;
        if v > 1.0 { v := 1.0; }
        if v < -1.0 { v := -1.0; }
        assert v == Amplified(was[i], gain);
        hide Amplified;
        samples[i] := v;
      }
    }
  }

  /** The accumulation loop both stages start from. */
  method SumOfSquares(samples: array<real>) returns (sumSq: real)
    ensures sumSq == SumSq(samples[..])
  {
    sumSq := 0.0;
    for i := 0 to samples.Length
      invariant sumSq == SumSq(samples[..i])
    {
      assert samples[..i + 1][..i] == samples[..i];
      sumSq := sumSq + samples[i] * samples[i];
    }
    assert samples[..samples.Length] == samples[..];
  }

  class NsStage {
    const sqrt: Root
    var hpPrevIn: real
    var hpPrevOut: real
    var noiseFloor: real

    constructor (sqrt: Root)
      ensures this.sqrt == sqrt && hpPrevIn == 0.0 && hpPrevOut == 0.0 && noiseFloor == 0.0001
    {
      this.sqrt, hpPrevIn, hpPrevOut, noiseFloor := sqrt, 0.0, 0.0, 0.0001;
    }

    method Process(samples: array<real>)
      modifies this, samples
      ensures if samples.Length == 0 then hpPrevIn == old(hpPrevIn) && hpPrevOut == old(hpPrevOut) && noiseFloor == old(noiseFloor)
              else
                var x := old(samples[..]);
                var hp := HighPass(x, old(hpPrevIn), old(hpPrevOut));
                && hpPrevIn == LastOr(x, old(hpPrevIn)) && hpPrevOut == LastOr(hp, old(hpPrevOut))
                && noiseFloor == NextFloor(sqrt, old(noiseFloor), hp)
                && samples[..] == Gated(sqrt, old(noiseFloor), hp)
    {
      if samples.Length == 0 {
        return;
      }
      RunHighPass(samples);
      var sumSq := SumOfSquares(samples);
      var rms := sqrt(sumSq / samples.Length as real);
      assert rms == Rms(sqrt, samples[..]);
      hide Rms, SumSq, HighPass;
      noiseFloor := noiseFloor + 0.01 * (rms - noiseFloor);
      if rms < noiseFloor * 1.5 {
        Attenuate(samples);
      }
    }

    /** The attenuation loop of process. */
    method Attenuate(samples: array<real>)
      modifies samples
      ensures samples[..] == Halved(old(samples[..]))
    {
      ghost var was := samples[..];
      for i := 0 to samples.Length
        invariant forall k :: 0 <= k < i ==> samples[k] == was[k] * 0.5
        invariant forall k :: i <= k < samples.Length ==> samples[k] == was[k]
      {
        samples[i] := samples[i] * 0.5;
      }
    }

    /** The filter loop of process. */
    method RunHighPass(samples: array<real>)
      modifies this`hpPrevIn, this`hpPrevOut, samples
      ensures samples[..] == HighPass(old(samples[..]), old(hpPrevIn), old(hpPrevOut))
      ensures hpPrevIn == LastOr(old(samples[..]), old(hpPrevIn)) && hpPrevOut == LastOr(samples[..], old(hpPrevOut))
    {
      ghost var was := samples[..];
      for i := 0 to samples.Length
        invariant samples[..i] == HighPass(was[..i], old(hpPrevIn), old(hpPrevOut))
        invariant samples[i..] == was[i..]
        invariant hpPrevIn == LastOr(was[..i], old(hpPrevIn)) && hpPrevOut == LastOr(samples[..i], old(hpPrevOut))
      {
        assert was[..i + 1][..i] == was[..i] && samples[i] == was[i..][0];
        var x := samples[i];
        var y := 0.97 * (hpPrevOut + x - hpPrevIn);
        hpPrevIn := x;
        hpPrevOut := y;
        samples[i] := y;
        assert samples[..i + 1] == samples[..i] + [y];
      }
      assert was[..samples.Length] == was && samples[..samples.Length] == samples[..];
    }
  }

  /** The echo-cancelling stage between the two does nothing. */
  class DspChain {
    const agc: AgcStage
    const ns: NsStage

    ghost function Now(): State
      reads agc, ns
    {
      State(agc.gain, ns.hpPrevIn, ns.hpPrevOut, ns.noiseFloor)
    }

    ghost predicate Valid() {
      agc.sqrt == ns.sqrt && agc.targetRms == TARGET_RMS
    }

    constructor (sqrt: Root)
      ensures Valid() && agc.sqrt == sqrt && fresh(agc) && fresh(ns) && Now() == START
    {
      agc := new AgcStage(sqrt, TARGET_RMS);
      ns := new NsStage(sqrt);
    }

    method Process(samples: array<real>)
      requires Valid()
      modifies agc, ns, samples
      ensures (Now(), samples[..]) == Processed(agc.sqrt, old(Now()), old(samples[..]))
    {
      hide NextGain, Scaled, HighPass, Gated, NextFloor;
      agc.Process(samples);
      ns.Process(samples);
      if samples.Length == 0 { assert samples[..] == []; }
    }
  }
}
