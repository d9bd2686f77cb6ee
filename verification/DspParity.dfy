/**
 apply_dsp of tools/aura_frontend.py, stage by stage over a whole clip, and its equality with the
 engine's block-by-block chain; and a bound on everything the chain can output.
*/
module DspParity {
  import opened Arithmetic
  import opened Dsp

  // ---------------------------------------------------------------- whole-signal stages

  /** The concatenation of the blocks. */
  function Flat(bs: seq<Block>): Block {
    if bs == [] then [] else Flat(bs[..|bs| - 1]) + bs[|bs| - 1]
  }

  ghost predicate NoneEmpty(bs: seq<Block>) {
    forall i :: 0 <= i < |bs| ==> bs[i] != []
  }

  /** The gain after the blocks, and the amplified signal. */
  function AgcRun(sqrt: Root, bs: seq<Block>): (r: (real, Block))
    requires NoneEmpty(bs)
    ensures |r.1| == |Flat(bs)|
    decreases |bs|
  {
    if bs == [] then (START.gain, [])
    else
      var b := bs[|bs| - 1];
      var before := AgcRun(sqrt, bs[..|bs| - 1]);
      var gain := NextGain(sqrt, TARGET_RMS, before.0, b);
      (gain, before.1 + Scaled(b, gain))
  }

  /** The noise floor after, and the gated form of, a signal cut into pieces as long as the blocks. */
  function GateRun(sqrt: Root, hp: Block, bs: seq<Block>): (r: (real, Block))
    requires NoneEmpty(bs) && |hp| == |Flat(bs)|
    ensures |r.1| == |hp|
    decreases |bs|
  {
    if bs == [] then (START.noiseFloor, [])
    else
      var k := |hp| - |bs[|bs| - 1]|;
      var before := GateRun(sqrt, hp[..k], bs[..|bs| - 1]);
      (NextFloor(sqrt, before.0, hp[k..]), before.1 + Gated(sqrt, before.0, hp[k..]))
  }

  /** apply_dsp on a signal cut into these blocks: each stage over all of it before the next. */
  function StageByStage(sqrt: Root, bs: seq<Block>): (r: Block)
    requires NoneEmpty(bs)
    ensures |r| == |Flat(bs)|
  {
    GateRun(sqrt, HighPass(AgcRun(sqrt, bs).1, 0.0, 0.0), bs).1
  }

  /** The engine fed block after block. */
  function Streamed(sqrt: Root, bs: seq<Block>): (r: (State, Block))
    ensures |r.1| == |Flat(bs)|
    decreases |bs|
  {
    if bs == [] then (START, [])
    else
      var before := Streamed(sqrt, bs[..|bs| - 1]);
      var now := Processed(sqrt, before.0, bs[|bs| - 1]);
      (now.0, before.1 + now.1)
  }

  // ---------------------------------------------------------------- they agree

  /** The filter does not notice where its input is cut. */
  lemma {:induction false} HighPassSplits(a: Block, b: Block, x0: real, y0: real)
    ensures HighPass(a + b, x0, y0) == HighPass(a, x0, y0) + HighPass(b, LastOr(a, x0), LastOr(HighPass(a, x0, y0), y0))
    decreases |b|
  {
    if b == [] {
      assert a + b == a;
    } else {
      var front, last := b[..|b| - 1], b[|b| - 1];
      HighPassSplits(a, front, x0, y0);
      assert (a + b)[..|a + b| - 1] == a + front;
      assert LastOr(a + front, x0) == LastOr(front, LastOr(a, x0));
      hide HighPassStep;
    }
  }

  lemma AgcRunStep(sqrt: Root, bs: seq<Block>, b: Block)
    requires NoneEmpty(bs) && b != []
    ensures var gain := NextGain(sqrt, TARGET_RMS, AgcRun(sqrt, bs).0, b);
            NoneEmpty(bs + [b]) && AgcRun(sqrt, bs + [b]) == (gain, AgcRun(sqrt, bs).1 + Scaled(b, gain))
  {
    hide NextGain, Scaled;
    assert (bs + [b])[..|bs|] == bs;
  }

  lemma GateRunStep(sqrt: Root, hp: Block, bs: seq<Block>, b: Block, h: Block)
    requires NoneEmpty(bs) && b != [] && |hp| == |Flat(bs)| && |h| == |b|
    ensures NoneEmpty(bs + [b]) && |Flat(bs + [b])| == |hp + h|
    ensures var floor := GateRun(sqrt, hp, bs);
            GateRun(sqrt, hp + h, bs + [b]) == (NextFloor(sqrt, floor.0, h), floor.1 + Gated(sqrt, floor.0, h))
  {
    hide NextFloor, Gated;
    assert (bs + [b])[..|bs|] == bs;
    assert (hp + h)[..|hp|] == hp && (hp + h)[|hp|..] == h;
  }

  lemma StreamedStep(sqrt: Root, bs: seq<Block>, b: Block)
    ensures var before := Streamed(sqrt, bs);
            var now := Processed(sqrt, before.0, b);
            Streamed(sqrt, bs + [b]) == (now.0, before.1 + now.1)
  {
    hide Processed;
    assert (bs + [b])[..|bs|] == bs;
  }

  /** State and output of the separate stages, in the engine's terms. */
  ghost function Staged(sqrt: Root, bs: seq<Block>): (State, Block)
    requires NoneEmpty(bs)
  {
    var agc := AgcRun(sqrt, bs);
    var hp := HighPass(agc.1, 0.0, 0.0);
    var gate := GateRun(sqrt, hp, bs);
    (State(agc.0, LastOr(agc.1, 0.0), LastOr(hp, 0.0), gate.0), gate.1)
  }

  lemma NoBlocks(sqrt: Root)
    ensures Streamed(sqrt, []) == Staged(sqrt, [])
  {
  }

  /** State and output of the engine are those of the separate stages. */
  lemma {:induction false} StreamedIsStaged(sqrt: Root, bs: seq<Block>)
    requires NoneEmpty(bs)
    ensures Streamed(sqrt, bs) == Staged(sqrt, bs)
    decreases |bs|
  {
    if bs == [] {
      NoBlocks(sqrt);
    } else {
      var front, b := bs[..|bs| - 1], bs[|bs| - 1];
      assert NoneEmpty(front) && b != [] && bs == front + [b];
      hide *;
      StreamedIsStaged(sqrt, front);
      OneBlock(sqrt, front, b);
    }
  }

  /** Block-streamed AGC, high-pass and gate output what each stage over the whole signal outputs. */
  lemma StreamedIsStageByStage(sqrt: Root, bs: seq<Block>)
    requires NoneEmpty(bs)
    ensures Streamed(sqrt, bs).1 == StageByStage(sqrt, bs)
  {
    StreamedIsStaged(sqrt, bs);
    hide Streamed, AgcRun, GateRun, HighPass;
  }

  lemma OneBlock(sqrt: Root, front: seq<Block>, b: Block)
    requires NoneEmpty(front) && b != []
    ensures NoneEmpty(front + [b])
    ensures Streamed(sqrt, front) == Staged(sqrt, front) ==> Streamed(sqrt, front + [b]) == Staged(sqrt, front + [b])
  {
    var before, s := AgcRun(sqrt, front), Streamed(sqrt, front).0;
    var gain := NextGain(sqrt, TARGET_RMS, before.0, b);
    var a := Scaled(b, gain);
    var hp0 := HighPass(before.1, 0.0, 0.0);
    var h := HighPass(a, LastOr(before.1, 0.0), LastOr(hp0, 0.0));
    StreamedStep(sqrt, front, b);
    AgcRunStep(sqrt, front, b);
    HighPassSplits(before.1, a, 0.0, 0.0);
    GateRunStep(sqrt, hp0, front, b, h);
    hide AgcRun, GateRun, Streamed, NextGain, Scaled, HighPass, NextFloor, Gated;
    assert LastOr(before.1 + a, 0.0) == LastOr(a, LastOr(before.1, 0.0));
    assert LastOr(hp0 + h, 0.0) == LastOr(h, LastOr(hp0, 0.0));
  }

  // ---------------------------------------------------------------- apply_dsp itself

  /** The clip in blocks of 160, the last one possibly shorter. */
  function Blocks(x: Block): (bs: seq<Block>)
    ensures NoneEmpty(bs)
    decreases |x|
  {
    if x == [] then []
    else
      var k := (|x| - 1) / BLOCK * BLOCK;
      Blocks(x[..k]) + [x[k..]]
  }

  lemma {:induction false} BlocksCover(x: Block)
    ensures Flat(Blocks(x)) == x
    decreases |x|
  {
    if x != [] {
      var k := (|x| - 1) / BLOCK * BLOCK;
      BlocksCover(x[..k]);
    }
  }

  /** One more block of 160, or what is left. */
  lemma NextBlock(x: Block, start: nat, stop: nat)
    requires start < stop <= |x| && start % BLOCK == 0 && stop <= start + BLOCK && (stop == start + BLOCK || stop == |x|)
    ensures Blocks(x[..stop]) == Blocks(x[..start]) + [x[start..stop]]
  {
    DivIs(stop - 1, BLOCK, start / BLOCK, stop - 1 - start);
    assert (stop - 1) / BLOCK * BLOCK == start;
    assert x[..stop][..start] == x[..start] && x[..stop][start..] == x[start..stop];
  }

  method ApplyDsp(sqrt: Root, clip: array<real>) returns (y: array<real>)
    ensures fresh(y) && y[..] == StageByStage(sqrt, Blocks(clip[..]))
    ensures y[..] == Streamed(sqrt, Blocks(clip[..])).1
  {
    var x := new real[clip.Length](i requires 0 <= i < clip.Length reads clip => clip[i]);
    ghost var whole := clip[..];
    assert x[..] == whole;
    AmplifyAll(sqrt, x);
    BlocksCover(whole);
    var hp := HighPass(x[..], 0.0, 0.0);
    y := new real[|hp|](i requires 0 <= i < |hp| => hp[i]);
    assert y[..] == hp;
    GateAll(sqrt, y, whole);
    StreamedIsStageByStage(sqrt, Blocks(whole));
  }

  /** x[start:stop] = clip(x[start:stop] * gain) */
  method AmplifySlice(x: array<real>, start: nat, stop: nat, gain: real)
    requires start <= stop <= x.Length
    modifies x
    ensures x[..start] == old(x[..start]) && x[stop..] == old(x[stop..])
    ensures x[start..stop] == Scaled(old(x[start..stop]), gain)
  {
    hide Amplified;
    forall i | start <= i < stop {
      x[i] := Amplified(x[i], gain);
    }
  }

  /** x[start:stop] *= 0.5 */
  method HalveSlice(x: array<real>, start: nat, stop: nat)
    requires start <= stop <= x.Length
    modifies x
    ensures x[..start] == old(x[..start]) && x[stop..] == old(x[stop..])
    ensures x[start..stop] == Halved(old(x[start..stop]))
  {
    forall i | start <= i < stop {
      x[i] := x[i] * 0.5;
    }
  }

  /** Equal tails have equal slices. */
  lemma SameSlice(a: Block, b: Block, start: nat, stop: nat)
    requires |a| == |b| && start <= stop <= |a| && a[start..] == b[start..]
    ensures a[start..stop] == b[start..stop]
  {
    assert a[start..][..stop - start] == a[start..stop];
    assert b[start..][..stop - start] == b[start..stop];
  }

  /** The first loop. */
  method AmplifyAll(sqrt: Root, x: array<real>)
    modifies x
    ensures x[..] == AgcRun(sqrt, Blocks(old(x[..]))).1
  {
    hide AgcRun, Blocks, Scaled, Rms;
    ghost var whole := x[..];
    var gain := 1.0;
    var start := 0;
    Nothing(sqrt, whole);
    while start < x.Length
      invariant 0 <= start <= x.Length && (start % BLOCK == 0 || start == x.Length)
      invariant (gain, x[..start]) == AgcRun(sqrt, Blocks(whole[..start]))
      invariant x[start..] == whole[start..]
    {
      var stop := if start + BLOCK < x.Length then start + BLOCK else x.Length;
      var blk := x[start..stop];
      ghost var now := x[..];
      assert blk == now[start..stop] && now[start..] == whole[start..];
      SameSlice(now, whole, start, stop);
      NextBlock(whole, start, stop);
      AgcRunStep(sqrt, Blocks(whole[..start]), blk);
      var rms := Rms(sqrt, blk);
      if rms > 0.00001 {
        var desired := 0.1 / rms;
        gain := gain + 0.05 * (desired - gain);
        gain := Clamp(gain, 0.1, 20.0);
      }
      AmplifySlice(x, start, stop, gain);
      assert x[..stop] == x[..start] + x[start..stop];
      assert x[stop..] == whole[stop..];
      start := stop;
    }
    assert whole[..start] == whole && x[..start] == x[..];
  }

  lemma Nothing(sqrt: Root, whole: Block)
    ensures AgcRun(sqrt, Blocks(whole[..0])) == (1.0, []) && GateRun(sqrt, [], Blocks(whole[..0])) == (0.0001, [])
  {
  }

  /** The second loop, over the filtered signal. */
  method GateAll(sqrt: Root, hp: array<real>, ghost whole: Block)
    requires hp.Length == |whole|
    modifies hp
    ensures |Flat(Blocks(whole))| == hp.Length && hp[..] == GateRun(sqrt, old(hp[..]), Blocks(whole)).1
  {
    hide GateRun, Blocks, Halved, Rms, Flat;
    ghost var x := hp[..];
    var noiseFloor := 0.0001;
    var start := 0;
    Nothing(sqrt, whole);
    BlocksCover(whole[..0]);
    while start < hp.Length
      invariant 0 <= start <= hp.Length && (start % BLOCK == 0 || start == hp.Length)
      invariant |Flat(Blocks(whole[..start]))| == start
      invariant (noiseFloor, hp[..start]) == GateRun(sqrt, x[..start], Blocks(whole[..start]))
      invariant hp[start..] == x[start..]
    {
      var stop := if start + BLOCK < hp.Length then start + BLOCK else hp.Length;
      var blk := hp[start..stop];
      ghost var now := hp[..];
      assert blk == now[start..stop] && now[start..] == x[start..];
      SameSlice(now, x, start, stop);
      NextBlock(whole, start, stop);
      GateRunStep(sqrt, x[..start], Blocks(whole[..start]), whole[start..stop], blk);
      assert x[..stop] == x[..start] + blk;
      BlocksCover(whole[..stop]);
      var rms2 := Rms(sqrt, blk);
      noiseFloor := noiseFloor + 0.01 * (rms2 - noiseFloor);
      if rms2 < noiseFloor * 1.5 {
        HalveSlice(hp, start, stop);
      }
      assert hp[..stop] == hp[..start] + hp[start..stop];
      assert hp[stop..] == x[stop..];
      start := stop;
    }
    assert whole[..start] == whole && x[..start] == x && hp[..start] == hp[..];
  }

  // ---------------------------------------------------------------- a bound on the output

  ghost predicate Within(s: Block, m: real) {
    forall i :: 0 <= i < |s| ==> -m <= s[i] <= m
  }

  /** |y - 0.97 x| <= 0.97: what the filter keeps between its last input and output. */
  predicate Near(x: real, y: real) {
    -0.97 <= y - 0.97 * x <= 0.97
  }

  predicate Unit(x: real) {
    -1.0 <= x <= 1.0
  }

  lemma StepKeepsNear(yPrev: real, x: real, xPrev: real)
    requires Unit(xPrev) && Unit(x) && Near(xPrev, yPrev)
    ensures Near(x, HighPassStep(yPrev, x, xPrev))
    ensures -1.94 <= HighPassStep(yPrev, x, xPrev) <= 1.94
  {
  }

  lemma {:induction false} HighPassBounded(s: Block, x0: real, y0: real)
    requires Within(s, 1.0) && Unit(x0) && Near(x0, y0)
    ensures Within(HighPass(s, x0, y0), 1.94)
    ensures Unit(LastOr(s, x0)) && Near(LastOr(s, x0), LastOr(HighPass(s, x0, y0), y0))
  {
    if s != [] {
      var front := s[..|s| - 1];
      HighPassBounded(front, x0, y0);
      var before := HighPass(front, x0, y0);
      StepKeepsNear(LastOr(before, y0), s[|s| - 1], LastOr(front, x0));
      hide HighPassStep, Near;
    }
  }

  predicate Sane(s: State) {
    Unit(s.hpIn) && Near(s.hpIn, s.hpOut) && 0.1 <= s.gain <= 20.0
  }

  lemma BlockBounded(sqrt: Root, s: State, b: Block)
    requires Sane(s)
    ensures Sane(Processed(sqrt, s, b).0) && Within(Processed(sqrt, s, b).1, 1.94)
  {
    if b != [] {
      var gain := NextGain(sqrt, TARGET_RMS, s.gain, b);
      var agc := Scaled(b, gain);
      assert Within(agc, 1.0);
      HighPassBounded(agc, s.hpIn, s.hpOut);
      var hp := HighPass(agc, s.hpIn, s.hpOut);
      hide NextGain, HighPass, Scaled, Amplified, Near;
      GateBounded(sqrt, s.noiseFloor, hp);
      GainBounded(sqrt, s.gain, b);
      hide Gated;
    }
  }

  lemma GainBounded(sqrt: Root, gain: real, b: Block)
    requires b != [] && 0.1 <= gain <= 20.0
    ensures 0.1 <= NextGain(sqrt, TARGET_RMS, gain, b) <= 20.0
  {
    hide Rms;
  }

  lemma GateBounded(sqrt: Root, floor: real, hp: Block)
    requires hp != [] && Within(hp, 1.94)
    ensures Within(Gated(sqrt, floor, hp), 1.94)
  {
    hide Rms;
    forall i | 0 <= i < |hp|
      ensures -1.94 <= Gated(sqrt, floor, hp)[i] <= 1.94
    {
      assert -1.94 <= hp[i] <= 1.94;
    }
  }

  /** No input and no blocking can make the chain's output exceed 1.94, and the gain stays in [0.1, 20]. */
  lemma {:induction false} OutputBounded(sqrt: Root, bs: seq<Block>)
    ensures Within(Streamed(sqrt, bs).1, 1.94) && Sane(Streamed(sqrt, bs).0)
    decreases |bs|
  {
    if bs != [] {
      var front := bs[..|bs| - 1];
      OutputBounded(sqrt, front);
      BlockBounded(sqrt, Streamed(sqrt, front).0, bs[|bs| - 1]);
      hide Processed, Sane;
    }
  }
}
