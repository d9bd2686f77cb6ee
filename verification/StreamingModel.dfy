/**
 The causal keyword-spotting network of tools/streaming_model.py, whole-clip and frame by frame.
 Feature vectors are an arbitrary type V; a block's depthwise convolution, pointwise mix, batch norm,
 residual and ReLU are one function of the k tapped inputs and the current one.
*/
module StreamingModel {
  import opened Arithmetic
  import opened Wrappers

  /** Frames F in, feature vectors V inside, logits L out. */
  datatype Block<!V> = Block(k: nat, dilation: nat, zero: V, f: (seq<V>, V) -> V) {
    predicate Valid() { k >= 1 && dilation >= 1 }

    /** buf_len: how many past inputs a block looks back on. */
    function Reach(): nat
      requires Valid()
    {
      (k - 1) * dilation
    }
  }

  lemma TapWithin(k: nat, d: nat, i: nat)
    requires i < k
    ensures i * d <= (k - 1) * d
  {
    Scale(i, k - 1, d);
  }

  function Zeros<V>(b: Block<V>): (z: seq<V>)
    requires b.Valid()
    ensures |z| == b.Reach()
  {
    seq(b.Reach(), i => b.zero)
  }

  /** The convolution's k inputs starting at `from`, a dilation apart. */
  function Taps<V>(b: Block<V>, buf: seq<V>, from: nat): (t: seq<V>)
    requires b.Valid() && from + b.Reach() < |buf|
    ensures |t| == b.k
  {
    seq(b.k, i requires 0 <= i < b.k => TapWithin(b.k, b.dilation, i); buf[from + i * b.dilation])
  }

  // ---------------------------------------------------------------- one block

  /** Whole clip: pad on the left, convolve, add the input back. */
  function Forward<V>(b: Block<V>, x: seq<V>): (y: seq<V>)
    requires b.Valid()
    ensures |y| == |x|
  {
    var padded := Zeros(b) + x;
    seq(|x|, t requires 0 <= t < |x| => b.f(Taps(b, padded, t), x[t]))
  }

  /** One frame: the output and the new state. */
  function StepBlock<V>(b: Block<V>, x: V, state: seq<V>): (r: (V, seq<V>))
    requires b.Valid() && |state| == b.Reach()
    ensures |r.1| == b.Reach()
  {
    var buf := state + [x];
    (b.f(Taps(b, buf, 0), x), buf[1..])
  }

  /** The state after the inputs x, started from zeros. */
  function StateAfter<V>(b: Block<V>, x: seq<V>): (s: seq<V>)
    requires b.Valid()
    ensures |s| == b.Reach()
  {
    (Zeros(b) + x)[|x|..]
  }

  /** Taps depend only on the window they span. */
  lemma TapsOfWindow<V>(b: Block<V>, buf: seq<V>, from: nat, other: seq<V>, at: nat)
    requires b.Valid() && from + b.Reach() < |buf| && at + b.Reach() < |other|
    requires buf[from..from + b.Reach() + 1] == other[at..at + b.Reach() + 1]
    ensures Taps(b, buf, from) == Taps(b, other, at)
  {
    forall i | 0 <= i < b.k
      ensures Taps(b, buf, from)[i] == Taps(b, other, at)[i]
    {
      TapWithin(b.k, b.dilation, i);
      var j := i * b.dilation;
      assert buf[from..from + b.Reach() + 1][j] == other[at..at + b.Reach() + 1][j];
    }
  }

  /** Stepping a block extends its whole-clip output by one frame and keeps its state in step. */
  lemma StepExtendsForward<V>(b: Block<V>, x: seq<V>, v: V)
    requires b.Valid()
    ensures StepBlock(b, v, StateAfter(b, x)).1 == StateAfter(b, x + [v])
    ensures Forward(b, x + [v]) == Forward(b, x) + [StepBlock(b, v, StateAfter(b, x)).0]
  {
    var padded, more := Zeros(b) + x, Zeros(b) + (x + [v]);
    assert more == padded + [v];
    var buf := StateAfter(b, x) + [v];
    assert buf == more[|x|..];
    assert buf[1..] == more[|x| + 1..];
    forall t | 0 <= t < |x| + 1
      ensures Forward(b, x + [v])[t] == (Forward(b, x) + [b.f(Taps(b, buf, 0), v)])[t]
    {
      if t < |x| {
        TapsOfWindow(b, padded, t, more, t);
      } else {
        assert buf[0..b.Reach() + 1] == more[t..t + b.Reach() + 1];
        TapsOfWindow(b, buf, 0, more, t);
      }
    }
  }

  // ---------------------------------------------------------------- the stack of blocks

  ghost predicate AllValid<V>(blocks: seq<Block<V>>) {
    forall i :: 0 <= i < |blocks| ==> blocks[i].Valid()
  }

  function Layers<V>(blocks: seq<Block<V>>, h: seq<V>): (y: seq<V>)
    requires AllValid(blocks)
    ensures |y| == |h|
    decreases |blocks|
  {
    if blocks == [] then h else Forward(blocks[|blocks| - 1], Layers(blocks[..|blocks| - 1], h))
  }

  ghost predicate FitStates<V>(blocks: seq<Block<V>>, states: seq<seq<V>>) {
    AllValid(blocks) && |states| == |blocks| && forall i :: 0 <= i < |blocks| ==> |states[i]| == blocks[i].Reach()
  }

  /** One frame through the blocks in turn: the last output and the new states. */
  function StepLayers<V>(blocks: seq<Block<V>>, x: V, states: seq<seq<V>>): (r: (V, seq<seq<V>>))
    requires FitStates(blocks, states)
    ensures FitStates(blocks, r.1)
    decreases |blocks|
  {
    if blocks == [] then (x, [])
    else
      var n := |blocks| - 1;
      var below := StepLayers(blocks[..n], x, states[..n]);
      var here := StepBlock(blocks[n], below.0, states[n]);
      (here.0, below.1 + [here.1])
  }

  /** The states after feeding h, each block fed by the whole-clip output of those below. */
  function StatesAfter<V>(blocks: seq<Block<V>>, h: seq<V>): (s: seq<seq<V>>)
    requires AllValid(blocks)
    ensures FitStates(blocks, s)
    decreases |blocks|
  {
    if blocks == [] then []
    else
      var front := blocks[..|blocks| - 1];
      StatesAfter(front, h) + [StateAfter(blocks[|blocks| - 1], Layers(front, h))]
  }

  lemma {:induction false} StepExtendsLayers<V>(blocks: seq<Block<V>>, h: seq<V>, x: V)
    requires AllValid(blocks)
    ensures var r := StepLayers(blocks, x, StatesAfter(blocks, h));
            r.1 == StatesAfter(blocks, h + [x]) && Layers(blocks, h + [x]) == Layers(blocks, h) + [r.0]
    decreases |blocks|
  {
    if blocks != [] {
      var n := |blocks| - 1;
      var front, states := blocks[..n], StatesAfter(blocks, h);
      assert states[..n] == StatesAfter(front, h);
      StepExtendsLayers(front, h, x);
      var below := StepLayers(front, x, states[..n]);
      StepExtendsForward(blocks[n], Layers(front, h), below.0);
      hide StateAfter, Forward, StepBlock;
    }
  }

  // ---------------------------------------------------------------- the network

  datatype Net<!F, !V, !L> = Net(pre: F -> V, blocks: seq<Block<V>>, head: V -> L) {
    ghost predicate Valid() { AllValid(blocks) }
  }

  /** The per-frame logits of a whole clip. */
  function Frames<F, V, L>(net: Net<F, V, L>, x: seq<F>): (y: seq<L>)
    requires net.Valid()
    ensures |y| == |x|
  {
    Map(net.head, Layers(net.blocks, Map(net.pre, x)))
  }

  method ForwardFrames<F, V, L>(net: Net<F, V, L>, x: seq<F>) returns (y: seq<L>)
    requires net.Valid()
    ensures y == Frames(net, x)
  {
    var h := Map(net.pre, x);
    for i := 0 to |net.blocks|
      invariant h == Layers(net.blocks[..i], Map(net.pre, x))
    {
      assert net.blocks[..i + 1][..i] == net.blocks[..i];
      h := Forward(net.blocks[i], h);
    }
    assert net.blocks[..|net.blocks|] == net.blocks;
    y := Map(net.head, h);
  }

  method InitStates<F, V, L>(net: Net<F, V, L>) returns (states: seq<seq<V>>)
    requires net.Valid()
    ensures states == StatesAfter(net.blocks, [])
  {
    states := [];
    for i := 0 to |net.blocks|
      invariant states == StatesAfter(net.blocks[..i], [])
    {
      assert net.blocks[..i + 1][..i] == net.blocks[..i];
      assert (Zeros(net.blocks[i]) + [])[0..] == Zeros(net.blocks[i]);
      states := states + [Zeros(net.blocks[i])];
    }
    assert net.blocks[..|net.blocks|] == net.blocks;
  }

  method Step<F, V, L>(net: Net<F, V, L>, frame: F, states: seq<seq<V>>) returns (y: L, next: seq<seq<V>>)
    requires net.Valid() && FitStates(net.blocks, states)
    ensures FitStates(net.blocks, next)
    ensures (y, next) == (net.head(StepLayers(net.blocks, net.pre(frame), states).0), StepLayers(net.blocks, net.pre(frame), states).1)
  {
    var h := net.pre(frame);
    next := [];
    for i := 0 to |net.blocks|
      invariant (h, next) == StepLayers(net.blocks[..i], net.pre(frame), states[..i])
    {
      assert net.blocks[..i + 1][..i] == net.blocks[..i] && states[..i + 1][..i] == states[..i];
      var out := StepBlock(net.blocks[i], h, states[i]);
      h, next := out.0, next + [out.1];
    }
    assert net.blocks[..|net.blocks|] == net.blocks && states[..|net.blocks|] == states;
    y := net.head(h);
  }

  /** Feeding a clip one frame at a time from zero states yields its whole-clip logits. */
  method StreamClip<F, V, L>(net: Net<F, V, L>, x: seq<F>) returns (y: seq<L>)
    requires net.Valid()
    ensures y == Frames(net, x)
  {
    hide InStep;
    var states := InitStates(net);
    y := [];
    NothingStreamed(net, x, states);
    for t := 0 to |x|
      invariant FitStates(net.blocks, states) && InStep(net, x[..t], states, y)
    {
      FrameExtends(net, x[..t], x[t], states, y);
      assert x[..t + 1] == x[..t] + [x[t]];
      hide StepLayers;
      var logit;
      logit, states := Step(net, x[t], states);
      y := y + [logit];
    }
    assert x[..|x|] == x;
    AllStreamed(net, x, states, y);
  }

  /** After the frames seen, states and logits are those of the whole-clip form. */
  ghost predicate InStep<F, V, L>(net: Net<F, V, L>, seen: seq<F>, states: seq<seq<V>>, y: seq<L>)
    requires net.Valid()
  {
    states == StatesAfter(net.blocks, Map(net.pre, seen)) && y == Frames(net, seen)
  }

  lemma NothingStreamed<F, V, L>(net: Net<F, V, L>, x: seq<F>, states: seq<seq<V>>)
    requires net.Valid() && states == StatesAfter(net.blocks, [])
    ensures InStep(net, x[..0], states, [])
  {
    assert Map(net.pre, x[..0]) == [];
  }

  lemma AllStreamed<F, V, L>(net: Net<F, V, L>, x: seq<F>, states: seq<seq<V>>, y: seq<L>)
    requires net.Valid() && InStep(net, x, states, y)
    ensures y == Frames(net, x)
  {
  }

  lemma FrameExtends<F, V, L>(net: Net<F, V, L>, x: seq<F>, frame: F, states: seq<seq<V>>, y: seq<L>)
    requires net.Valid() && FitStates(net.blocks, states) && InStep(net, x, states, y)
    ensures var r := StepLayers(net.blocks, net.pre(frame), states);
            InStep(net, x + [frame], r.1, y + [net.head(r.0)])
  {
    var h := Map(net.pre, x);
    assert Map(net.pre, x + [frame]) == h + [net.pre(frame)];
    StepExtendsLayers(net.blocks, h, net.pre(frame));
    hide StepLayers, StatesAfter, Layers;
  }

  // ---------------------------------------------------------------- receptive field

  /** j frames back from t in x and from u in y: both before the clip, or the same entry. */
  ghost predicate SameBack<V>(x: seq<V>, t: int, y: seq<V>, u: int, j: int) {
    && (t - j < 0 <==> u - j < 0)
    && (0 <= t - j < |x| && 0 <= u - j < |y| ==> x[t - j] == y[u - j])
  }

  ghost predicate Agree<V>(x: seq<V>, t: int, y: seq<V>, u: int, r: int) {
    forall j :: 0 <= j < r ==> SameBack(x, t, y, u, j)
  }

  /** receptive_field - 1: the summed reach of the blocks. */
  function Reach<V>(blocks: seq<Block<V>>): nat
    requires AllValid(blocks)
    decreases |blocks|
  {
    if blocks == [] then 0 else Reach(blocks[..|blocks| - 1]) + blocks[|blocks| - 1].Reach()
  }

  lemma ForwardAgrees<V>(b: Block<V>, x: seq<V>, t: nat, y: seq<V>, u: nat)
    requires b.Valid() && t < |x| && u < |y| && Agree(x, t, y, u, b.Reach() + 1)
    ensures Forward(b, x)[t] == Forward(b, y)[u]
  {
    var p, q, n := Zeros(b) + x, Zeros(b) + y, b.Reach();
    var pw, qw := p[t..t + n + 1], q[u..u + n + 1];
    forall i | 0 <= i < n + 1
      ensures pw[i] == qw[i]
    {
      assert SameBack(x, t, y, u, n - i);
    }
    assert pw == qw;
    TapsOfWindow(b, p, t, q, u);
    assert SameBack(x, t, y, u, 0);
  }

  lemma {:induction false} LayersAgree<V>(blocks: seq<Block<V>>, x: seq<V>, t: int, y: seq<V>, u: int, r: int)
    requires AllValid(blocks) && t < |x| && u < |y| && r >= 1 && Agree(x, t, y, u, Reach(blocks) + r)
    ensures Agree(Layers(blocks, x), t, Layers(blocks, y), u, r)
    decreases |blocks|
  {
    if blocks != [] {
      var front, b := blocks[..|blocks| - 1], blocks[|blocks| - 1];
      LayersAgree(front, x, t, y, u, b.Reach() + r);
      OneLayerAgrees(b, Layers(front, x), t, Layers(front, y), u, r);
    }
  }

  lemma OneLayerAgrees<V>(b: Block<V>, p: seq<V>, t: int, q: seq<V>, u: int, r: int)
    requires b.Valid() && t < |p| && u < |q| && Agree(p, t, q, u, b.Reach() + r)
    ensures Agree(Forward(b, p), t, Forward(b, q), u, r)
  {
    hide Forward;
    forall j | 0 <= j < r
      ensures SameBack(Forward(b, p), t, Forward(b, q), u, j)
    {
      assert SameBack(p, t, q, u, j);
      if 0 <= t - j && 0 <= u - j {
        AgreeShifts(p, t, q, u, b.Reach() + r, j, b.Reach() + 1);
        ForwardAgrees(b, p, t - j, q, u - j);
      }
    }
  }

  lemma AgreeShifts<V>(x: seq<V>, t: int, y: seq<V>, u: int, r: int, j: nat, n: int)
    requires Agree(x, t, y, u, r) && j + n <= r
    ensures Agree(x, t - j, y, u - j, n)
  {
    var t', u' := t - j, u - j;
    forall i | 0 <= i < n
      ensures SameBack(x, t', y, u', i)
    {
      assert SameBack(x, t, y, u, j + i);
    }
  }

  /** A logit depends only on the last 1 + sum (k - 1) * d frames and on how much of them precedes the clip. */
  lemma LogitDependsOnReceptiveField<F, V, L>(net: Net<F, V, L>, x: seq<F>, t: nat, y: seq<F>, u: nat)
    requires net.Valid() && t < |x| && u < |y| && Agree(x, t, y, u, Reach(net.blocks) + 1)
    ensures Frames(net, x)[t] == Frames(net, y)[u]
  {
    var p, q, r := Map(net.pre, x), Map(net.pre, y), Reach(net.blocks) + 1;
    hide Reach, Layers;
    forall j | 0 <= j < r
      ensures SameBack(p, t, q, u, j)
    {
      assert SameBack(x, t, y, u, j);
    }
    LayersAgree(net.blocks, p, t, q, u, 1);
    assert SameBack(Layers(net.blocks, p), t, Layers(net.blocks, q), u, 0);
  }
}
