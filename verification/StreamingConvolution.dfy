/**
 What the network of tools/streaming_model.py computes, written down without its padding, buffers and
 tap indices: each block's value at frame t as a function of k delayed values below it, a dilation apart.
*/
module StreamingConvolution {
  import opened Arithmetic
  import opened StreamingModel
  import opened Wrappers

  /** How many frames before the current one tap j looks. */
  function Lag<V>(b: Block<V>, j: nat): nat
    requires b.Valid() && j < b.k
  {
    Scale(0, b.k - 1 - j, b.dilation);
    (b.k - 1 - j) * b.dilation
  }

  /** The value n frames before t, or the padding if that is before the clip. */
  function Delayed<V>(b: Block<V>, x: seq<V>, t: nat, n: nat): V
    requires t < |x|
  {
    if n <= t then x[t - n] else b.zero
  }

  /** The last k values a dilation apart, the newest being frame t itself. */
  function Spread<V>(b: Block<V>, x: seq<V>, t: nat): (s: seq<V>)
    requires b.Valid() && t < |x|
    ensures |s| == b.k
  {
    seq(b.k, j requires 0 <= j < b.k => Delayed(b, x, t, Lag(b, j)))
  }

  lemma LagIs<V>(b: Block<V>, j: nat)
    requires b.Valid() && j < b.k
    ensures 0 <= j * b.dilation && j * b.dilation + Lag(b, j) == b.Reach()
    ensures j == b.k - 1 ==> Lag(b, j) == 0
    ensures j < b.k - 1 ==> Lag(b, j) == Lag(b, j + 1) + b.dilation
  {
    TapWithin(b.k, b.dilation, j);
  }

  lemma TapIsDelayed<V>(b: Block<V>, x: seq<V>, t: nat, j: nat)
    requires b.Valid() && t < |x| && j < b.k
    ensures Taps(b, Zeros(b) + x, t)[j] == Delayed(b, x, t, Lag(b, j))
  {
    LagIs(b, j);
    hide Lag;
  }

  /** Frame t of a block's whole-clip output is the convolution of the k inputs a dilation apart that end at t. */
  lemma ForwardIsConvolution<V>(b: Block<V>, x: seq<V>, t: nat)
    requires b.Valid() && t < |x|
    ensures Forward(b, x)[t] == b.f(Spread(b, x, t), x[t])
  {
    forall j | 0 <= j < b.k
      ensures Taps(b, Zeros(b) + x, t)[j] == Spread(b, x, t)[j]
    {
      TapIsDelayed(b, x, t, j);
    }
    assert Taps(b, Zeros(b) + x, t) == Spread(b, x, t);
  }

  // ---------------------------------------------------------------- networks of any depth

  /** What the first n blocks compute at frame t. */
  function Value<V>(blocks: seq<Block<V>>, n: nat, x: seq<V>, t: nat): V
    requires AllValid(blocks) && n <= |blocks| && t < |x|
    decreases n, 0
  {
    if n == 0 then x[t] else blocks[n - 1].f(Spread(blocks[n - 1], Values(blocks, n - 1, x), t), Value(blocks, n - 1, x, t))
  }

  function Values<V>(blocks: seq<Block<V>>, n: nat, x: seq<V>): (v: seq<V>)
    requires AllValid(blocks) && n <= |blocks|
    ensures |v| == |x|
    decreases n, 1
  {
    seq(|x|, t requires 0 <= t < |x| => Value(blocks, n, x, t))
  }

  lemma {:induction false} LayersAre<V>(blocks: seq<Block<V>>, n: nat, x: seq<V>)
    requires AllValid(blocks) && n <= |blocks|
    ensures Layers(blocks[..n], x) == Values(blocks, n, x)
    decreases n
  {
    if n > 0 {
      var b, below := blocks[n - 1], Values(blocks, n - 1, x);
      assert blocks[..n][..n - 1] == blocks[..n - 1];
      LayersAre(blocks, n - 1, x);
      forall t | 0 <= t < |x|
        ensures Forward(b, below)[t] == Values(blocks, n, x)[t]
      {
        ForwardIsConvolution(b, below, t);
      }
    }
  }

  /** Every logit of a clip is the head applied to nested dilated convolutions of its projected frames. */
  lemma LogitIs<F, V, L>(net: Net<F, V, L>, x: seq<F>, t: nat)
    requires net.Valid() && t < |x|
    ensures Frames(net, x)[t] == net.head(Value(net.blocks, |net.blocks|, Map(net.pre, x), t))
  {
    assert net.blocks[..|net.blocks|] == net.blocks;
    LayersAre(net.blocks, |net.blocks|, Map(net.pre, x));
  }

  /** For one block, from the frames themselves. */
  lemma OneBlockLogit<F, V, L>(net: Net<F, V, L>, x: seq<F>, t: nat) returns (taps: seq<V>)
    requires net.Valid() && |net.blocks| == 1 && t < |x|
    ensures var b := net.blocks[0];
            && |taps| == b.k && Frames(net, x)[t] == net.head(b.f(taps, net.pre(x[t])))
            && forall j :: 0 <= j < b.k ==>
                 taps[j] == var at := t - (b.k - 1 - j) * b.dilation; if 0 <= at <= t then net.pre(x[at]) else b.zero
  {
    var b, h := net.blocks[0], Map(net.pre, x);
    LogitIs(net, x, t);
    var below := Values(net.blocks, 0, h);
    assert below == h;
    taps := Spread(b, h, t);
    assert Value(net.blocks, 1, h, t) == b.f(taps, h[t]);
    hide Value, Values;
    forall j | 0 <= j < b.k
      ensures taps[j] == var at := t - (b.k - 1 - j) * b.dilation; if 0 <= at <= t then net.pre(x[at]) else b.zero
    {
      assert taps[j] == Delayed(b, h, t, Lag(b, j));
    }
  }
}
