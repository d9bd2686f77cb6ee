/**
 The overlap buffer of core/features/LogMelExtractor.cpp against the strided view of log_mel in
 tools/aura_frontend.py. What is computed from a full window is a parameter.
*/
module LogMel {
  import opened Arithmetic
  import opened Wrappers

  type Signal = seq<real>

  /** One window's features. */
  type Features = Signal -> seq<real>

  // ---------------------------------------------------------------- the batch form

  /** Every contiguous stretch of win samples. */
  function SlidingView(x: Signal, win: nat): seq<Signal> {
    if |x| < win then [] else seq(|x| - win + 1, i requires 0 <= i <= |x| - win => x[i..i + win])
  }

  /** s[::hop] */
  function Strided<T>(s: seq<T>, hop: nat): (r: seq<T>)
    requires hop >= 1
    decreases |s|
  {
    if s == [] then [] else if |s| <= hop then [s[0]] else [s[0]] + Strided(s[hop..], hop)
  }

  /** log_mel of a whole clip. */
  function BatchFrames(f: Features, x: Signal, win: nat, hop: nat): seq<seq<real>>
    requires hop >= 1
  {
    Map(f, Strided(SlidingView(x, win), hop))
  }

  // ---------------------------------------------------------------- window by window

  /** (N - win) / hop + 1 windows fit, none if N < win. */
  function FrameCount(n: nat, win: nat, hop: nat): nat
    requires hop >= 1
  {
    if n < win then 0 else (n - win) / hop + 1
  }

  /** Where window k begins. */
  function Start(k: nat, hop: nat): nat {
    k * hop
  }

  lemma StartNext(k: nat, hop: nat)
    ensures Start(k + 1, hop) == Start(k, hop) + hop
  {
    assert (k + 1) * hop == k * hop + hop;
  }

  /** Window k: x[k * hop .. k * hop + win). */
  function WindowAt(x: Signal, k: nat, win: nat, hop: nat): Signal {
    if Start(k, hop) + win <= |x| then x[Start(k, hop)..Start(k, hop) + win] else []
  }

  function Frames(f: Features, x: Signal, win: nat, hop: nat): (r: seq<seq<real>>)
    requires hop >= 1
    ensures |r| == FrameCount(|x|, win, hop)
  {
    seq(FrameCount(|x|, win, hop), k requires k >= 0 => f(WindowAt(x, k, win, hop)))
  }

  /** k is the count when window k - 1 fits and window k does not. */
  lemma CountIs(n: nat, k: nat, win: nat, hop: nat)
    requires hop >= 1 && n < k * hop + win && (k >= 1 ==> (k - 1) * hop + win <= n)
    ensures FrameCount(n, win, hop) == k
  {
    if k >= 1 {
      assert (k - 1) * hop >= 0;
      var d := n - win - (k - 1) * hop;
      assert k * hop == (k - 1) * hop + hop;
      DivIs(n - win, hop, k - 1, d);
    }
  }

  lemma CountMeans(n: nat, win: nat, hop: nat)
    requires hop >= 1
    ensures var k := FrameCount(n, win, hop);
            n < k * hop + win && (k >= 1 ==> (k - 1) * hop + win <= n)
  {
    if n >= win {
      var q := (n - win) / hop;
      assert n - win == q * hop + (n - win) % hop;
      assert (q + 1) * hop == q * hop + hop;
    }
  }

  lemma {:induction false} StridedAt<T>(s: seq<T>, hop: nat, k: nat)
    requires hop >= 1 && k < |Strided(s, hop)|
    ensures k * hop < |s| && Strided(s, hop)[k] == s[k * hop]
    decreases |s|
  {
    if |s| > hop && k > 0 {
      StridedAt(s[hop..], hop, k - 1);
      assert k * hop == (k - 1) * hop + hop;
    }
  }

  lemma {:induction false} StridedLength<T>(s: seq<T>, hop: nat)
    requires hop >= 1
    ensures |Strided(s, hop)| == if s == [] then 0 else (|s| - 1) / hop + 1
    decreases |s|
  {
    if |s| > hop {
      StridedLength(s[hop..], hop);
      var q := (|s| - 1 - hop) / hop;
      DivIs(|s| - 1, hop, q + 1, (|s| - 1 - hop) % hop) by { assert (q + 1) * hop == q * hop + hop; }
    } else if s != [] {
      DivIs(|s| - 1, hop, 0, |s| - 1);
    }
  }

  /** The strided view has exactly the windows k * hop. */
  lemma FramesAreBatch(f: Features, x: Signal, win: nat, hop: nat)
    requires hop >= 1
    ensures Frames(f, x, win, hop) == BatchFrames(f, x, win, hop)
  {
    var view := SlidingView(x, win);
    StridedLength(view, hop);
    var s := Strided(view, hop);
    assert |s| == FrameCount(|x|, win, hop);
    hide FrameCount, Strided;
    assert |Frames(f, x, win, hop)| == |s|;
    forall k | 0 <= k < |s|
      ensures Frames(f, x, win, hop)[k] == f(s[k])
    {
      StridedAt(view, hop, k);
      assert k * hop < |view|;
      assert k * hop + win <= |x|;
      assert s[k] == WindowAt(x, k, win, hop);
    }
  }

  lemma WindowStays(x: Signal, more: Signal, k: nat, win: nat, hop: nat)
    requires k * hop + win <= |x|
    ensures WindowAt(x + more, k, win, hop) == WindowAt(x, k, win, hop)
  {
  }

  lemma EarlierFits(n: nat, k: nat, j: nat, win: nat, hop: nat)
    requires j < k && (k - 1) * hop + win <= n
    ensures j * hop + win <= n
  {
    Scale(j, k - 1, hop);
  }

  /** More input leaves the frames already out unchanged. */
  lemma FramesStay(f: Features, x: Signal, more: Signal, win: nat, hop: nat)
    requires hop >= 1 && FrameCount(|x|, win, hop) <= FrameCount(|x + more|, win, hop)
    ensures Frames(f, x, win, hop) == Frames(f, x + more, win, hop)[..FrameCount(|x|, win, hop)]
  {
    var k := FrameCount(|x|, win, hop);
    CountMeans(|x|, win, hop);
    hide FrameCount;
    forall j | 0 <= j < k
      ensures Frames(f, x, win, hop)[j] == Frames(f, x + more, win, hop)[j]
    {
      EarlierFits(|x|, k, j, win, hop);
      WindowStays(x, more, j, win, hop);
    }
  }

  /** A window that does not fill adds no frame. */
  lemma NotYetFull(f: Features, x: Signal, part: Signal, win: nat, hop: nat)
    requires hop >= 1 && |x + part| < Start(FrameCount(|x|, win, hop), hop) + win
    ensures FrameCount(|x + part|, win, hop) == FrameCount(|x|, win, hop)
    ensures Frames(f, x + part, win, hop) == Frames(f, x, win, hop) + []
  {
    var k := FrameCount(|x|, win, hop);
    CountMeans(|x|, win, hop);
    CountIs(|x + part|, k, win, hop);
    FramesStay(f, x, part, win, hop);
  }

  /** A window that fills adds the next one. */
  lemma JustFull(f: Features, x: Signal, part: Signal, win: nat, hop: nat)
    requires 1 <= hop <= win && |x + part| == Start(FrameCount(|x|, win, hop), hop) + win
    ensures FrameCount(|x + part|, win, hop) == FrameCount(|x|, win, hop) + 1
    ensures Frames(f, x + part, win, hop) ==
            Frames(f, x, win, hop) + [f(WindowAt(x + part, FrameCount(|x|, win, hop), win, hop))]
  {
    var k := FrameCount(|x|, win, hop);
    assert (k + 1) * hop == k * hop + hop;
    CountMeans(|x|, win, hop);
    CountIs(|x + part|, k + 1, win, hop);
    FramesStay(f, x, part, win, hop);
    assert Frames(f, x + part, win, hop)[..k] + [Frames(f, x + part, win, hop)[k]] == Frames(f, x + part, win, hop);
  }

  // ---------------------------------------------------------------- the extractor

  class LogMelExtractor {
    const win: nat
    const hop: nat
    const f: Features
    const overlap: array<real>
    var filled: nat
    ghost var fed: Signal   // everything since construction or reset

    ghost predicate Shape() {
      1 <= hop <= win == overlap.Length
    }

    /** The buffer holds the input from the next window's start on. */
    ghost predicate Valid()
      reads this, overlap
    {
      && Shape() && filled < win
      && var k := FrameCount(|fed|, win, hop);
         Start(k, hop) + filled == |fed| && overlap[..filled] == fed[Start(k, hop)..]
    }

    constructor (win: nat, hop: nat, f: Features)
      requires 1 <= hop <= win
      ensures Valid() && fresh(overlap) && fed == [] && this.win == win && this.hop == hop && this.f == f
    {
      this.win, this.hop, this.f := win, hop, f;
      overlap := new real[win](_ => 0.0);
      filled, fed := 0, [];
    }

    method Reset()
      requires Shape()
      modifies this, overlap
      ensures Valid() && fed == []
    {
      forall i | 0 <= i < overlap.Length {
        overlap[i] := 0.0;
      }
      filled, fed := 0, [];
    }

    /** The frames handed to the callback are those the longer input adds to the batch form. */
    method Process(samples: Signal) returns (frames: seq<seq<real>>)
      requires Valid()
      modifies this, overlap
      ensures Valid() && fed == old(fed) + samples
      ensures Frames(f, fed, win, hop) == Frames(f, old(fed), win, hop) + frames
    {
      hide Frames;
      frames := [];
      var idx := 0;
      assert old(fed) + samples[..0] == old(fed);
      while idx < |samples|
        invariant idx <= |samples| && Valid() && fed == old(fed) + samples[..idx]
        invariant Frames(f, fed, win, hop) == Frames(f, old(fed), win, hop) + frames
        decreases |samples| - idx
      {
        var take := if win - filled < |samples| - idx then win - filled else |samples| - idx;
        assert samples[..idx + take] == samples[..idx] + samples[idx..idx + take];
        var more := Append(samples[idx..idx + take]);
        idx := idx + take;
        frames := frames + more;
      }
      assert samples[..idx] == samples;
    }

    /** One round of process's loop: at most one window fills. */
    method Append(part: Signal) returns (out: seq<seq<real>>)
      requires Valid() && 1 <= |part| <= win - filled
      modifies this, overlap
      ensures Valid() && fed == old(fed) + part
      ensures Frames(f, fed, win, hop) == Frames(f, old(fed), win, hop) + out
    {
      ghost var k, x := FrameCount(|fed|, win, hop), fed + part;
      StartNext(k, hop);
      hide FrameCount, Frames, WindowAt, Start;
      ghost var at := Start(k, hop);
      CopyIn(part);
      assert fed[at..] + part == x[at..];
      if filled == win {
        assert overlap[..] == overlap[..filled];
        WindowIsTail(x, k, win, hop);
        JustFull(f, fed, part, win, hop);
        out := [f(overlap[..])];
        Slide(x[at..]);
        assert x[at..][hop..] == x[at + hop..];
      } else {
        out := [];
        NotYetFull(f, fed, part, win, hop);
      }
      fed := x;
    }

    method CopyIn(part: Signal)
      requires Shape() && filled + |part| <= win
      modifies this`filled, overlap
      ensures filled == old(filled) + |part| && overlap[..filled] == old(overlap[..filled]) + part
    {
      forall i | 0 <= i < |part| {
        overlap[filled + i] := part[i];
      }
      filled := filled + |part|;
    }

    /** Drop the first hop samples, keep the rest for overlap. */
    method Slide(ghost full: Signal)
      requires Shape() && overlap[..] == full
      modifies this`filled, overlap
      ensures filled == win - hop && overlap[..filled] == full[hop..]
    {
      forall i | 0 <= i < win - hop {
        overlap[i] := overlap[hop + i];
      }
      filled := win - hop;
    }
  }

  lemma WindowIsTail(x: Signal, k: nat, win: nat, hop: nat)
    requires Start(k, hop) + win == |x|
    ensures WindowAt(x, k, win, hop) == x[Start(k, hop)..]
  {
  }
}
