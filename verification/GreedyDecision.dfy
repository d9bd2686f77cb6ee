/**
 The detection policy of evaluate.py `_decide` and benchmarks/harness/bench_kws.py `decide`:
 M consecutive hits among the gate-open steps fire a detection, after which a refractory counter
 suppresses the policy. The counters turn out to solve an optimisation problem: they pick a
 largest possible set of hit blocks that are far enough apart.
*/
module GreedyDecision {
  import opened Arithmetic

  /** hop >= 1 is the stride of the scored positions; needed and refr come from the sweep. */
  datatype Policy = Policy(needed: int, refr: int, hop: int) {
    predicate Valid() { hop >= 1 }

    /** A detection always takes at least one hit, whatever M is. */
    function Need(): nat { if needed < 1 then 1 else needed }

    /** Fewest steps from a detection to the next step that may be scored: max(1, ceil(refr / hop)). */
    function Gap(): nat
      requires Valid()
    {
      if refr <= hop then 1 else (refr + hop - 1) / hop
    }
  }

  lemma GapIsLeast(p: Policy)
    requires p.Valid()
    ensures p.Gap() >= 1 && p.Gap() * p.hop >= p.refr
    ensures forall d: nat :: d >= 1 && d * p.hop >= p.refr ==> d >= p.Gap()
  {
    if p.refr > p.hop {
      var g := p.Gap();
      assert p.refr <= g * p.hop < p.refr + p.hop;
      assert (g - 1) * p.hop == g * p.hop - p.hop;
      forall d: nat | d >= 1 && d * p.hop >= p.refr
        ensures d >= g
      {
        Cancel(d, g - 1, p.hop);
      }
    }
  }

  /** One scored position: is the speech gate open, and do the scores clear the thresholds? */
  datatype Obs = Obs(open: bool, hit: bool)

  datatype Counters = Counters(consec: nat, r: int, dets: nat)

  const START := Counters(0, 0, 0)

  function Step(p: Policy, c: Counters, o: Obs): Counters {
    var r := if c.r > 0 then c.r - p.hop else c.r;
    if !o.open || r > 0 then c.(r := r)
    else if !o.hit then c.(consec := 0, r := r)
    else if c.consec + 1 >= p.needed then Counters(0, p.refr, c.dets + 1)
    else c.(consec := c.consec + 1, r := r)
  }

  /** The counters after the first n observations. */
  function Run(p: Policy, obs: seq<Obs>, n: nat): Counters
    requires n <= |obs|
  {
    if n == 0 then START else Step(p, Run(p, obs, n - 1), obs[n - 1])
  }

  // ---------------------------------------------------------------- the optimisation problem

  function OpenCount(obs: seq<Obs>, s: nat, n: nat): nat
    requires s <= n <= |obs|
    decreases n - s
  {
    if s == n then 0 else OpenCount(obs, s, n - 1) + (if obs[n - 1].open then 1 else 0)
  }

  datatype Block = Block(s: nat, e: nat)

  /** Steps b.s .. b.e begin and end with an open hit, hold `need` open steps, and all of those hit. */
  ghost predicate IsBlock(obs: seq<Obs>, need: nat, b: Block) {
    && b.s <= b.e < |obs|
    && obs[b.s].open && obs[b.e].open
    && (forall i :: b.s <= i <= b.e && obs[i].open ==> obs[i].hit)
    && OpenCount(obs, b.s, b.e + 1) == need
  }

  /** A choice of blocks, each starting at least a gap after the previous one ended. */
  ghost predicate Feasible(p: Policy, obs: seq<Obs>, bs: seq<Block>)
    requires p.Valid()
  {
    && (forall k :: 0 <= k < |bs| ==> IsBlock(obs, p.Need(), bs[k]))
    && (forall k :: 1 <= k < |bs| ==> bs[k].s >= bs[k - 1].e + p.Gap())
  }

  // ---------------------------------------------------------------- no choice beats the counters

  lemma {:induction false} DetsGrow(p: Policy, obs: seq<Obs>, m: nat, n: nat)
    requires m <= n <= |obs|
    ensures Run(p, obs, m).dets <= Run(p, obs, n).dets
  {
    if m < n { DetsGrow(p, obs, m, n - 1); }
  }

  lemma {:induction false} CountersBounded(p: Policy, obs: seq<Obs>, n: nat)
    requires p.Valid() && n <= |obs|
    ensures Run(p, obs, n).consec < p.Need()
    ensures Run(p, obs, n).r <= 0 || Run(p, obs, n).r <= p.refr
  {
    if n > 0 { CountersBounded(p, obs, n - 1); }
  }

  /** While nothing fires, the refractory counter loses at least hop a step until it expires. */
  lemma {:induction false} Cooling(p: Policy, obs: seq<Obs>, a: nat, n: nat, cap: int)
    requires p.Valid() && a <= n <= |obs| && cap >= 0 && Run(p, obs, a).r <= cap
    requires Run(p, obs, n).dets == Run(p, obs, a).dets
    ensures Run(p, obs, n).r <= 0 || Run(p, obs, n).r <= cap - (n - a) * p.hop
  {
    if a < n {
      DetsGrow(p, obs, a, n - 1);
      DetsGrow(p, obs, n - 1, n);
      Cooling(p, obs, a, n - 1, cap);
      assert (n - a) * p.hop == (n - 1 - a) * p.hop + p.hop;
    }
  }

  /** Inside a block that starts after the counter has expired, the streak counts every open step. */
  lemma {:induction false} Climb(p: Policy, obs: seq<Obs>, a: nat, cap: int, b: Block, n: nat)
    requires p.Valid() && IsBlock(obs, p.Need(), b) && a <= b.s <= n <= b.e + 1
    requires cap >= 0 && Run(p, obs, a).r <= cap && cap <= (b.s + 1 - a) * p.hop
    requires Run(p, obs, n).dets == Run(p, obs, a).dets
    ensures Run(p, obs, n).consec >= OpenCount(obs, b.s, n)
  {
    if b.s < n {
      DetsGrow(p, obs, a, n - 1);
      DetsGrow(p, obs, n - 1, n);
      Climb(p, obs, a, cap, b, n - 1);
      Cooling(p, obs, a, n - 1, cap);
      Scale(b.s + 1 - a, n - a, p.hop);
      assert (n - a) * p.hop == (n - 1 - a) * p.hop + p.hop;
    }
  }

  /** Such a block forces a detection by its last step. */
  lemma BlockForcesDetection(p: Policy, obs: seq<Obs>, a: nat, cap: int, b: Block)
    requires p.Valid() && IsBlock(obs, p.Need(), b) && a <= b.s
    requires cap >= 0 && Run(p, obs, a).r <= cap && cap <= (b.s + 1 - a) * p.hop
    ensures Run(p, obs, b.e + 1).dets > Run(p, obs, a).dets
  {
    DetsGrow(p, obs, a, b.e + 1);
    if Run(p, obs, b.e + 1).dets == Run(p, obs, a).dets {
      Climb(p, obs, a, cap, b, b.e + 1);
      CountersBounded(p, obs, b.e + 1);
    }
  }

  lemma AfterGap(p: Policy, obs: seq<Obs>, e: nat, b: Block)
    requires p.Valid() && e < |obs| && IsBlock(obs, p.Need(), b) && b.s >= e + p.Gap()
    ensures Run(p, obs, b.e + 1).dets > Run(p, obs, e + 1).dets
  {
    CountersBounded(p, obs, e + 1);
    GapIsLeast(p);
    Scale(p.Gap(), b.s - e, p.hop);
    var cap := if p.refr > 0 then p.refr else 0;
    assert cap <= (b.s + 1 - (e + 1)) * p.hop;
    BlockForcesDetection(p, obs, e + 1, cap, b);
  }

  lemma FeasibleFront(p: Policy, obs: seq<Obs>, bs: seq<Block>)
    requires p.Valid() && Feasible(p, obs, bs) && bs != []
    ensures Feasible(p, obs, bs[..|bs| - 1]) && IsBlock(obs, p.Need(), bs[|bs| - 1])
    ensures |bs| >= 2 ==> bs[|bs| - 2].e < |obs| && bs[|bs| - 1].s >= bs[|bs| - 2].e + p.Gap()
  {
    assert |bs| >= 2 ==> IsBlock(obs, p.Need(), bs[|bs| - 2]);
  }

  lemma FeasibleSnoc(p: Policy, obs: seq<Obs>, bs: seq<Block>, b: Block)
    requires p.Valid() && Feasible(p, obs, bs) && IsBlock(obs, p.Need(), b)
    requires bs != [] ==> b.s >= bs[|bs| - 1].e + p.Gap()
    ensures Feasible(p, obs, bs + [b])
  {
    hide IsBlock;
  }

  /** The counters stay ahead of every feasible choice. */
  lemma {:induction false} StaysAhead(p: Policy, obs: seq<Obs>, bs: seq<Block>)
    requires p.Valid() && Feasible(p, obs, bs) && bs != []
    ensures Run(p, obs, bs[|bs| - 1].e + 1).dets >= |bs|
  {
    var k := |bs| - 1;
    FeasibleFront(p, obs, bs);
    assert bs[k].e < |obs| && Run(p, obs, 0).r == 0 && (bs[k].s + 1) * p.hop >= 0;
    hide Feasible, Run, IsBlock;
    if k == 0 {
      BlockForcesDetection(p, obs, 0, 0, bs[0]);
    } else {
      StaysAhead(p, obs, bs[..k]);
      AfterGap(p, obs, bs[k - 1].e, bs[k]);
    }
  }

  lemma NoChoiceDoesBetter(p: Policy, obs: seq<Obs>, bs: seq<Block>)
    requires p.Valid() && Feasible(p, obs, bs)
    ensures |bs| <= Run(p, obs, |obs|).dets
  {
    if bs != [] {
      StaysAhead(p, obs, bs);
      DetsGrow(p, obs, bs[|bs| - 1].e + 1, |obs|);
    }
  }

  // ---------------------------------------------------------------- the counters are achievable

  /** Step e is the one at which detection number k (from 0) fires. */
  ghost predicate FiresAt(p: Policy, obs: seq<Obs>, e: nat, k: nat) {
    e < |obs| && Run(p, obs, e).dets == k && Run(p, obs, e + 1).dets == k + 1
  }

  /** What the counters say about the past: the blocks that fired, and how long ago the last one was. */
  ghost predicate Fired(p: Policy, obs: seq<Obs>, n: nat, bs: seq<Block>)
    requires p.Valid() && n <= |obs|
  {
    var c := Run(p, obs, n);
    && Feasible(p, obs, bs) && |bs| == c.dets
    && (forall k :: 0 <= k < |bs| ==> bs[k].e < n && FiresAt(p, obs, bs[k].e, k))
    && (bs != [] ==> c.r >= p.refr - (n - 1 - bs[|bs| - 1].e) * p.hop)
  }

  /** What the counters say about the present: an unfinished block that began at cs. */
  ghost predicate Streak(p: Policy, obs: seq<Obs>, n: nat, bs: seq<Block>, cs: nat)
    requires p.Valid() && n <= |obs|
  {
    var c := Run(p, obs, n);
    c.consec > 0 ==>
      && cs < n && c.r <= 0 && obs[cs].open
      && (forall i :: cs <= i < n && obs[i].open ==> obs[i].hit)
      && OpenCount(obs, cs, n) == c.consec
      && (bs != [] ==> cs >= bs[|bs| - 1].e + p.Gap())
  }

  lemma {:induction false} Schedule(p: Policy, obs: seq<Obs>, n: nat) returns (bs: seq<Block>, cs: nat)
    requires p.Valid() && n <= |obs|
    ensures Fired(p, obs, n, bs) && Streak(p, obs, n, bs, cs)
  {
    if n == 0 {
      bs, cs := [], 0;
    } else {
      bs, cs := Schedule(p, obs, n - 1);
      var c, o := Run(p, obs, n - 1), obs[n - 1];
      CountersBounded(p, obs, n - 1);
      if !o.open || !o.hit || Decayed(p, c) > 0 {
        NothingFires(p, obs, n, bs);
      } else {
        if c.consec == 0 { cs := n - 1; }
        StreakGrows(p, obs, n, bs, cs);
        if c.consec + 1 >= p.needed {
          bs := Fires(p, obs, n, bs, cs);
        } else {
          NothingFires(p, obs, n, bs);
        }
      }
    }
  }

  function Decayed(p: Policy, c: Counters): int {
    if c.r > 0 then c.r - p.hop else c.r
  }

  lemma NothingFires(p: Policy, obs: seq<Obs>, n: nat, bs: seq<Block>)
    requires p.Valid() && 0 < n <= |obs| && Fired(p, obs, n - 1, bs)
    requires Run(p, obs, n).dets == Run(p, obs, n - 1).dets
    ensures Fired(p, obs, n, bs)
  {
    if bs != [] {
      var last := bs[|bs| - 1].e;
      assert (n - 1 - last) * p.hop == (n - 2 - last) * p.hop + p.hop;
    }
  }

  lemma StreakGrows(p: Policy, obs: seq<Obs>, n: nat, bs: seq<Block>, cs: nat)
    requires p.Valid() && 0 < n <= |obs| && Fired(p, obs, n - 1, bs)
    requires var c := Run(p, obs, n - 1);
             && obs[n - 1] == Obs(true, true) && Decayed(p, c) <= 0
             && (if c.consec == 0 then cs == n - 1 else Streak(p, obs, n - 1, bs, cs))
    ensures cs < n && obs[cs].open
    ensures forall i :: cs <= i < n && obs[i].open ==> obs[i].hit
    ensures OpenCount(obs, cs, n) == Run(p, obs, n - 1).consec + 1
    ensures bs != [] ==> cs >= bs[|bs| - 1].e + p.Gap()
  {
    var c := Run(p, obs, n - 1);
    if c.consec == 0 {
      assert OpenCount(obs, n - 1, n - 1) == 0;
    }
    if bs != [] {
      var last := bs[|bs| - 1].e;
      assert (n - 1 - last) * p.hop == (n - 2 - last) * p.hop + p.hop;
      Expired(p, n - 1 - last, Decayed(p, c));
    }
  }

  lemma Fires(p: Policy, obs: seq<Obs>, n: nat, bs: seq<Block>, cs: nat) returns (bs': seq<Block>)
    requires p.Valid() && 0 < n <= |obs| && Fired(p, obs, n - 1, bs) && cs < n
    requires IsBlock(obs, p.Need(), Block(cs, n - 1))
    requires Run(p, obs, n).dets == Run(p, obs, n - 1).dets + 1 && Run(p, obs, n).r == p.refr
    requires bs != [] ==> cs >= bs[|bs| - 1].e + p.Gap()
    ensures Fired(p, obs, n, bs')
    ensures bs' == bs + [Block(cs, n - 1)]
  {
    bs' := bs + [Block(cs, n - 1)];
    assert (n - 1 - (n - 1)) * p.hop == 0;
    assert FiresAt(p, obs, n - 1, |bs|);
    FeasibleSnoc(p, obs, bs, Block(cs, n - 1));
    hide IsBlock, FiresAt, Feasible, Run;
    forall k | 0 <= k < |bs'|
      ensures bs'[k].e < n && FiresAt(p, obs, bs'[k].e, k)
    {
      if k < |bs| { assert bs'[k] == bs[k]; }
    }
  }

  /** The step that finds the counter expired lies at least a gap after the detection. */
  lemma Expired(p: Policy, d: nat, r: int)
    requires p.Valid() && d >= 1 && p.refr - d * p.hop <= r <= 0
    ensures d >= p.Gap()
  {
    GapIsLeast(p);
  }

  /** The greedy count is the maximum size of a feasible choice of blocks. */
  lemma DetectionsAreOptimal(p: Policy, obs: seq<Obs>) returns (best: seq<Block>)
    requires p.Valid()
    ensures Feasible(p, obs, best) && |best| == Run(p, obs, |obs|).dets
    ensures forall k :: 0 <= k < |best| ==> FiresAt(p, obs, best[k].e, k)
    ensures forall bs :: Feasible(p, obs, bs) ==> |bs| <= |best|
  {
    var cs;
    best, cs := Schedule(p, obs, |obs|);
    forall bs | Feasible(p, obs, bs)
      ensures |bs| <= |best|
    {
      NoChoiceDoesBetter(p, obs, bs);
    }
  }

  // ---------------------------------------------------------------- consequences

  lemma {:induction false} OpenCountAtMost(obs: seq<Obs>, s: nat, n: nat)
    requires s <= n <= |obs|
    ensures OpenCount(obs, s, n) <= n - s
    decreases n - s
  {
    if s < n { OpenCountAtMost(obs, s, n - 1); }
  }

  /** Consecutive detections are at least Gap + Need - 1 steps apart. */
  lemma DetectionsAreSpread(p: Policy, obs: seq<Obs>, d: nat, e: nat, k: nat)
    requires p.Valid() && FiresAt(p, obs, d, k) && FiresAt(p, obs, e, k + 1)
    ensures e >= d + p.Gap() + p.Need() - 1
  {
    var bs := DetectionsAreOptimal(p, obs);
    DetsGrow(p, obs, e + 1, |obs|);
    FiresOnce(p, obs, d, bs[k].e, k);
    FiresOnce(p, obs, e, bs[k + 1].e, k + 1);
    OpenCountAtMost(obs, bs[k + 1].s, e + 1);
  }

  lemma FiresOnce(p: Policy, obs: seq<Obs>, d: nat, e: nat, k: nat)
    requires FiresAt(p, obs, d, k) && FiresAt(p, obs, e, k)
    ensures d == e
  {
    if d < e {
      DetsGrow(p, obs, d + 1, e);
    } else if e < d {
      DetsGrow(p, obs, e + 1, d);
    }
  }

  lemma {:induction false} SameOpenCount(obs: seq<Obs>, obs': seq<Obs>, s: nat, n: nat)
    requires |obs| == |obs'| && s <= n <= |obs|
    requires forall i :: 0 <= i < |obs| ==> obs[i].open == obs'[i].open
    ensures OpenCount(obs, s, n) == OpenCount(obs', s, n)
    decreases n - s
  {
    if s < n { SameOpenCount(obs, obs', s, n - 1); }
  }

  /** A block of need' open hits contains one of need <= need' with the same start. */
  lemma {:induction false} ShrinkBlock(obs: seq<Obs>, b: Block, need': nat, need: nat) returns (e: nat)
    requires IsBlock(obs, need', b) && 1 <= need <= need'
    ensures e <= b.e && IsBlock(obs, need, Block(b.s, e))
  {
    e := b.e;
    while OpenCount(obs, b.s, e + 1) > need || !obs[e].open
      invariant b.s <= e <= b.e && OpenCount(obs, b.s, e + 1) >= need
      decreases e
    {
      assert OpenCount(obs, b.s, b.s + 1) == 1 by { assert OpenCount(obs, b.s, b.s) == 0; }
      e := e - 1;
    }
  }

  /** `strict` never hits where `lax` does not; both see the same gate. */
  ghost predicate Stricter(strict: seq<Obs>, lax: seq<Obs>) {
    && |strict| == |lax|
    && forall i :: 0 <= i < |lax| ==> strict[i].open == lax[i].open && (strict[i].hit ==> lax[i].hit)
  }

  lemma BlockRelaxes(strict: seq<Obs>, lax: seq<Obs>, need: nat, b: Block)
    requires Stricter(strict, lax) && IsBlock(strict, need, b)
    ensures IsBlock(lax, need, b)
  {
    SameOpenCount(strict, lax, b.s, b.e + 1);
  }

  lemma {:induction false} Relax(q: Policy, strict: seq<Obs>, p: Policy, lax: seq<Obs>, bs: seq<Block>)
    returns (cs: seq<Block>)
    requires p.Valid() && q.Valid() && Stricter(strict, lax)
    requires q.Need() >= p.Need() && q.Gap() >= p.Gap() && Feasible(q, strict, bs)
    ensures Feasible(p, lax, cs) && |cs| == |bs|
    ensures forall k :: 0 <= k < |cs| ==> cs[k].s == bs[k].s && cs[k].e <= bs[k].e
  {
    if bs == [] {
      cs := [];
    } else {
      var k := |bs| - 1;
      FeasibleFront(q, strict, bs);
      BlockRelaxes(strict, lax, q.Need(), bs[k]);
      hide Feasible, IsBlock, Stricter;
      var front := bs[..k];
      cs := Relax(q, strict, p, lax, front);
      assert k > 0 ==> cs[k - 1].e <= bs[k - 1].e;
      var e := ShrinkBlock(lax, bs[k], q.Need(), p.Need());
      FeasibleSnoc(p, lax, cs, Block(bs[k].s, e));
      cs := cs + [Block(bs[k].s, e)];
    }
  }

  /** Raising the threshold, M or the refractory period never adds a detection. */
  lemma StricterNeverAdds(q: Policy, strict: seq<Obs>, p: Policy, lax: seq<Obs>)
    requires p.Valid() && q.Valid() && q.hop == p.hop
    requires Stricter(strict, lax) && q.needed >= p.needed && q.refr >= p.refr
    ensures Run(q, strict, |strict|).dets <= Run(p, lax, |lax|).dets
  {
    GapIsLeast(p);
    GapIsLeast(q);
    assert q.Gap() >= p.Gap();
    var bs := DetectionsAreOptimal(q, strict);
    var cs := Relax(q, strict, p, lax, bs);
    NoChoiceDoesBetter(p, lax, cs);
  }

  // ---------------------------------------------------------------- the code

  function Observe(hp: seq<nat>, s1: seq<real>, s2: seq<real>, go: seq<bool>, thr1: real, thr2: real): (obs: seq<Obs>)
    requires |s1| == |s2| == |hp| && forall i :: 0 <= i < |hp| ==> 1 <= hp[i] <= |go|
    ensures |obs| == |hp|
  {
    seq(|hp|, i requires 0 <= i < |hp| => Obs(go[hp[i] - 1], s1[i] >= thr1 && s2[i] >= thr2))
  }

  /** The number of detections counted over one prepared stream. */
  function Detections(p: Policy, obs: seq<Obs>): nat {
    Run(p, obs, |obs|).dets
  }

  function ObserveOne(hp: seq<nat>, scores: seq<real>, go: seq<bool>, threshold: real): (obs: seq<Obs>)
    requires |scores| == |hp| && forall i :: 0 <= i < |hp| ==> 1 <= hp[i] <= |go|
    ensures |obs| == |hp|
  {
    seq(|hp|, i requires 0 <= i < |hp| => Obs(go[hp[i] - 1], scores[i] >= threshold))
  }

  // ---------------------------------------------------------------- the optimum in terms of the inputs

  /** The frame before position i's end lies in open speech. */
  predicate GateOpen(hp: seq<nat>, go: seq<bool>, i: int) {
    0 <= i < |hp| && 1 <= hp[i] <= |go| && go[hp[i] - 1]
  }

  /** How many of the positions s .. n - 1 are gate-open. */
  function OpenPositions(hp: seq<nat>, go: seq<bool>, s: nat, n: nat): nat
    requires s <= n
  {
    |set i | s <= i < n && GateOpen(hp, go, i)|
  }

  /** Positions b.s .. b.e begin and end gate-open and hold `need` gate-open ones, each of which both stages score high enough. */
  ghost predicate ScoredBlock(hp: seq<nat>, s1: seq<real>, s2: seq<real>, go: seq<bool>, thr1: real, thr2: real, need: nat, b: Block)
    requires |s1| == |s2| == |hp|
  {
    && b.s <= b.e < |hp| && GateOpen(hp, go, b.s) && GateOpen(hp, go, b.e)
    && (forall i :: b.s <= i <= b.e && GateOpen(hp, go, i) ==> s1[i] >= thr1 && s2[i] >= thr2)
    && OpenPositions(hp, go, b.s, b.e + 1) == need
  }

  /** Such blocks for policy p, each starting at least a gap after the one before has ended. */
  ghost predicate ScoredChoice(p: Policy, hp: seq<nat>, s1: seq<real>, s2: seq<real>, go: seq<bool>, thr1: real, thr2: real, bs: seq<Block>)
    requires p.Valid() && |s1| == |s2| == |hp|
  {
    && (forall k :: 0 <= k < |bs| ==> ScoredBlock(hp, s1, s2, go, thr1, thr2, p.Need(), bs[k]))
    && (forall k :: 1 <= k < |bs| ==> bs[k].s >= bs[k - 1].e + p.Gap())
  }

  /** The same with one score. */
  ghost predicate BenchBlock(hp: seq<nat>, scores: seq<real>, go: seq<bool>, threshold: real, need: nat, b: Block)
    requires |scores| == |hp|
  {
    && b.s <= b.e < |hp| && GateOpen(hp, go, b.s) && GateOpen(hp, go, b.e)
    && (forall i :: b.s <= i <= b.e && GateOpen(hp, go, i) ==> scores[i] >= threshold)
    && OpenPositions(hp, go, b.s, b.e + 1) == need
  }

  ghost predicate BenchChoice(p: Policy, hp: seq<nat>, scores: seq<real>, go: seq<bool>, threshold: real, bs: seq<Block>)
    requires p.Valid() && |scores| == |hp|
  {
    && (forall k :: 0 <= k < |bs| ==> BenchBlock(hp, scores, go, threshold, p.Need(), bs[k]))
    && (forall k :: 1 <= k < |bs| ==> bs[k].s >= bs[k - 1].e + p.Gap())
  }

  /** obs sees the gate as it is. */
  ghost predicate SeesGate(hp: seq<nat>, go: seq<bool>, obs: seq<Obs>) {
    |obs| == |hp| && forall i :: 0 <= i < |hp| ==> obs[i].open == GateOpen(hp, go, i)
  }

  lemma {:induction false} OpenCountIs(hp: seq<nat>, go: seq<bool>, obs: seq<Obs>, s: nat, n: nat)
    requires SeesGate(hp, go, obs) && s <= n <= |hp|
    ensures OpenCount(obs, s, n) == OpenPositions(hp, go, s, n)
    decreases n - s
  {
    var now := set i | s <= i < n && GateOpen(hp, go, i);
    if s == n {
      assert now == {};
    } else {
      OpenCountIs(hp, go, obs, s, n - 1);
      var before := set i | s <= i < n - 1 && GateOpen(hp, go, i);
      assert now == if GateOpen(hp, go, n - 1) then before + {n - 1} else before;
    }
  }

  lemma ScoredBlockIs(hp: seq<nat>, s1: seq<real>, s2: seq<real>, go: seq<bool>, thr1: real, thr2: real, need: nat, b: Block)
    requires |s1| == |s2| == |hp| && forall i :: 0 <= i < |hp| ==> 1 <= hp[i] <= |go|
    ensures IsBlock(Observe(hp, s1, s2, go, thr1, thr2), need, b) <==> ScoredBlock(hp, s1, s2, go, thr1, thr2, need, b)
  {
    var obs := Observe(hp, s1, s2, go, thr1, thr2);
    assert SeesGate(hp, go, obs);
    if b.s <= b.e < |hp| { OpenCountIs(hp, go, obs, b.s, b.e + 1); }
    hide OpenCount, OpenPositions, SeesGate;
  }

  lemma BenchBlockIs(hp: seq<nat>, scores: seq<real>, go: seq<bool>, threshold: real, need: nat, b: Block)
    requires |scores| == |hp| && forall i :: 0 <= i < |hp| ==> 1 <= hp[i] <= |go|
    ensures IsBlock(ObserveOne(hp, scores, go, threshold), need, b) <==> BenchBlock(hp, scores, go, threshold, need, b)
  {
    var obs := ObserveOne(hp, scores, go, threshold);
    assert SeesGate(hp, go, obs);
    if b.s <= b.e < |hp| { OpenCountIs(hp, go, obs, b.s, b.e + 1); }
    hide OpenCount, OpenPositions, SeesGate;
  }

  lemma ScoredChoiceIs(p: Policy, hp: seq<nat>, s1: seq<real>, s2: seq<real>, go: seq<bool>, thr1: real, thr2: real, bs: seq<Block>)
    requires p.Valid() && |s1| == |s2| == |hp| && forall i :: 0 <= i < |hp| ==> 1 <= hp[i] <= |go|
    ensures Feasible(p, Observe(hp, s1, s2, go, thr1, thr2), bs) <==> ScoredChoice(p, hp, s1, s2, go, thr1, thr2, bs)
  {
    hide IsBlock, ScoredBlock, Observe;
    forall k | 0 <= k < |bs|
      ensures IsBlock(Observe(hp, s1, s2, go, thr1, thr2), p.Need(), bs[k])
         <==> ScoredBlock(hp, s1, s2, go, thr1, thr2, p.Need(), bs[k])
    {
      ScoredBlockIs(hp, s1, s2, go, thr1, thr2, p.Need(), bs[k]);
    }
  }

  lemma BenchChoiceIs(p: Policy, hp: seq<nat>, scores: seq<real>, go: seq<bool>, threshold: real, bs: seq<Block>)
    requires p.Valid() && |scores| == |hp| && forall i :: 0 <= i < |hp| ==> 1 <= hp[i] <= |go|
    ensures Feasible(p, ObserveOne(hp, scores, go, threshold), bs) <==> BenchChoice(p, hp, scores, go, threshold, bs)
  {
    hide IsBlock, BenchBlock, ObserveOne;
    forall k | 0 <= k < |bs|
      ensures IsBlock(ObserveOne(hp, scores, go, threshold), p.Need(), bs[k])
         <==> BenchBlock(hp, scores, go, threshold, p.Need(), bs[k])
    {
      BenchBlockIs(hp, scores, go, threshold, p.Need(), bs[k]);
    }
  }

  /** The count is the largest number of such blocks. */
  lemma ScoredOptimum(p: Policy, hp: seq<nat>, s1: seq<real>, s2: seq<real>, go: seq<bool>, thr1: real, thr2: real)
    requires p.Valid() && |s1| == |s2| == |hp| && forall i :: 0 <= i < |hp| ==> 1 <= hp[i] <= |go|
    ensures var dets := Detections(p, Observe(hp, s1, s2, go, thr1, thr2));
            && (exists bs :: ScoredChoice(p, hp, s1, s2, go, thr1, thr2, bs) && |bs| == dets)
            && (forall bs :: ScoredChoice(p, hp, s1, s2, go, thr1, thr2, bs) ==> |bs| <= dets)
  {
    var obs := Observe(hp, s1, s2, go, thr1, thr2);
    var best := DetectionsAreOptimal(p, obs);
    hide Feasible, ScoredChoice, Run, Observe;
    forall bs
      ensures Feasible(p, obs, bs) <==> ScoredChoice(p, hp, s1, s2, go, thr1, thr2, bs)
    {
      ScoredChoiceIs(p, hp, s1, s2, go, thr1, thr2, bs);
    }
    assert ScoredChoice(p, hp, s1, s2, go, thr1, thr2, best);
  }

  lemma BenchOptimum(p: Policy, hp: seq<nat>, scores: seq<real>, go: seq<bool>, threshold: real)
    requires p.Valid() && |scores| == |hp| && forall i :: 0 <= i < |hp| ==> 1 <= hp[i] <= |go|
    ensures var dets := Detections(p, ObserveOne(hp, scores, go, threshold));
            && (exists bs :: BenchChoice(p, hp, scores, go, threshold, bs) && |bs| == dets)
            && (forall bs :: BenchChoice(p, hp, scores, go, threshold, bs) ==> |bs| <= dets)
  {
    var obs := ObserveOne(hp, scores, go, threshold);
    var best := DetectionsAreOptimal(p, obs);
    hide Feasible, BenchChoice, Run, ObserveOne;
    forall bs
      ensures Feasible(p, obs, bs) <==> BenchChoice(p, hp, scores, go, threshold, bs)
    {
      BenchChoiceIs(p, hp, scores, go, threshold, bs);
    }
    assert BenchChoice(p, hp, scores, go, threshold, best);
  }

  // ---------------------------------------------------------------- the two loops

  /** bench_kws.py `decide`: one score per position, the gate and the counter tested in turn. */
  method BenchDecide(hp: seq<nat>, marv: seq<real>, go: seq<bool>, threshold: real,
                     hopFrames: int, consecNeeded: int, refractoryFrames: int)
    returns (dets: nat)
    requires |marv| == |hp| && hopFrames >= 1
    requires forall i :: 0 <= i < |hp| ==> 1 <= hp[i] <= |go|
    ensures dets == Detections(Policy(consecNeeded, refractoryFrames, hopFrames), ObserveOne(hp, marv, go, threshold))
    ensures var p := Policy(consecNeeded, refractoryFrames, hopFrames);
            && (exists bs :: BenchChoice(p, hp, marv, go, threshold, bs) && |bs| == dets)
            && (forall bs :: BenchChoice(p, hp, marv, go, threshold, bs) ==> |bs| <= dets)
  {
    hide BenchChoice;
    BenchOptimum(Policy(consecNeeded, refractoryFrames, hopFrames), hp, marv, go, threshold);
    ghost var p, obs := Policy(consecNeeded, refractoryFrames, hopFrames), ObserveOne(hp, marv, go, threshold);
    var consec: nat, refr := 0, 0;
    dets := 0;
    for i := 0 to |hp|
      invariant Counters(consec, refr, dets) == Run(p, obs, i)
    {
      if refr > 0 {
        refr := refr - hopFrames;
      }
      if !go[hp[i] - 1] {
        continue;
      }
      if refr > 0 {
        continue;
      }
      if marv[i] >= threshold {
        consec := consec + 1;
        if consec >= consecNeeded {
          consec := 0;
          refr := refractoryFrames;
          dets := dets + 1;
        }
      } else {
        consec := 0;
      }
    }
  }

  /** evaluate.py `_decide`, with the module constants HOP and REFR as parameters. */
  method Decide(hp: seq<nat>, s1: seq<real>, s2: seq<real>, go: seq<bool>,
                thr1: real, thr2: real, M: int, hop: int, refr: int)
    returns (dets: nat)
    requires |s1| == |s2| == |hp| && hop >= 1
    requires forall i :: 0 <= i < |hp| ==> 1 <= hp[i] <= |go|
    ensures dets == Detections(Policy(M, refr, hop), Observe(hp, s1, s2, go, thr1, thr2))
    ensures var p := Policy(M, refr, hop);
            && (exists bs :: ScoredChoice(p, hp, s1, s2, go, thr1, thr2, bs) && |bs| == dets)
            && (forall bs :: ScoredChoice(p, hp, s1, s2, go, thr1, thr2, bs) ==> |bs| <= dets)
  {
    hide ScoredChoice;
    ScoredOptimum(Policy(M, refr, hop), hp, s1, s2, go, thr1, thr2);
    ghost var p, obs := Policy(M, refr, hop), Observe(hp, s1, s2, go, thr1, thr2);
    var consec: nat, r := 0, 0;
    dets := 0;
    for i := 0 to |hp|
      invariant Counters(consec, r, dets) == Run(p, obs, i)
    {
      var t := hp[i];
      if r > 0 {
        r := r - hop;
      }
      if !go[t - 1] || r > 0 {
        continue;
      }
      if s1[i] >= thr1 && s2[i] >= thr2 {
        consec := consec + 1;
        if consec >= M {
          consec, r, dets := 0, refr, dets + 1;
        }
      } else {
        consec := 0;
      }
    }
  }

  /** Number of clips on which nothing fires; FRR is this over the number of clips. */
  function Misses(p: Policy, clips: seq<seq<Obs>>): nat {
    if clips == [] then 0
    else (if Detections(p, clips[0]) == 0 then 1 else 0) + Misses(p, clips[1..])
  }

  /** Down the sweep false accepts can only fall and false rejects can only rise. */
  lemma {:induction false} SweepTradesOff(q: Policy, p: Policy, neg': seq<Obs>, neg: seq<Obs>,
                                          clips': seq<seq<Obs>>, clips: seq<seq<Obs>>)
    requires p.Valid() && q.Valid() && q.hop == p.hop && q.needed >= p.needed && q.refr >= p.refr
    requires Stricter(neg', neg) && |clips'| == |clips|
    requires forall i :: 0 <= i < |clips| ==> Stricter(clips'[i], clips[i])
    ensures Detections(q, neg') <= Detections(p, neg)
    ensures Misses(q, clips') >= Misses(p, clips)
  {
    StricterNeverAdds(q, neg', p, neg);
    if clips != [] {
      StricterNeverAdds(q, clips'[0], p, clips[0]);
      SweepTradesOff(q, p, neg', neg, clips'[1..], clips[1..]);
    }
  }

  /** Higher thresholds make a stricter observation of the same scores. */
  lemma ThresholdsAreStricter(hp: seq<nat>, s1: seq<real>, s2: seq<real>, go: seq<bool>,
                              thr1: real, thr2: real, thr1': real, thr2': real)
    requires |s1| == |s2| == |hp| && forall i :: 0 <= i < |hp| ==> 1 <= hp[i] <= |go|
    requires thr1 <= thr1' && thr2 <= thr2'
    ensures Stricter(Observe(hp, s1, s2, go, thr1', thr2'), Observe(hp, s1, s2, go, thr1, thr2))
  {
  }
}
