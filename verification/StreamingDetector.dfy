/**
 core/detect/StreamingDetector.cpp: one score per frame, M consecutive positive frames fire, a
 refractory countdown suppresses. The scorer's output is a parameter of each push; `calibrate`
 stands for the confidence map applied to it.
*/
module StreamingDetection {
  import opened GreedyDecision
  import opened Ids
  import opened Wrappers

  datatype Config = Config(threshold: real, consecutive: int, refractoryFrames: int, wakeWordIndex: nat)

  /** OR-ed with the wake-word index (a sum below 2^17) it is the upper half of every id. */
  const ID_TAG := 0x5DDA0000

  datatype Event = Event(id: CorrelationId, confidence: real, timestamp: nat)

  datatype State = State(consecutive: int, refractory: int, currentId: CorrelationId, idCounter: nat, lastScore: real)

  const INIT := State(0, 0, NO_ID, 0, 0.0)

  function Pushed(cfg: Config, s: State, score: real, ts: nat): (State, Option<Event>) {
    var s1 := s.(lastScore := score);
    if s.refractory > 0 then
      (s1.(refractory := s.refractory - 1, consecutive := 0), None)
    else if score < cfg.threshold then
      (s1.(consecutive := 0), None)
    else
      var s2 := if s.consecutive == 0
                then s1.(idCounter := s.idCounter + 1, currentId := CorrelationId(ID_TAG + cfg.wakeWordIndex, s.idCounter + 1))
                else s1;
      if s.consecutive + 1 >= (if cfg.consecutive > 0 then cfg.consecutive else 1) then
        (s2.(consecutive := 0, refractory := cfg.refractoryFrames), Some(Event(s2.currentId, score, ts)))
      else
        (s2.(consecutive := s.consecutive + 1), None)
  }

  function Resetted(s: State): State {
    INIT.(idCounter := s.idCounter)
  }

  class StreamingDetector {
    const cfg: Config
    const calibrate: real -> real
    var consecutive: int
    var refractory: int
    var currentId: CorrelationId
    var idCounter: nat
    var lastScore: real

    ghost function Abs(): State
      reads this
    {
      State(consecutive, refractory, currentId, idCounter, lastScore)
    }

    constructor (cfg: Config, calibrate: real -> real)
      ensures this.cfg == cfg && this.calibrate == calibrate && Abs() == INIT
    {
      this.cfg, this.calibrate := cfg, calibrate;
      consecutive, refractory, currentId, idCounter, lastScore := 0, 0, NO_ID, 0, 0.0;
    }

    method MintCorrelationId() returns (id: CorrelationId)
      modifies this`idCounter
      ensures idCounter == old(idCounter) + 1 && id == CorrelationId(ID_TAG + cfg.wakeWordIndex, idCounter)
    {
      idCounter := idCounter + 1;
      id := CorrelationId(ID_TAG + cfg.wakeWordIndex, idCounter);
    }

    method Fire(ts: nat, confidence: real) returns (ev: Event)
      modifies this`refractory
      ensures refractory == cfg.refractoryFrames && ev == Event(currentId, confidence, ts)
    {
      refractory := cfg.refractoryFrames;
      ev := Event(currentId, confidence, ts);
    }

    method PushFrame(raw: real, ts: nat) returns (ev: Option<Event>)
      modifies this
      ensures (Abs(), ev) == Pushed(cfg, old(Abs()), calibrate(raw), ts)
    {
      ev := None;
      var score := calibrate(raw);
      lastScore := score;
      if refractory > 0 {
        refractory := refractory - 1;
        consecutive := 0;
        return;
      }
      var needed := if cfg.consecutive > 0 then cfg.consecutive else 1;
      if score >= cfg.threshold {
        if consecutive == 0 {
          currentId := MintCorrelationId();
        }
        consecutive := consecutive + 1;
        if consecutive >= needed {
          consecutive := 0;
          var fired := Fire(ts, score);
          ev := Some(fired);
        }
      } else {
        consecutive := 0;
      }
    }

    method Reset()
      modifies this
      ensures Abs() == Resetted(old(Abs()))
    {
      consecutive, refractory, currentId, lastScore := 0, 0, NO_ID, 0.0;
    }
  }

  // ---------------------------------------------------------------- runs

  datatype Input = Frame(score: real, ts: nat) | Reset

  function Next(cfg: Config, s: State, i: Input): (State, Option<Event>) {
    match i
    case Frame(score, ts) => Pushed(cfg, s, score, ts)
    case Reset => (Resetted(s), None)
  }

  function After(cfg: Config, s: State, inputs: seq<Input>): State {
    if inputs == [] then s
    else Next(cfg, After(cfg, s, inputs[..|inputs| - 1]), inputs[|inputs| - 1]).0
  }

  /** The events emitted so far, in order. */
  function Events(cfg: Config, s: State, inputs: seq<Input>): seq<Event> {
    if inputs == [] then []
    else
      var front := inputs[..|inputs| - 1];
      var ev := Next(cfg, After(cfg, s, front), inputs[|inputs| - 1]).1;
      Events(cfg, s, front) + (if ev.Some? then [ev.value] else [])
  }

  /** Every frame is an open observation; it hits when the score reaches the threshold. */
  function Observed(cfg: Config, scores: seq<real>): (obs: seq<Obs>)
    ensures |obs| == |scores|
  {
    seq(|scores|, i requires 0 <= i < |scores| => Obs(true, scores[i] >= cfg.threshold))
  }

  /** The greedy policy it follows: stride one, and a refractory gap one frame longer. */
  function PolicyOf(cfg: Config): Policy {
    Policy(cfg.consecutive, cfg.refractoryFrames + 1, 1)
  }

  function Frames(scores: seq<real>, ts: seq<nat>): (f: seq<Input>)
    requires |scores| == |ts|
    ensures |f| == |scores|
  {
    seq(|scores|, i requires 0 <= i < |scores| => Frame(scores[i], ts[i]))
  }

  /** The countdown and the greedy policy's counter stay in step, whatever state they start from. */
  lemma {:induction false} FollowsGreedyPolicy(cfg: Config, s: State, scores: seq<real>, ts: seq<nat>, n: nat)
    requires |scores| == |ts| && n <= |scores| && s.consecutive == 0 && s.refractory == 0
    ensures var c, a := Run(PolicyOf(cfg), Observed(cfg, scores), n), After(cfg, s, Frames(scores, ts)[..n]);
            && a.consecutive == c.consec
            && |Events(cfg, s, Frames(scores, ts)[..n])| == c.dets
            && (if a.refractory > 0 then c.r == a.refractory + 1 && c.consec == 0 else c.r <= 1)
  {
    if n > 0 {
      FollowsGreedyPolicy(cfg, s, scores, ts, n - 1);
      assert Frames(scores, ts)[..n][..n - 1] == Frames(scores, ts)[..n - 1];
    }
  }

  /**
   From construction or a reset, the number of events is the largest possible number of runs of M
   positive frames that are more than refractoryFrames apart.
  */
  lemma StreamingIsOptimal(cfg: Config, s: State, scores: seq<real>, ts: seq<nat>) returns (best: seq<Block>)
    requires |scores| == |ts| && s.consecutive == 0 && s.refractory == 0
    ensures Feasible(PolicyOf(cfg), Observed(cfg, scores), best)
    ensures |Events(cfg, s, Frames(scores, ts))| == |best|
    ensures forall bs :: Feasible(PolicyOf(cfg), Observed(cfg, scores), bs) ==> |bs| <= |best|
  {
    FollowsGreedyPolicy(cfg, s, scores, ts, |scores|);
    assert Frames(scores, ts)[..|scores|] == Frames(scores, ts);
    best := DetectionsAreOptimal(PolicyOf(cfg), Observed(cfg, scores));
  }

  /** Frame n emits an event. */
  ghost predicate EmitsAt(cfg: Config, s: State, inputs: seq<Input>, n: nat) {
    n < |inputs| && Next(cfg, After(cfg, s, inputs[..n]), inputs[n]).1.Some?
  }

  /** Two successive events are at least refractoryFrames + max(1, M) frames apart. */
  lemma EventsAreSpread(cfg: Config, s: State, scores: seq<real>, ts: seq<nat>, d: nat, e: nat)
    requires |scores| == |ts| && s.consecutive == 0 && s.refractory == 0
    requires d < e && EmitsAt(cfg, s, Frames(scores, ts), d) && EmitsAt(cfg, s, Frames(scores, ts), e)
    requires forall n :: d < n < e ==> !EmitsAt(cfg, s, Frames(scores, ts), n)
    ensures e - d >= cfg.refractoryFrames + cfg.consecutive && e - d >= cfg.refractoryFrames + 1 && e - d >= cfg.consecutive
  {
    var p, obs := PolicyOf(cfg), Observed(cfg, scores);
    EmissionIsDetection(cfg, s, scores, ts, d);
    EmissionIsDetection(cfg, s, scores, ts, e);
    QuietBetween(cfg, s, scores, ts, d + 1, e);
    DetectionsAreSpread(p, obs, d, e, Run(p, obs, d).dets);
    GapIsLeast(p);
  }

  lemma EmissionIsDetection(cfg: Config, s: State, scores: seq<real>, ts: seq<nat>, n: nat)
    requires |scores| == |ts| && n < |scores| && s.consecutive == 0 && s.refractory == 0
    ensures var p, obs := PolicyOf(cfg), Observed(cfg, scores);
            Run(p, obs, n + 1).dets == Run(p, obs, n).dets + (if EmitsAt(cfg, s, Frames(scores, ts), n) then 1 else 0)
  {
    FollowsGreedyPolicy(cfg, s, scores, ts, n);
    FollowsGreedyPolicy(cfg, s, scores, ts, n + 1);
    assert Frames(scores, ts)[..n + 1][..n] == Frames(scores, ts)[..n];
  }

  lemma {:induction false} QuietBetween(cfg: Config, s: State, scores: seq<real>, ts: seq<nat>, a: nat, e: nat)
    requires |scores| == |ts| && a <= e <= |scores| && s.consecutive == 0 && s.refractory == 0
    requires forall n :: a <= n < e ==> !EmitsAt(cfg, s, Frames(scores, ts), n)
    ensures var p, obs := PolicyOf(cfg), Observed(cfg, scores); Run(p, obs, e).dets == Run(p, obs, a).dets
  {
    if a < e {
      QuietBetween(cfg, s, scores, ts, a, e - 1);
      EmissionIsDetection(cfg, s, scores, ts, e - 1);
    }
  }

  // ---------------------------------------------------------------- correlation ids

  /** Ids carry the detector's tag, are valid, and strictly increase up to below `bound`. */
  ghost predicate Increasing(tag: nat, evs: seq<Event>, bound: nat) {
    && (forall k :: 0 <= k < |evs| ==> evs[k].id.Valid() && evs[k].id.hi == tag && evs[k].id.lo < bound)
    && (forall j, k :: 0 <= j < k < |evs| ==> evs[j].id.lo < evs[k].id.lo)
  }

  lemma Extend(tag: nat, evs: seq<Event>, ev: Event)
    requires Increasing(tag, evs, ev.id.lo) && ev.id.hi == tag && ev.id.Valid()
    ensures Increasing(tag, evs + [ev], ev.id.lo + 1)
  {
  }

  /** A streak in progress holds the newest id, which no event carries yet. */
  ghost predicate IdsOk(cfg: Config, s: State, evs: seq<Event>) {
    var tag := ID_TAG + cfg.wakeWordIndex;
    if s.consecutive == 0 then Increasing(tag, evs, s.idCounter + 1)
    else s.consecutive > 0 && s.currentId == CorrelationId(tag, s.idCounter) && Increasing(tag, evs, s.idCounter)
  }

  /** Over any frames and resets, event ids are valid and strictly increasing. */
  lemma {:induction false} IdsStrictlyIncrease(cfg: Config, inputs: seq<Input>)
    ensures IdsOk(cfg, After(cfg, INIT, inputs), Events(cfg, INIT, inputs))
  {
    if inputs != [] {
      var front := inputs[..|inputs| - 1];
      IdsStrictlyIncrease(cfg, front);
      IdsStep(cfg, After(cfg, INIT, front), Events(cfg, INIT, front), inputs[|inputs| - 1]);
    }
  }

  lemma IdsStep(cfg: Config, s: State, evs: seq<Event>, i: Input)
    requires IdsOk(cfg, s, evs)
    ensures var (s', ev) := Next(cfg, s, i); IdsOk(cfg, s', evs + if ev.Some? then [ev.value] else [])
  {
    hide Increasing;
    var (s', ev) := Next(cfg, s, i);
    var tag := ID_TAG + cfg.wakeWordIndex;
    assert evs + [] == evs;
    Loosen(tag, evs, s.idCounter);
    if ev.Some? {
      assert ev.value.id == CorrelationId(tag, s'.idCounter);
      Extend(tag, evs, ev.value);
    }
  }

  lemma Loosen(tag: nat, evs: seq<Event>, bound: nat)
    ensures Increasing(tag, evs, bound) ==> Increasing(tag, evs, bound + 1)
  {
  }
}
