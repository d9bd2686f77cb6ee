/**
 The detection cascade of core/detect/Stage1Detector.cpp: a state machine, a sliding window of
 feature rows, a count of consecutive positive windows and a refractory counter. What the backends
 answer is part of each frame: a score, or None for a failed inference.
*/
module Stage1Detection {
  import opened Ids
  import opened Wrappers

  datatype Cascade = Idle | VadTriggered | Stage1Running | Stage2Running | DetectionConfirmed

  datatype Trigger = VadOpened | VadClosed | Stage1Started | Stage1Fired | Stage1Rejected | Stage2Fired | Stage2Rejected

  type Row = seq<real>

  type Backend = seq<Row> -> Option<real>

  /** stage1 and stage2: how the backends answer if they are asked while this frame is handled. */
  datatype Frame = Frame(mel: Row, speech: bool, timestamp: nat, stage1: Backend, stage2: Backend)

  datatype Event = Event(id: CorrelationId, confidence: real, timestamp: nat)

  /** idHigh: the constant upper half of every id. stage2Active: there is a verifier and it is enabled. */
  datatype Config = Config(
    windowFrames: nat, hopFrames: int, refractoryFrames: int, consecutiveWindows: int,
    threshold: real, stage2Active: bool, stage2Threshold: real, idHigh: nat, silence: Row)
  {
    predicate Valid() { windowFrames >= 1 && idHigh != 0 }

    function Needed(): nat {
      if consecutiveWindows > 0 then consecutiveWindows else 1
    }
  }

  datatype State = State(
    fsm: Cascade, window: seq<Row>, filled: nat, sinceInfer: int, refractory: int, consecutive: nat,
    prevSpeech: bool, currentId: CorrelationId, idCounter: nat, lastScore: real, lastTimestamp: nat)

  function Transition(s: Cascade, e: Trigger): Cascade {
    match s
    case Idle => if e == VadOpened then VadTriggered else s
    case VadTriggered => if e == Stage1Started then Stage1Running else if e == VadClosed then Idle else s
    case Stage1Running =>
      if e == Stage1Fired then Stage2Running else if e == Stage1Rejected then VadTriggered
      else if e == VadClosed then Idle else s
    case Stage2Running =>
      if e == Stage2Fired then DetectionConfirmed else if e == Stage2Rejected then VadTriggered
      else if e == VadClosed then Idle else s
    case DetectionConfirmed => if e == VadClosed then Idle else if e == VadOpened then VadTriggered else s
  }

  // ---------------------------------------------------------------- one frame

  function Initial(cfg: Config): State {
    State(Idle, seq(cfg.windowFrames, _ => cfg.silence), 0, 0, 0, 0, false, NO_ID, 0, 0.0, 0)
  }

  /** Fill from the front, then shift. */
  function Appended(cfg: Config, s: State, row: Row): State
    requires cfg.Valid() && |s.window| == cfg.windowFrames
  {
    if s.filled < cfg.windowFrames then s.(window := s.window[s.filled := row], filled := s.filled + 1)
    else s.(window := s.window[1..] + [row])
  }

  /** The VAD edges. Only an opening edge from rest mints an id. */
  function Edged(cfg: Config, s: State, speech: bool): State {
    if speech && !s.prevSpeech then
      var m := if s.fsm == Idle || s.fsm == DetectionConfirmed
               then s.(idCounter := s.idCounter + 1, currentId := CorrelationId(cfg.idHigh, s.idCounter + 1), fsm := Transition(s.fsm, VadOpened))
               else s;
      m.(sinceInfer := cfg.hopFrames)
    else if !speech && s.prevSpeech then s.(fsm := Transition(s.fsm, VadClosed))
    else s
  }

  /** Everything that happens before the decision to infer. */
  function Arrived(cfg: Config, s: State, f: Frame): State
    requires cfg.Valid() && |s.window| == cfg.windowFrames
  {
    var t := s.(refractory := if s.refractory > 0 then s.refractory - 1 else s.refractory);
    var e := Edged(cfg, Appended(cfg, t, f.mel), f.speech);
    e.(prevSpeech := f.speech, sinceInfer := e.sinceInfer + 1)
  }

  predicate Ready(cfg: Config, s: State, speech: bool) {
    && speech && (s.fsm == VadTriggered || s.fsm == Stage1Running)
    && s.refractory == 0 && s.filled >= cfg.windowFrames && s.sinceInfer >= cfg.hopFrames
  }

  function Confirmed(cfg: Config, s: State, timestamp: nat, confidence: real): (State, Option<Event>) {
    (s.(fsm := Transition(s.fsm, Stage2Fired), refractory := cfg.refractoryFrames),
     Some(Event(s.currentId, confidence, timestamp)))
  }

  /** runStage2: without an active verifier it passes through; a failed inference rejects. */
  function Verified(cfg: Config, s: State, f: Frame): (State, Option<Event>) {
    if !cfg.stage2Active then Confirmed(cfg, s, f.timestamp, s.lastScore)
    else
      match f.stage2(s.window)
      case Some(score) =>
        if score >= cfg.stage2Threshold then Confirmed(cfg, s, f.timestamp, score)
        else (s.(fsm := Transition(s.fsm, Stage2Rejected)), None)
      case None => (s.(fsm := Transition(s.fsm, Stage2Rejected)), None)
  }

  /** runStage1 and the clearing of the hop counter just before it. A failed inference leaves the count alone; a low score clears it. */
  function Inferred(cfg: Config, s: State, f: Frame): (State, Option<Event>) {
    var started := s.(sinceInfer := 0, fsm := Transition(s.fsm, Stage1Started));
    match f.stage1(s.window)
    case None => (started.(fsm := Transition(started.fsm, Stage1Rejected)), None)
    case Some(score) =>
      var scored := started.(lastScore := score, lastTimestamp := f.timestamp);
      if score < cfg.threshold then (scored.(consecutive := 0, fsm := Transition(scored.fsm, Stage1Rejected)), None)
      else if s.consecutive + 1 >= cfg.Needed() then
        Verified(cfg, scored.(consecutive := 0, fsm := Transition(scored.fsm, Stage1Fired)), f)
      else (scored.(consecutive := s.consecutive + 1, fsm := Transition(scored.fsm, Stage1Rejected)), None)
  }

  function Pushed(cfg: Config, s: State, f: Frame): (State, Option<Event>)
    requires cfg.Valid() && |s.window| == cfg.windowFrames
  {
    var a := Arrived(cfg, s, f);
    if Ready(cfg, a, f.speech) then Inferred(cfg, a, f) else (a, None)
  }

  /** reset() keeps the id counter and the last timestamp. */
  function Cleared(cfg: Config, s: State): State {
    Initial(cfg).(idCounter := s.idCounter, lastTimestamp := s.lastTimestamp)
  }

  // ---------------------------------------------------------------- the class

  class Stage1Detector {
    const cfg: Config
    const window: array<Row>
    var fsm: Cascade
    var filled: nat
    var sinceInfer: int
    var refractory: int
    var consecutive: nat
    var prevSpeech: bool
    var currentId: CorrelationId
    var idCounter: nat
    var lastScore: real
    var lastTimestamp: nat

    ghost predicate Valid() {
      cfg.Valid() && window.Length == cfg.windowFrames
    }

    ghost function Now(): State
      reads this, window
    {
      State(fsm, window[..], filled, sinceInfer, refractory, consecutive, prevSpeech, currentId, idCounter, lastScore, lastTimestamp)
    }

    constructor (cfg: Config)
      requires cfg.Valid()
      ensures Valid() && this.cfg == cfg && fresh(window) && Now() == Initial(cfg)
    {
      this.cfg := cfg;
      window := new Row[cfg.windowFrames](_ => cfg.silence);
      fsm, filled, sinceInfer, refractory, consecutive, prevSpeech := Idle, 0, 0, 0, 0, false;
      currentId, idCounter, lastScore, lastTimestamp := NO_ID, 0, 0.0, 0;
    }

    method Dispatch(e: Trigger)
      modifies this`fsm
      ensures fsm == Transition(old(fsm), e)
    {
      fsm := Transition(fsm, e);
    }

    method AppendRow(row: Row)
      requires Valid()
      modifies this`filled, window
      ensures Now() == Appended(cfg, old(Now()), row)
    {
      if filled < cfg.windowFrames {
        window[filled] := row;
        filled := filled + 1;
      } else {
        ghost var was := window[..];
        forall i | 0 <= i < window.Length - 1 {
          window[i] := window[i + 1];
        }
        window[window.Length - 1] := row;
        assert window[..] == was[1..] + [row];
      }
    }

    /** The VAD-edge part of pushFeature. */
    method TakeEdge(speech: bool)
      modifies this`idCounter, this`currentId, this`fsm, this`sinceInfer
      ensures Now() == Edged(cfg, old(Now()), speech)
    {
      if speech && !prevSpeech {
        if fsm == Idle || fsm == DetectionConfirmed {
          idCounter := idCounter + 1;
          currentId := CorrelationId(cfg.idHigh, idCounter);
          Dispatch(VadOpened);
        }
        sinceInfer := cfg.hopFrames;
      } else if !speech && prevSpeech {
        Dispatch(VadClosed);
      }
    }

    method PushFeature(f: Frame) returns (event: Option<Event>)
      requires Valid()
      modifies this, window
      ensures (Now(), event) == Pushed(cfg, old(Now()), f)
    {
      hide Edged, Appended, Inferred, Transition;
      event := None;
      ghost var s := Now();
      if refractory > 0 {
        refractory := refractory - 1;
      }
      ghost var t := Now();
      AppendRow(f.mel);
      ghost var u := Now();
      TakeEdge(f.speech);
      ghost var e := Now();
      prevSpeech := f.speech;
      sinceInfer := sinceInfer + 1;
      ghost var a := Now();
      assert a == Arrived(cfg, s, f) by {
        assert t == s.(refractory := if s.refractory > 0 then s.refractory - 1 else s.refractory);
        assert u == Appended(cfg, t, f.mel) && e == Edged(cfg, u, f.speech);
        assert a == e.(prevSpeech := f.speech, sinceInfer := e.sinceInfer + 1);
      }
      hide Arrived;
      var armed := fsm == VadTriggered || fsm == Stage1Running;
      if f.speech && armed && refractory == 0 && filled >= cfg.windowFrames && sinceInfer >= cfg.hopFrames {
        event := RunStage1(f);
      }
    }

    method RunStage1(f: Frame) returns (event: Option<Event>)
      requires Valid()
      modifies this
      ensures (Now(), event) == Inferred(cfg, old(Now()), f)
    {
      event := None;
      sinceInfer := 0;
      Dispatch(Stage1Started);
      var out := f.stage1(window[..]);
      if out.None? {
        Dispatch(Stage1Rejected);
        return;
      }
      lastScore := out.value;
      lastTimestamp := f.timestamp;
      var needed := if cfg.consecutiveWindows > 0 then cfg.consecutiveWindows else 1;
      if lastScore >= cfg.threshold {
        consecutive := consecutive + 1;
        if consecutive >= needed {
          consecutive := 0;
          Dispatch(Stage1Fired);
          event := RunStage2(f);
        } else {
          Dispatch(Stage1Rejected);
        }
      } else {
        consecutive := 0;
        Dispatch(Stage1Rejected);
      }
    }

    method RunStage2(f: Frame) returns (event: Option<Event>)
      requires Valid()
      modifies this
      ensures (Now(), event) == Verified(cfg, old(Now()), f)
    {
      event := None;
      if !cfg.stage2Active {
        Dispatch(Stage2Fired);
        event := Confirm(f.timestamp, lastScore);
        return;
      }
      var out := f.stage2(window[..]);
      if out.None? {
        Dispatch(Stage2Rejected);
        return;
      }
      if out.value >= cfg.stage2Threshold {
        Dispatch(Stage2Fired);
        event := Confirm(f.timestamp, out.value);
      } else {
        Dispatch(Stage2Rejected);
      }
    }

    method Confirm(timestamp: nat, confidence: real) returns (event: Option<Event>)
      modifies this`refractory
      ensures refractory == cfg.refractoryFrames && event == Some(Event(currentId, confidence, timestamp))
    {
      refractory := cfg.refractoryFrames;
      event := Some(Event(currentId, confidence, timestamp));
    }

    method Reset()
      requires Valid()
      modifies this, window
      ensures Now() == Cleared(cfg, old(Now()))
    {
      forall i | 0 <= i < window.Length {
        window[i] := cfg.silence;
      }
      filled, sinceInfer, refractory, consecutive := 0, 0, 0, 0;
      prevSpeech, currentId, lastScore := false, NO_ID, 0.0;
      while fsm != Idle
        invariant forall i :: 0 <= i < window.Length ==> window[i] == cfg.silence
        invariant filled == 0 && sinceInfer == 0 && refractory == 0 && consecutive == 0
        invariant !prevSpeech && currentId == NO_ID && lastScore == 0.0
        invariant idCounter == old(idCounter) && lastTimestamp == old(lastTimestamp)
        decreases fsm != Idle
      {
        Dispatch(VadClosed);
      }
    }
  }
}
