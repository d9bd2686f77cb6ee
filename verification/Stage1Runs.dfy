/**
 Properties of Stage1Detector over whole runs: any sequence of frames and resets, with backends that
 may answer differently every time they are asked.
*/
module Stage1Runs {
  import opened Ids
  import opened Stage1Detection
  import opened Wrappers

  datatype Input = Push(frame: Frame) | Reset

  function Next(cfg: Config, s: State, i: Input): (r: (State, Option<Event>))
    requires cfg.Valid() && |s.window| == cfg.windowFrames
    ensures |r.0.window| == cfg.windowFrames
  {
    match i
    case Push(f) => Pushed(cfg, s, f)
    case Reset => (Cleared(cfg, s), None)
  }

  /** The detector after these inputs. */
  function After(cfg: Config, inputs: seq<Input>): (s: State)
    requires cfg.Valid()
    ensures |s.window| == cfg.windowFrames
    decreases |inputs|
  {
    if inputs == [] then Initial(cfg) else Next(cfg, After(cfg, inputs[..|inputs| - 1]), inputs[|inputs| - 1]).0
  }

  /** What input i emits. */
  function Emitted(cfg: Config, inputs: seq<Input>, i: nat): Option<Event>
    requires cfg.Valid() && i < |inputs|
  {
    Next(cfg, After(cfg, inputs[..i]), inputs[i]).1
  }

  lemma AfterStep(cfg: Config, inputs: seq<Input>, i: nat)
    requires cfg.Valid() && i < |inputs|
    ensures After(cfg, inputs[..i + 1]) == Next(cfg, After(cfg, inputs[..i]), inputs[i]).0
  {
    assert inputs[..i + 1][..i] == inputs[..i];
  }

  /** Input i is a frame flagged as speech. */
  predicate Speech(inputs: seq<Input>, i: int) {
    0 <= i < |inputs| && inputs[i].Push? && inputs[i].frame.speech
  }

  // ---------------------------------------------------------------- the state machine

  predicate AtRest(cfg: Config, s: State) {
    && (s.fsm == Idle || s.fsm == VadTriggered || s.fsm == DetectionConfirmed)
    && (s.fsm == Idle <==> !s.prevSpeech)
    && (s.fsm != Idle ==> s.currentId == CorrelationId(cfg.idHigh, s.idCounter))
  }

  lemma ArrivalKeepsAtRest(cfg: Config, s: State, f: Frame)
    requires cfg.Valid() && |s.window| == cfg.windowFrames && AtRest(cfg, s)
    ensures AtRest(cfg, Arrived(cfg, s, f)) && Arrived(cfg, s, f).prevSpeech == f.speech
  {
  }

  lemma InferenceKeepsAtRest(cfg: Config, s: State, f: Frame)
    requires AtRest(cfg, s) && Ready(cfg, s, f.speech)
    ensures AtRest(cfg, Inferred(cfg, s, f).0) && Inferred(cfg, s, f).0.prevSpeech == s.prevSpeech
  {
  }

  lemma StepKeepsAtRest(cfg: Config, s: State, i: Input)
    requires cfg.Valid() && |s.window| == cfg.windowFrames && AtRest(cfg, s)
    ensures AtRest(cfg, Next(cfg, s, i).0)
    ensures Next(cfg, s, i).0.prevSpeech == (i.Push? && i.frame.speech)
  {
    if i.Push? {
      ArrivalKeepsAtRest(cfg, s, i.frame);
      var a := Arrived(cfg, s, i.frame);
      if Ready(cfg, a, i.frame.speech) { InferenceKeepsAtRest(cfg, a, i.frame); }
      hide Arrived, Inferred, AtRest, Ready;
    }
  }

  lemma {:induction false} AlwaysAtRest(cfg: Config, inputs: seq<Input>)
    requires cfg.Valid()
    ensures AtRest(cfg, After(cfg, inputs))
    ensures After(cfg, inputs).prevSpeech == Speech(inputs, |inputs| - 1)
    decreases |inputs|
  {
    if inputs != [] {
      var front := inputs[..|inputs| - 1];
      AlwaysAtRest(cfg, front);
      StepKeepsAtRest(cfg, After(cfg, front), inputs[|inputs| - 1]);
    }
  }

  /** Between frames the machine is idle exactly when the last input was not a speech frame. */
  lemma IdleIffSilent(cfg: Config, inputs: seq<Input>)
    requires cfg.Valid()
    ensures After(cfg, inputs).fsm == Idle <==> !Speech(inputs, |inputs| - 1)
  {
    AlwaysAtRest(cfg, inputs);
  }

  // ---------------------------------------------------------------- what an event implies at its frame

  lemma EventStep(cfg: Config, s: State, i: Input)
    requires cfg.Valid() && |s.window| == cfg.windowFrames && AtRest(cfg, s) && Next(cfg, s, i).1.Some?
    ensures i.Push? && i.frame.speech && s.fsm != DetectionConfirmed && s.refractory <= 1
    ensures var n := Next(cfg, s, i).0;
            && n.fsm == DetectionConfirmed && n.refractory == cfg.refractoryFrames
            && Next(cfg, s, i).1.value.id == CorrelationId(cfg.idHigh, n.idCounter)
            && n.idCounter == (if s.fsm == VadTriggered then s.idCounter else s.idCounter + 1)
  {
  }

  /** The same along a run. */
  lemma EventLeaves(cfg: Config, inputs: seq<Input>, i: nat)
    requires cfg.Valid() && i < |inputs| && Emitted(cfg, inputs, i).Some?
    ensures Speech(inputs, i) && inputs[i].Push?
    ensures After(cfg, inputs[..i]).fsm != DetectionConfirmed && After(cfg, inputs[..i]).refractory <= 1
    ensures var n := After(cfg, inputs[..i + 1]);
            && n.fsm == DetectionConfirmed && n.refractory == cfg.refractoryFrames
            && Emitted(cfg, inputs, i).value.id == CorrelationId(cfg.idHigh, n.idCounter)
            && (var s := After(cfg, inputs[..i]);
                n.idCounter == (if s.fsm == VadTriggered then s.idCounter else s.idCounter + 1))
  {
    AfterStep(cfg, inputs, i);
    AlwaysAtRest(cfg, inputs[..i]);
    hide After, Next;
    EventStep(cfg, After(cfg, inputs[..i]), inputs[i]);
  }

  // ---------------------------------------------------------------- one event per speech run

  /** Only speech frames strictly between i and j. */
  ghost predicate AllSpeech(inputs: seq<Input>, i: int, j: int) {
    forall k :: i < k < j ==> Speech(inputs, k)
  }

  /** No reset strictly between i and j. */
  ghost predicate NoReset(inputs: seq<Input>, i: int, j: int) {
    forall k :: i < k < j && 0 <= k < |inputs| ==> inputs[k].Push?
  }

  lemma StaysConfirmedStep(cfg: Config, s: State, i: Input)
    requires cfg.Valid() && |s.window| == cfg.windowFrames && AtRest(cfg, s)
    requires s.fsm == DetectionConfirmed && i.Push? && i.frame.speech
    ensures Next(cfg, s, i).0.fsm == DetectionConfirmed
  {
  }

  lemma {:induction false} StaysConfirmed(cfg: Config, inputs: seq<Input>, i: nat, j: nat)
    requires cfg.Valid() && i < j <= |inputs| && Emitted(cfg, inputs, i).Some? && AllSpeech(inputs, i, j)
    ensures After(cfg, inputs[..j]).fsm == DetectionConfirmed
    decreases j
  {
    if j == i + 1 {
      EventLeaves(cfg, inputs, i);
    } else {
      assert Speech(inputs, j - 1) && AllSpeech(inputs, i, j - 1);
      var s, last := After(cfg, inputs[..j - 1]), inputs[j - 1];
      assert last.Push? && last.frame.speech;
      hide *;
      StaysConfirmed(cfg, inputs, i, j - 1);
      AlwaysAtRest(cfg, inputs[..j - 1]);
      StaysConfirmedStep(cfg, s, last);
      AfterStep(cfg, inputs, j - 1);
    }
  }

  /** Between two events there is a frame without speech, or a reset. */
  lemma OneEventPerSpeechRun(cfg: Config, inputs: seq<Input>, i: nat, j: nat)
    requires cfg.Valid() && i < j < |inputs| && Emitted(cfg, inputs, i).Some? && Emitted(cfg, inputs, j).Some?
    ensures exists k :: i < k < j && !Speech(inputs, k)
  {
    if AllSpeech(inputs, i, j) {
      StaysConfirmed(cfg, inputs, i, j);
      EventLeaves(cfg, inputs, j);
    }
  }

  // ---------------------------------------------------------------- refractory

  lemma RefractoryStep(cfg: Config, s: State, i: Input)
    requires cfg.Valid() && |s.window| == cfg.windowFrames && AtRest(cfg, s) && i.Push?
    ensures Next(cfg, s, i).0.refractory == cfg.refractoryFrames || Next(cfg, s, i).0.refractory >= s.refractory - 1
  {
  }

  /** Over one frame the counter either restarts or loses at most one. */
  lemma RefractoryGoesOn(cfg: Config, inputs: seq<Input>, j: nat)
    requires cfg.Valid() && j < |inputs| && inputs[j].Push?
    ensures var now, next := After(cfg, inputs[..j]).refractory, After(cfg, inputs[..j + 1]).refractory;
            next == cfg.refractoryFrames || next >= now - 1
  {
    AlwaysAtRest(cfg, inputs[..j]);
    AfterStep(cfg, inputs, j);
    hide After, Next, AtRest;
    RefractoryStep(cfg, After(cfg, inputs[..j]), inputs[j]);
  }

  lemma NoResetBefore(inputs: seq<Input>, i: nat, j: nat)
    requires i + 1 < j <= |inputs| && NoReset(inputs, i, j)
    ensures inputs[j - 1].Push? && NoReset(inputs, i, j - 1)
  {
  }

  lemma {:induction false} RefractoryLeft(cfg: Config, inputs: seq<Input>, i: nat, j: nat)
    requires cfg.Valid() && i < j <= |inputs| && Emitted(cfg, inputs, i).Some? && NoReset(inputs, i, j)
    ensures After(cfg, inputs[..j]).refractory >= cfg.refractoryFrames - (j - 1 - i)
    decreases j
  {
    hide *;
    if j == i + 1 {
      EventLeaves(cfg, inputs, i);
    } else {
      NoResetBefore(inputs, i, j);
      RefractoryLeft(cfg, inputs, i, j - 1);
      RefractoryGoesOn(cfg, inputs, j - 1);
    }
  }

  /** Events are at least refractoryFrames frames apart, unless a reset comes between. */
  lemma EventsAreSpread(cfg: Config, inputs: seq<Input>, i: nat, j: nat)
    requires cfg.Valid() && i < j < |inputs| && Emitted(cfg, inputs, i).Some? && Emitted(cfg, inputs, j).Some?
    requires NoReset(inputs, i, j)
    ensures j - i >= cfg.refractoryFrames
  {
    RefractoryLeft(cfg, inputs, i, j);
    EventLeaves(cfg, inputs, j);
  }

  // ---------------------------------------------------------------- correlation ids

  /** Since an event with id counter c: back in VadTriggered only with a new id. */
  predicate Renewed(s: State, c: nat) {
    s.idCounter >= c && (s.fsm == VadTriggered ==> s.idCounter > c)
  }

  lemma RenewedStep(cfg: Config, s: State, i: Input, c: nat)
    requires cfg.Valid() && |s.window| == cfg.windowFrames && AtRest(cfg, s) && Renewed(s, c)
    ensures Renewed(Next(cfg, s, i).0, c)
  {
  }

  lemma {:induction false} RenewedSince(cfg: Config, inputs: seq<Input>, i: nat, j: nat)
    requires cfg.Valid() && i < j <= |inputs| && Emitted(cfg, inputs, i).Some?
    ensures Renewed(After(cfg, inputs[..j]), Emitted(cfg, inputs, i).value.id.lo)
    decreases j
  {
    AfterStep(cfg, inputs, j - 1);
    AlwaysAtRest(cfg, inputs[..j - 1]);
    hide After, Next;
    if j == i + 1 {
      EventStep(cfg, After(cfg, inputs[..i]), inputs[i]);
    } else {
      RenewedSince(cfg, inputs, i, j - 1);
      RenewedStep(cfg, After(cfg, inputs[..j - 1]), inputs[j - 1], Emitted(cfg, inputs, i).value.id.lo);
    }
  }

  /** Every event carries a valid id, and later events carry larger ones, across resets too. */
  lemma IdsIncrease(cfg: Config, inputs: seq<Input>, i: nat, j: nat)
    requires cfg.Valid() && i < j < |inputs| && Emitted(cfg, inputs, i).Some? && Emitted(cfg, inputs, j).Some?
    ensures Emitted(cfg, inputs, i).value.id.Valid() && Emitted(cfg, inputs, j).value.id.Valid()
    ensures Emitted(cfg, inputs, i).value.id.lo < Emitted(cfg, inputs, j).value.id.lo
  {
    hide After, Next, Emitted;
    RenewedSince(cfg, inputs, i, j);
    EventLeaves(cfg, inputs, i);
    EventLeaves(cfg, inputs, j);
  }
}
